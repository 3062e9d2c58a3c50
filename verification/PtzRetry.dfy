/** Credentials and the one retry of ptz/controller.py: what a task does after a rejected AUTH, how
    often it authenticates in any run, and what follows a preset, the idle timer and a reconnect. */
module PtzRetry {
  import opened Bytes
  import opened PtzController

  /** The one reply that accepts an AUTH. */
  const ACCEPT := Reply(4097, Some(0))

  lemma AcceptsOnly(r: Reply)
    ensures Accepts(r) <==> r == ACCEPT
  {
  }

  // ---------------------------------------------------------------- while a task waits

  function From(s: State, actions: seq<Action>): State
    decreases |actions|
  {
    if actions == [] then s
    else Step(From(s, actions[..|actions| - 1]), actions[|actions| - 1])
  }

  predicate Runs(a: Action, i: nat) {
    a.Run? && a.task == i
  }

  predicate Others(actions: seq<Action>, i: nat) {
    forall n | 0 <= n < |actions| :: !Runs(actions[n], i)
  }

  /** Nothing has happened to a waiting task, but that sessions may have been closed. */
  predicate StillWaits(s: State, t: State, i: nat) {
    && i < |s.tasks| <= |t.tasks| && t.tasks[i] == s.tasks[i] && t.lock == s.lock && t.creds == s.creds
    && |t.sessions| == |s.sessions|
    && forall k | 0 <= k < |s.sessions| ::
         t.sessions[k] == s.sessions[k] || t.sessions[k] == s.sessions[k].(ready := false)
  }

  /** No step but its own moves the task that has the lock, nor the credentials or what was sent. */
  lemma StepOthers(s: State, a: Action, i: nat)
    requires Inv(s) && i < |s.tasks| && Holds(s.tasks[i]) && !Runs(a, i)
    ensures StillWaits(s, Step(s, a), i)
  {
    hide Sane, AllAuthFirst, RecallsLast, OneReconnect;
  }

  lemma {:induction false} FromOthers(s: State, between: seq<Action>, i: nat)
    requires Inv(s) && i < |s.tasks| && Holds(s.tasks[i]) && Others(between, i)
    ensures StillWaits(s, From(s, between), i) && Inv(From(s, between))
    decreases |between|
  {
    if between != [] {
      hide Step, Inv;
      var n := |between| - 1;
      FromOthers(s, between[..n], i);
      StepKeeps(From(s, between[..n]), between[n]);
      StepOthers(From(s, between[..n]), between[n], i);
    }
  }

  // ---------------------------------------------------------------- the retry

  /** The next time the task runs, after some steps of others. */
  function Then(s: State, between: seq<Action>, i: nat, reply: Reply, sends: bool): State {
    Step(From(s, between), Run(i, reply, false, sends))
  }

  /** The states of a task that has its AUTH rejected and goes on, whatever happens in between. */
  ghost predicate Retry(s: seq<State>, i: nat, between: seq<seq<Action>>, reply: Reply) {
    && |s| == 5 && |between| == 4 && (forall n | 0 <= n < 4 :: Others(between[n], i))
    && s[1] == Step(s[0], Run(i, reply, false, true))
    && (forall n | 0 <= n < 3 :: s[n + 2] == Then(s[n + 1], between[n], i, Silence, true))
  }

  lemma RunReply(s: State, i: nat, k: nat, first: bool, reply: Reply)
    requires Inv(s) && i < |s.tasks| && s.tasks[i].pc == AuthReply(k, first) && reply != ACCEPT
    ensures var t := Step(s, Run(i, reply, false, true));
            && i < |t.tasks| && k < |t.sessions| && t.tasks[i] == s.tasks[i].(pc := Rejected(first))
            && t.sessions[k] == Session(false, Some(reply), [Auth]) && t.creds == s.creds && t.session == s.session
  {
    hide Exclusive, AllAuthFirst, RecallsLast, OneReconnect;
    AcceptsOnly(reply);
    assert s.tasks[i].pc.AuthReply?;
  }

  lemma RunRejected(s: State, i: nat)
    requires i < |s.tasks| && s.tasks[i].pc.Rejected?
    ensures var t := Step(s, Run(i, Silence, false, true));
            && |t.tasks| == |s.tasks| && t.sessions == s.sessions && t.session == s.session
            && (if s.tasks[i].pc.first then !t.creds && t.tasks[i] == s.tasks[i].(pc := Bootstrap(false))
                else t.tasks[i].pc == Done && t.lock == None)
  {
  }

  lemma RunBootstrap(s: State, i: nat)
    requires i < |s.tasks| && s.tasks[i].pc.Bootstrap?
    ensures var t := Step(s, Run(i, Silence, false, true));
            && |t.tasks| == |s.tasks| && t.sessions == s.sessions && t.session == s.session
            && t.creds && t.tasks[i] == s.tasks[i].(pc := Connecting(s.tasks[i].pc.first))
  {
  }

  lemma RunConnecting(s: State, i: nat)
    requires i < |s.tasks| && s.tasks[i].pc.Connecting?
    ensures var t, k := Step(s, Run(i, Silence, false, true)), |s.sessions|;
            && |t.tasks| == |s.tasks| && t.sessions == s.sessions + [Session(true, None, [Auth])]
            && t.creds == s.creds && t.tasks[i] == s.tasks[i].(pc := AuthReply(k, s.tasks[i].pc.first))
  {
  }

  /** After its first rejection, whatever others do in between, a task drops the credentials, renews
      them, and connects a second session, on which it sends AUTH; the first one is closed. */
  lemma RetryConnects(s: seq<State>, i: nat, k: nat, between: seq<seq<Action>>, reply: Reply)
    requires Retry(s, i, between, reply) && reply != ACCEPT
    requires Inv(s[0]) && i < |s[0].tasks| && s[0].tasks[i].pc == AuthReply(k, true)
    ensures !s[2].creds && s[3].creds && s[4].creds && Inv(s[4])
    ensures k < |s[1].sessions| && s[1].sessions[k] == Session(false, Some(reply), [Auth])
    ensures i < |s[4].tasks| && s[4].tasks[i].kind == s[0].tasks[i].kind
    ensures s[4].tasks[i].pc.AuthReply? && !s[4].tasks[i].pc.first
    ensures var j := s[4].tasks[i].pc.session;
            j == |s[3].sessions| > k && |s[4].sessions| == j + 1 && s[4].sessions[j] == Session(true, None, [Auth])
  {
    hide Inv, Step, From, Others, StillWaits;
    StepKeeps(s[0], Run(i, reply, false, true));
    RunReply(s[0], i, k, true, reply);
    Waited(s[1], between[0], i);
    var a := From(s[1], between[0]);
    assert s[0 + 2] == Then(s[0 + 1], between[0], i, Silence, true);
    RunRejected(a, i);
    StepKeeps(a, Run(i, Silence, false, true));
    Waited(s[2], between[1], i);
    var b := From(s[2], between[1]);
    assert s[1 + 2] == Then(s[1 + 1], between[1], i, Silence, true);
    RunBootstrap(b, i);
    StepKeeps(b, Run(i, Silence, false, true));
    Waited(s[3], between[2], i);
    var c := From(s[3], between[2]);
    assert s[2 + 2] == Then(s[2 + 1], between[2], i, Silence, true);
    RunConnecting(c, i);
    StepKeeps(c, Run(i, Silence, false, true));
  }

  lemma Waited(s: State, between: seq<Action>, i: nat)
    requires Inv(s) && i < |s.tasks| && Holds(s.tasks[i]) && Others(between, i)
    ensures var t := From(s, between);
            && Inv(t) && i < |t.tasks| && t.tasks[i] == s.tasks[i] && t.creds == s.creds
            && |t.sessions| == |s.sessions|
            && forall k | 0 <= k < |s.sessions| :: t.sessions[k].sent == s.sessions[k].sent
  {
    hide Inv;
    FromOthers(s, between, i);
  }

  /** The second reply decides: accepted, the session becomes the current one and a command is sent
      on it; rejected, the session is closed and the task is over the next time it runs. */
  lemma SecondReply(s: State, i: nat, j: nat, reply: Reply, sends: bool, between: seq<Action>)
    requires Inv(s) && i < |s.tasks| && s.tasks[i].pc == AuthReply(j, false) && Others(between, i)
    ensures var t := Step(s, Run(i, reply, false, sends));
            && j < |t.sessions| && i < |t.tasks| && t.sessions[j].authReply == Some(reply)
            && (reply == ACCEPT ==>
                  && t.session == Some(j)
                  && (if s.tasks[i].kind.Command? && sends
                      then && t.tasks[i].pc == AwaitAck(j)
                           && t.sessions[j].sent == [Auth, Sent(i, s.tasks[i].kind.recycle)]
                      else t.tasks[i].pc == Done && t.lock == None && t.sessions[j].sent == [Auth]))
            && (reply != ACCEPT ==>
                  var u := Then(t, between, i, Silence, true);
                  && !t.sessions[j].ready && t.session == s.session && t.sessions[j].sent == [Auth]
                  && i < |u.tasks| && u.tasks[i].pc == Done && u.lock == None)
  {
    hide Inv, Step, From, Others, StillWaits;
    var t := Step(s, Run(i, reply, false, sends));
    StepKeeps(s, Run(i, reply, false, sends));
    if reply == ACCEPT {
      RunAccepted(s, i, j, sends);
    } else {
      SendsIrrelevant(s, i, j, false, reply, sends);
      RunReply(s, i, j, false, reply);
      Waited(t, between, i);
      RunRejected(From(t, between), i);
    }
  }

  lemma SendsIrrelevant(s: State, i: nat, j: nat, first: bool, reply: Reply, sends: bool)
    requires i < |s.tasks| && s.tasks[i].pc == AuthReply(j, first) && reply != ACCEPT
    ensures Step(s, Run(i, reply, false, sends)) == Step(s, Run(i, reply, false, true))
  {
    AcceptsOnly(reply);
  }

  lemma RunAccepted(s: State, i: nat, j: nat, sends: bool)
    requires Inv(s) && i < |s.tasks| && s.tasks[i].pc.AuthReply? && s.tasks[i].pc.session == j
    ensures var t := Step(s, Run(i, ACCEPT, false, sends));
            && j < |t.sessions| && |t.tasks| == |s.tasks| && t.session == Some(j)
            && t.sessions[j].authReply == Some(ACCEPT)
            && (if s.tasks[i].kind.Command? && sends
                then t.tasks[i].pc == AwaitAck(j) && t.sessions[j].sent == [Auth, Sent(i, s.tasks[i].kind.recycle)]
                else t.tasks[i].pc == Done && t.lock == None && t.sessions[j].sent == [Auth])
  {
    hide Exclusive, AllAuthFirst, RecallsLast, OneReconnect;
    AcceptsOnly(ACCEPT);
  }

  // ---------------------------------------------------------------- how often a task authenticates

  /** What a task does to the credentials and the sessions, as seen from outside. */
  datatype Event = Connected(session: nat) | Dropped | Renewed

  function Seen(s: State, t: State, a: Action, i: nat): (e: seq<Event>) {
    if !Runs(a, i) then []
    else if |t.sessions| > |s.sessions| then [Connected(|s.sessions|)]
    else if s.creds && !t.creds then [Dropped]
    else if !s.creds && t.creds then [Renewed]
    else []
  }

  function Events(actions: seq<Action>, i: nat): seq<Event>
    decreases |actions|
  {
    if actions == [] then []
    else
      var before := actions[..|actions| - 1];
      Events(before, i) + Seen(Reached(before), Reached(actions), actions[|actions| - 1], i)
  }

  /** The events from the first connection on: credentials may have to be fetched before it. */
  function Own(e: seq<Event>): seq<Event> {
    if e != [] && e[0] == Renewed then e[1..] else e
  }

  predicate RejectedAt(s: State, e: Event) {
    && e.Connected? && e.session < |s.sessions|
    && s.sessions[e.session].authReply.Some? && s.sessions[e.session].authReply != Some(ACCEPT)
  }

  /** At most two sessions, the second one only after the first AUTH was rejected and the credentials
      were dropped and renewed. */
  predicate WellTried(s: State, e: seq<Event>) {
    var o := Own(e);
    && |o| <= 4
    && (|o| > 0 ==> o[0].Connected? && o[0].session < |s.sessions|)
    && (|o| > 1 ==> RejectedAt(s, o[0]) && o[1] == Dropped)
    && (|o| > 2 ==> o[2] == Renewed)
    && (|o| > 3 ==> o[3].Connected? && o[3].session < |s.sessions|)
  }

  /** How far the events have come where the task waits. */
  predicate Fits(s: State, t: Task, e: seq<Event>) {
    var o := Own(e);
    match t.pc
    case Queued => e == []
    case Bootstrap(first) => !s.creds && if first then e == [] else |o| == 2
    case Connecting(first) => s.creds && |o| == if first then 0 else 3
    case AuthReply(k, first) =>
      s.creds && |o| == (if first then 1 else 4) && o[|o| - 1] == Connected(k)
    case Rejected(first) => s.creds && |o| == (if first then 1 else 4) && RejectedAt(s, o[|o| - 1])
    case _ => true
  }

  predicate Tried(s: State, i: nat, e: seq<Event>) {
    WellTried(s, e) && if i < |s.tasks| then Fits(s, s.tasks[i], e) else e == []
  }

  /** No reply to AUTH has come yet where one is waited for. */
  predicate Unanswered(s: State) {
    forall i: nat | i < |s.tasks| && s.tasks[i].pc.AuthReply? ::
      s.tasks[i].pc.session < |s.sessions| && s.sessions[s.tasks[i].pc.session].authReply == None
  }

  /** Sessions stay, and so does a reply once it has come. */
  predicate RepliesStay(s: State, t: State) {
    |s.sessions| <= |t.sessions|
    && forall k | 0 <= k < |s.sessions| && s.sessions[k].authReply.Some? ::
         t.sessions[k].authReply == s.sessions[k].authReply
  }

  /** No session and no reply is new, and no task has come to wait for a reply. */
  predicate Quiet(s: State, t: State) {
    && |t.sessions| == |s.sessions|
    && (forall k | 0 <= k < |s.sessions| :: t.sessions[k].authReply == s.sessions[k].authReply)
    && (forall i: nat | i < |t.tasks| && t.tasks[i].pc.AuthReply? ::
          i < |s.tasks| && s.tasks[i].pc == t.tasks[i].pc)
  }

  lemma QuietUse(s: State, i: nat, k: nat, sends: bool)
    requires i < |s.tasks|
    ensures var t := Use(s, i, k, sends); Quiet(s, t) && i < |t.tasks| && !t.tasks[i].pc.AuthReply?
  {
  }

  lemma QuietAfter(s: State, i: nat)
    requires i < |s.tasks|
    ensures Quiet(s, After(s, i))
  {
  }

  lemma QuietDiscard(s: State, i: nat)
    requires i < |s.tasks|
    ensures Quiet(s, Discard(s, i))
  {
    hide After;
    QuietAfter(s, i);
  }

  lemma QuietAcquire(s: State, i: nat, sends: bool)
    ensures Quiet(s, Acquire(s, i, sends))
  {
    hide Use, Discard, After;
    if i < |s.tasks| {
      var t := s.(lock := Some(i));
      QuietDiscard(t, i);
      if s.session.Some? { QuietUse(t, i, s.session.value, sends); }
    }
  }

  lemma QuietResume(s: State, i: nat, reply: Reply, raised: bool, sends: bool)
    requires i < |s.tasks| && !raised ==> !s.tasks[i].pc.AuthReply? && !s.tasks[i].pc.Connecting?
    ensures Quiet(s, Resume(s, i, reply, raised, sends))
  {
    hide Use, Discard, After, Accepts;
    if i < |s.tasks| {
      QuietDiscard(s, i);
      QuietAfter(s.(session := None), i);
    }
  }

  lemma QuietKeeps(s: State, t: State)
    requires Unanswered(s) && Quiet(s, t)
    ensures Unanswered(t) && RepliesStay(s, t)
  {
  }

  lemma OnlyWaiter(s: State, i: nat)
    requires Inv(s) && i < |s.tasks| && Holds(s.tasks[i])
    ensures forall j: nat | j < |s.tasks| && j != i :: !s.tasks[j].pc.AuthReply?
  {
    hide Sane, AllAuthFirst, RecallsLast, OneReconnect;
  }

  lemma ReplyArrives(s: State, i: nat, reply: Reply, sends: bool)
    requires Inv(s) && Unanswered(s) && i < |s.tasks| && s.tasks[i].pc.AuthReply?
    ensures var t := Resume(s, i, reply, false, sends); Unanswered(t) && RepliesStay(s, t)
  {
    hide Sane, AllAuthFirst, RecallsLast, OneReconnect, Accepts, Use;
    var k := s.tasks[i].pc.session;
    var t := s.(sessions := s.sessions[k := s.sessions[k].(authReply := Some(reply))]);
    QuietUse(t.(session := Some(k)), i, k, sends);
    OnlyWaiter(s, i);
  }

  lemma SessionOpens(s: State, i: nat, reply: Reply, sends: bool)
    requires Inv(s) && Unanswered(s) && i < |s.tasks| && s.tasks[i].pc.Connecting?
    ensures var t := Resume(s, i, reply, false, sends); Unanswered(t) && RepliesStay(s, t)
  {
    hide Sane, AllAuthFirst, RecallsLast, OneReconnect;
  }

  lemma UnansweredStep(s: State, a: Action)
    requires Inv(s) && Unanswered(s)
    ensures Unanswered(Step(s, a)) && RepliesStay(s, Step(s, a))
  {
    hide Inv, Unanswered, Acquire, Resume;
    if a.Run? && !a.raised && a.task < |s.tasks| && s.tasks[a.task].pc.AuthReply? {
      ReplyArrives(s, a.task, a.reply, a.sends);
    } else if a.Run? && !a.raised && a.task < |s.tasks| && s.tasks[a.task].pc.Connecting? {
      SessionOpens(s, a.task, a.reply, a.sends);
    } else {
      if a.Run? { QuietResume(s, a.task, a.reply, a.raised, a.sends); }
      if a.TakeLock? { QuietAcquire(s, a.task, a.sends); }
      QuietKeeps(s, Step(s, a));
    }
  }

  lemma OwnAppend(e: seq<Event>, x: Event)
    requires Own(e) != [] || x.Connected?
    ensures Own(e + [x]) == Own(e) + [x]
  {
    if e != [] { assert (e + [x])[1..] == e[1..] + [x]; }
  }

  lemma TriedStays(s: State, t: State, i: nat, e: seq<Event>)
    requires WellTried(s, e) && RepliesStay(s, t)
    ensures WellTried(t, e)
  {
  }

  // ---------------------------------------------------------------- one step of the task itself

  /** What one step adds to the events fits where the task has come to. */
  predicate Advances(s: State, t: State, i: nat, e: seq<Event>, seen: seq<Event>) {
    i < |t.tasks| && WellTried(t, e + seen) && Fits(t, t.tasks[i], e + seen)
  }

  lemma Nothing(e: seq<Event>)
    ensures e + [] == e && (e == [] ==> Own(e) == [])
  {
  }

  lemma FetchTried(s: State, t: State, i: nat, e: seq<Event>)
    requires i < |s.tasks| == |t.tasks| && WellTried(t, e) && Fits(s, s.tasks[i], e) && s.tasks[i].pc.Bootstrap?
    requires t.creds && t.tasks[i].pc == Connecting(s.tasks[i].pc.first)
    ensures Advances(s, t, i, e, [Renewed])
  {
    if !s.tasks[i].pc.first { OwnAppend(e, Renewed); }
  }

  lemma ConnectTried(s: State, t: State, i: nat, e: seq<Event>)
    requires i < |s.tasks| == |t.tasks| && WellTried(t, e) && Fits(s, s.tasks[i], e) && s.tasks[i].pc.Connecting?
    requires t.creds == s.creds && |t.sessions| == |s.sessions| + 1
    requires t.tasks[i].pc == AuthReply(|s.sessions|, s.tasks[i].pc.first)
    ensures Advances(s, t, i, e, [Connected(|s.sessions|)])
  {
    hide Own;
    OwnAppend(e, Connected(|s.sessions|));
  }

  lemma DropTried(s: State, t: State, i: nat, e: seq<Event>)
    requires i < |s.tasks| == |t.tasks| && WellTried(t, e) && Fits(s, s.tasks[i], e) && s.tasks[i].pc == Rejected(true)
    requires !t.creds && t.sessions == s.sessions && t.tasks[i].pc == Bootstrap(false)
    ensures Advances(s, t, i, e, [Dropped])
  {
    hide Own;
    OwnAppend(e, Dropped);
  }

  lemma ReplyTried(s: State, i: nat, reply: Reply, sends: bool, e: seq<Event>)
    requires Inv(s) && i < |s.tasks| && s.tasks[i].pc.AuthReply? && Fits(s, s.tasks[i], e)
    ensures var t := Resume(s, i, reply, false, sends);
            i < |t.tasks| && Fits(t, t.tasks[i], e) && |t.sessions| == |s.sessions| && t.creds == s.creds
  {
    hide Own, Inv, Resume;
    var k := s.tasks[i].pc.session;
    if reply == ACCEPT {
      RunAccepted(s, i, k, sends);
      AcceptedCreds(s, i, sends);
    } else {
      SendsIrrelevant(s, i, k, s.tasks[i].pc.first, reply, sends);
      RunReply(s, i, k, s.tasks[i].pc.first, reply);
      RejectedLength(s, i, reply, sends);
    }
  }

  lemma AcceptedCreds(s: State, i: nat, sends: bool)
    requires Inv(s) && i < |s.tasks| && s.tasks[i].pc.AuthReply?
    ensures var t := Resume(s, i, ACCEPT, false, sends); |t.sessions| == |s.sessions| && t.creds == s.creds
  {
    hide Exclusive, AllAuthFirst, RecallsLast, OneReconnect, Sane;
  }

  lemma RejectedLength(s: State, i: nat, reply: Reply, sends: bool)
    requires i < |s.tasks| && s.tasks[i].pc.AuthReply? && reply != ACCEPT
    ensures |Resume(s, i, reply, false, sends).sessions| == |s.sessions|
  {
    AcceptsOnly(reply);
  }

  /** One stretch of a task that is past the queue, and what is seen of it. */
  lemma RunsTried(s: State, i: nat, reply: Reply, raised: bool, sends: bool, e: seq<Event>)
    requires Inv(s) && Unanswered(s) && i < |s.tasks| && WellTried(s, e) && Fits(s, s.tasks[i], e)
    ensures var a := Run(i, reply, raised, sends);
            Advances(s, Step(s, a), i, e, Seen(s, Step(s, a), a, i))
  {
    hide Inv, Unanswered, Resume, RepliesStay, Own, Use, Discard, After;
    var a := Run(i, reply, raised, sends);
    var t := Step(s, a);
    UnansweredStep(s, a);
    TriedStays(s, t, i, e);
    Nothing(e);
    if raised {
      RunRaised(s, i, reply, sends);
    } else {
      if !s.tasks[i].pc.AuthReply? { OthersIrrelevant(s, i, reply, sends); }
      match s.tasks[i].pc
      case Bootstrap(_) =>
        RunBootstrap(s, i);
        FetchTried(s, t, i, e);
      case Connecting(_) =>
        RunConnecting(s, i);
        ConnectTried(s, t, i, e);
      case AuthReply(_, _) => ReplyTried(s, i, reply, sends, e);
      case Rejected(first) =>
        RunRejected(s, i);
        if first { DropTried(s, t, i, e); } else { RunSecond(s, i); }
      case _ =>
        RunElse(s, i, reply, sends);
        ElseTried(s, t, i, e);
    }
  }

  lemma ElseTried(s: State, t: State, i: nat, e: seq<Event>)
    requires i < |s.tasks| && i < |t.tasks| && WellTried(t, e) && Fits(s, s.tasks[i], e)
    requires t == s || t.tasks[i].pc == Discarding || t.tasks[i].pc == Done
    ensures Advances(s, t, i, e, [])
  {
    hide Own;
    Nothing(e);
  }

  lemma OthersIrrelevant(s: State, i: nat, reply: Reply, sends: bool)
    requires i < |s.tasks| && !s.tasks[i].pc.AuthReply?
    ensures Step(s, Run(i, reply, false, sends)) == Step(s, Run(i, Silence, false, true))
  {
  }

  lemma RunSecond(s: State, i: nat)
    requires i < |s.tasks| && s.tasks[i].pc == Rejected(false)
    ensures Step(s, Run(i, Silence, false, true)).creds == s.creds
  {
  }

  lemma RunElse(s: State, i: nat, reply: Reply, sends: bool)
    requires i < |s.tasks|
    requires var pc := s.tasks[i].pc; pc == Queued || pc.AwaitAck? || pc == Discarding || pc == Done
    ensures var t := Resume(s, i, reply, false, sends);
            && i < |t.tasks| && |t.sessions| == |s.sessions| && t.creds == s.creds
            && (t == s || t.tasks[i].pc == Discarding || t.tasks[i].pc == Done)
  {
  }

  lemma RunRaised(s: State, i: nat, reply: Reply, sends: bool)
    requires i < |s.tasks|
    ensures var t := Resume(s, i, reply, true, sends);
            && |t.tasks| == |s.tasks| && |t.sessions| == |s.sessions| && t.creds == s.creds
            && (if Holds(s.tasks[i]) then t.tasks[i].pc == Done else t == s)
  {
  }

  // ---------------------------------------------------------------- over whole runs

  /** Steps of others leave the task where it is, or let it take the lock. */
  lemma OthersTried(s: State, a: Action, i: nat, e: seq<Event>)
    requires Inv(s) && Unanswered(s) && Tried(s, i, e) && !Runs(a, i)
    ensures Tried(Step(s, a), i, e)
  {
    hide Inv, Unanswered, Own, RepliesStay, Acquire, Resume, Close;
    var t := Step(s, a);
    UnansweredStep(s, a);
    TriedStays(s, t, i, e);
    if i < |s.tasks| && Holds(s.tasks[i]) {
      StepOthers(s, a, i);
      UnchangedFits(s, t, s.tasks[i], e);
    } else if i < |s.tasks| {
      Nothing(e);
      IdleOthers(s, a, i);
    } else {
      NewOthers(s, a, i);
    }
  }

  lemma UnchangedFits(s: State, t: State, task: Task, e: seq<Event>)
    requires Fits(s, task, e) && WellTried(s, e) && RepliesStay(s, t) && s.creds == t.creds
    ensures Fits(t, task, e)
  {
  }

  predicate OnlyMoves(s: State, t: State, i: nat) {
    && |t.tasks| >= |s.tasks| && (i < |s.tasks| ==> t.tasks[i] == s.tasks[i])
    && (|s.tasks| <= i < |t.tasks| ==> t.tasks[i].pc == Queued)
  }

  lemma PiecesOnly(s: State, j: nat, k: nat, sends: bool, i: nat)
    requires i != j && j < |s.tasks|
    ensures OnlyMoves(s, Use(s, j, k, sends), i) && OnlyMoves(s, After(s, j), i) && OnlyMoves(s, Discard(s, j), i)
  {
  }

  lemma AcquireOnly(s: State, j: nat, sends: bool, i: nat)
    requires i != j
    ensures OnlyMoves(s, Acquire(s, j, sends), i)
  {
    hide Use, Discard;
    if j < |s.tasks| {
      var t := s.(lock := Some(j));
      PiecesOnly(t, j, if s.session.Some? then s.session.value else 0, sends, i);
    }
  }

  lemma ReplyOnly(s: State, j: nat, reply: Reply, sends: bool, i: nat)
    requires i != j && j < |s.tasks| && s.tasks[j].pc.AuthReply?
    ensures OnlyMoves(s, Resume(s, j, reply, false, sends), i)
  {
    hide Accepts, Use, Close;
    if s.tasks[j].pc.session < |s.sessions| {
      var k := s.tasks[j].pc.session;
      var t := s.(sessions := s.sessions[k := s.sessions[k].(authReply := Some(reply))]);
      CloseOnly(t, k);
      PiecesOnly(t.(session := Some(k)), j, k, sends, i);
    }
  }

  lemma ResumeOnly(s: State, j: nat, reply: Reply, raised: bool, sends: bool, i: nat)
    requires i != j
    ensures OnlyMoves(s, Resume(s, j, reply, raised, sends), i)
  {
    hide Accepts, Use, After, Discard, Close;
    if j < |s.tasks| {
      if s.tasks[j].pc.AuthReply? && !raised {
        ReplyOnly(s, j, reply, sends, i);
      } else {
        PiecesOnly(s, j, 0, sends, i);
        PiecesOnly(s.(session := None), j, 0, sends, i);
      }
    }
  }

  lemma DiscardOwn(s: State, i: nat)
    requires i < |s.tasks|
    ensures var t := Discard(s, i); i < |t.tasks| && (t.tasks[i].pc == Discarding || t.tasks[i].pc == Done)
  {
  }

  lemma UseOwn(s: State, i: nat, k: nat, sends: bool)
    requires i < |s.tasks|
    ensures var t := Use(s, i, k, sends); i < |t.tasks| && (t.tasks[i].pc.AwaitAck? || t.tasks[i].pc == Done)
  {
  }

  lemma AcquireOwn(s: State, i: nat, sends: bool)
    requires i < |s.tasks| && !Holds(s.tasks[i])
    ensures var t := Acquire(s, i, sends);
            && i < |t.tasks|
            && var pc := t.tasks[i].pc;
               || pc == s.tasks[i].pc
               || (s.tasks[i].pc != Done
                   && (pc == Done || pc.AwaitAck? || pc == Discarding
                       || pc == (if t.creds then Connecting(true) else Bootstrap(true))))
  {
    hide Use, Discard;
    var t := s.(lock := Some(i));
    DiscardOwn(t, i);
    if s.session.Some? { UseOwn(t, i, s.session.value, sends); }
  }

  /** A task that is not past the queue stays so, ends, or gets the lock. */
  lemma IdleOthers(s: State, a: Action, i: nat)
    requires i < |s.tasks| && !Holds(s.tasks[i]) && !Runs(a, i)
    ensures var t := Step(s, a);
            && i < |t.tasks|
            && (s.tasks[i].pc == Done ==> t.tasks[i].pc == Done)
            && var pc := t.tasks[i].pc;
               || pc == s.tasks[i].pc || pc == Done || pc.AwaitAck? || pc == Discarding
               || pc == (if t.creds then Connecting(true) else Bootstrap(true))
  {
    hide Acquire, Resume, Close;
    match a
    case TakeLock(j, sends) => if i == j { AcquireOwn(s, i, sends); } else { AcquireOnly(s, j, sends, i); }
    case Run(j, reply, raised, sends) => ResumeOnly(s, j, reply, raised, sends, i);
    case _ => if s.session.Some? { CloseOnly(s, s.session.value); }
  }

  lemma CloseOnly(s: State, k: nat)
    ensures Close(s, k).tasks == s.tasks
  {
  }

  lemma NewOthers(s: State, a: Action, i: nat)
    requires i >= |s.tasks| && !Runs(a, i)
    ensures var t := Step(s, a); i < |t.tasks| ==> t.tasks[i].pc == Queued
  {
    hide Acquire, Resume, Close;
    match a
    case TakeLock(j, sends) => if i == j { AcquireNone(s, j, sends); } else { AcquireOnly(s, j, sends, i); }
    case Run(j, reply, raised, sends) => ResumeOnly(s, j, reply, raised, sends, i);
    case _ => if s.session.Some? { CloseOnly(s, s.session.value); }
  }

  lemma AcquireNone(s: State, i: nat, sends: bool)
    requires i >= |s.tasks|
    ensures Acquire(s, i, sends) == s
  {
  }

  lemma {:induction false} TriedAlways(actions: seq<Action>, i: nat)
    ensures Inv(Reached(actions)) && Unanswered(Reached(actions))
    ensures Tried(Reached(actions), i, Events(actions, i))
    decreases |actions|
  {
    hide Inv, Step, Unanswered, WellTried, Fits;
    if actions == [] {
      TriedAtFirst(i);
    } else {
      var n := |actions| - 1;
      var before, a := actions[..n], actions[n];
      var s, e := Reached(before), Events(before, i);
      TriedAlways(before, i);
      StepKeeps(s, a);
      UnansweredStep(s, a);
      if Runs(a, i) && i < |s.tasks| {
        RunsTried(s, i, a.reply, a.raised, a.sends, e);
      } else if Runs(a, i) {
        RunOfNothing(s, a);
        Nothing(e);
      } else {
        OthersTried(s, a, i, e);
        Nothing(e);
      }
    }
  }

  lemma RunOfNothing(s: State, a: Action)
    requires a.Run? && a.task >= |s.tasks|
    ensures Step(s, a) == s
  {
  }

  lemma TriedAtFirst(i: nat)
    ensures Inv(INITIAL) && Unanswered(INITIAL) && Tried(INITIAL, i, [])
  {
  }

  /** In every run a task authenticates on at most two sessions. It connects the second one only
      after the AUTH on the first was answered and not accepted, and after the credentials were
      dropped and then renewed. */
  lemma TriesTwice(actions: seq<Action>, i: nat)
    ensures var s, o := Reached(actions), Own(Events(actions, i));
            && |o| <= 4 && (|o| > 0 ==> o[0].Connected?) && (|o| > 1 ==> o[1] == Dropped)
            && (|o| > 2 ==> o[2] == Renewed) && (|o| > 3 ==> o[3].Connected?)
            && (|o| > 1 ==>
                  && o[0].session < |s.sessions| && s.sessions[o[0].session].authReply.Some?
                  && s.sessions[o[0].session].authReply != Some(Reply(4097, Some(0))))
  {
    hide Reached, Events, Own;
    TriedAlways(actions, i);
  }

  // ---------------------------------------------------------------- cold starts, presets, idle sessions

  /** A command, or a reconnect with something to do, that finds no ready session starts with the
      credentials it has, or fetches them first; with a session or while closing a reconnect is over. */
  lemma ColdStart(s: State, i: nat, sends: bool)
    requires i < |s.tasks| && s.tasks[i].pc == Queued && s.lock == None && s.tasks[i].kind != Idle
    requires !(s.session.Some? && s.session.value < |s.sessions| && s.sessions[s.session.value].ready)
    ensures var t := Step(s, TakeLock(i, sends));
            && |t.tasks| == |s.tasks| && t.sessions == s.sessions && t.session == s.session
            && t.tasks[i].pc == (if s.tasks[i].kind == Eager && (s.closing || s.session.Some?) then Done
                                 else if s.creds then Connecting(true) else Bootstrap(true))
            && t.lock == (if t.tasks[i].pc == Done then None else Some(i))
  {
  }

  /** The task that gives up a session: a preset after its acknowledgement, or the idle timer. */
  predicate GivesUp(s: State, i: nat, a: Action) {
    && i < |s.tasks|
    && ((s.tasks[i].kind == Command(true) && s.tasks[i].pc.AwaitAck? && a.Run? && a.task == i && !a.raised)
        || (s.tasks[i].kind == Idle && s.tasks[i].pc == Queued && s.lock == None && a.TakeLock? && a.task == i))
  }

  /** A preset, once its wait for the acknowledgement is over, and the idle timer close the current
      session and then forget it; only the preset then queues a reconnect, unless one is not over or
      the controller closes. */
  lemma SessionGivenUp(s: State, i: nat, a: Action, between: seq<Action>)
    requires Inv(s) && GivesUp(s, i, a) && s.session.Some? && Others(between, i)
    ensures var t := Step(s, a);
            var k := s.session.value;
            var w := From(t, between);
            var u := Step(w, Run(i, Silence, false, true));
            var warms := s.tasks[i].kind == Command(true) && !w.closing
                         && (w.reconnect.None? || Over(w, w.reconnect.value));
            && k < |t.sessions| && !t.sessions[k].ready && i < |t.tasks| && t.tasks[i].pc == Discarding
            && u.session == None && u.lock == None && i < |u.tasks| && u.tasks[i].pc == Done
            && (if warms then |u.tasks| == |w.tasks| + 1 && u.tasks[|w.tasks|] == Task(Eager, Queued, false)
                              && u.reconnect == Some(|w.tasks|)
                else |u.tasks| == |w.tasks| && u.reconnect == w.reconnect)
  {
    hide Inv, From, Others, Step, Over;
    StepKeeps(s, a);
    ClosesFirst(s, i, a);
    Waited(Step(s, a), between, i);
    Forgets(From(Step(s, a), between), i);
  }

  lemma ClosesFirst(s: State, i: nat, a: Action)
    requires Inv(s) && GivesUp(s, i, a) && s.session.Some?
    ensures var t, k := Step(s, a), s.session.value;
            && k < |t.sessions| && !t.sessions[k].ready && |t.tasks| == |s.tasks|
            && t.tasks[i] == s.tasks[i].(pc := Discarding)
  {
    hide Exclusive, AllAuthFirst, RecallsLast, OneReconnect;
  }

  lemma Forgets(w: State, i: nat)
    requires i < |w.tasks| && w.tasks[i].pc == Discarding
    ensures var u := Step(w, Run(i, Silence, false, true));
            var warms := w.tasks[i].kind.Command? && !w.closing && (w.reconnect.None? || Over(w, w.reconnect.value));
            && u.session == None && u.lock == None && i < |u.tasks| && u.tasks[i].pc == Done
            && (if warms then |u.tasks| == |w.tasks| + 1 && u.tasks[|w.tasks|] == Task(Eager, Queued, false)
                              && u.reconnect == Some(|w.tasks|)
                else |u.tasks| == |w.tasks| && u.reconnect == w.reconnect)
  {
  }

  /** A task that is interrupted is over and leaves the lock; it has changed nothing else. So is a
      command that is no preset once its wait for the acknowledgement is over, and its session stays
      for the next one. The shutdown closes and forgets the session. */
  lemma LeavesAsItWas(s: State, i: nat, reply: Reply, raised: bool, sends: bool)
    requires i < |s.tasks| && Holds(s.tasks[i])
    requires raised || (s.tasks[i].kind == Command(false) && s.tasks[i].pc.AwaitAck?)
    ensures var t := Step(s, Run(i, reply, raised, sends));
            && t.sessions == s.sessions && t.session == s.session && t.creds == s.creds && t.lock == None
            && t.reconnect == s.reconnect && |t.tasks| == |s.tasks| && t.tasks[i].pc == Done
            && (t.tasks[i].interrupted <==> s.tasks[i].interrupted || (raised && s.tasks[i].pc.AwaitAck?))
            && forall j | 0 <= j < |s.tasks| && j != i :: t.tasks[j] == s.tasks[j]
    ensures var t := Step(s, Shutdown);
            && t.closing && t.session == None && t.tasks == s.tasks && t.lock == s.lock && t.creds == s.creds
            && |t.sessions| == |s.sessions|
            && forall k | 0 <= k < |s.sessions| ::
                 t.sessions[k] == if s.session == Some(k) then s.sessions[k].(ready := false) else s.sessions[k]
  {
  }
}
