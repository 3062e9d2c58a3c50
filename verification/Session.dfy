/** Request matching of `LANLinkClient` in hub/session.py as interleaved steps: callers between their
    awaits, the one receive loop, and what the tunnel does. */
module Session {
  import opened Bytes

  datatype Future = Unset | Answered(frame: nat) | Broken | Abandoned

  datatype Outcome = Value(frame: nat) | ConnectionLost | SendFailed | Interrupted | Duplicate

  datatype Phase = Sending | Awaiting | Finished(outcome: Outcome)

  /** One `async_send_and_await`: its message's number, how many frames had arrived when it began,
      its future, and where it is. */
  datatype Call = Call(num: nat, since: nat, future: Future, phase: Phase)

  /** What became of a received frame. */
  datatype Fate = To(call: nat) | Dispatched

  /** `unused` are the numbers handed out by `next_seq` that no message bears yet. */
  datatype State = State(
    last: nat,
    unused: set<nat>,
    pending: map<nat, nat>,
    calls: seq<Call>,
    frames: seq<Option<nat>>,
    fates: seq<Fate>,
    listening: bool)

  const INITIAL := State(0, {}, map[], [], [], [], true)

  // ---------------------------------------------------------------- the steps

  function SetFuture(s: State, i: nat, f: Future): State
    requires i < |s.calls|
  {
    s.(calls := s.calls[i := s.calls[i].(future := f)])
  }

  /** Leaving the call: the `finally` frees the number. */
  function Leave(s: State, i: nat, o: Outcome): State
    requires i < |s.calls|
  {
    s.(calls := s.calls[i := s.calls[i].(phase := Finished(o))], pending := s.pending - {s.calls[i].num})
  }

  /** What awaiting a future that is done gives. */
  function OutcomeOf(f: Future): Outcome {
    match f
    case Answered(frame) => Value(frame)
    case Broken => ConnectionLost
    case _ => Interrupted
  }

  function Begin(s: State, num: nat): State {
    var t := s.(unused := s.unused - {num});
    if num in s.pending
    then t.(calls := s.calls + [Call(num, |s.frames|, Unset, Finished(Duplicate))])
    else t.(calls := s.calls + [Call(num, |s.frames|, Unset, Sending)], pending := s.pending[num := |s.calls|])
  }

  function Sent(s: State, i: nat, ok: bool): State {
    if i >= |s.calls| || s.calls[i].phase != Sending then s
    else if !ok then Leave(s, i, SendFailed)
    else if s.calls[i].future != Unset then Leave(s, i, OutcomeOf(s.calls[i].future))
    else s.(calls := s.calls[i := s.calls[i].(phase := Awaiting)])
  }

  /** The timeout or a cancellation reaches a caller that awaits its future. */
  function Expire(s: State, i: nat): State {
    if i >= |s.calls| || s.calls[i].phase != Awaiting || s.calls[i].future != Unset then s
    else SetFuture(s, i, Abandoned)
  }

  /** A caller whose future is done runs again; a timeout may still have overtaken the answer. */
  function Resume(s: State, i: nat, overtaken: bool): State {
    if i >= |s.calls| || s.calls[i].phase != Awaiting || s.calls[i].future == Unset then s
    else Leave(s, i, if overtaken then Interrupted else OutcomeOf(s.calls[i].future))
  }

  function BreakCalls(calls: seq<Call>, which: set<nat>, n: nat): (r: seq<Call>)
    requires n <= |calls|
    ensures |r| == n
    ensures forall i: nat | i < n ::
              r[i] == if i in which && calls[i].future == Unset then calls[i].(future := Broken) else calls[i]
  {
    if n == 0 then []
    else
      var call := calls[n - 1];
      BreakCalls(calls, which, n - 1)
        + [if n - 1 in which && call.future == Unset then call.(future := Broken) else call]
  }

  /** `_fail_pending`, after which the loop has ended. */
  function FailPending(s: State): State {
    s.(calls := BreakCalls(s.calls, s.pending.Values, |s.calls|), pending := map[], listening := false)
  }

  /** Whether a frame with this number finds a future to resolve. */
  predicate Claimed(s: State, num: Option<nat>) {
    num.Some? && num.value in s.pending
    && s.pending[num.value] < |s.calls| && s.calls[s.pending[num.value]].future == Unset
  }

  /** One turn of `listen`; a report that cannot be read breaks the loop. */
  function Receive(s: State, num: Option<nat>, faulty: bool): State {
    if !s.listening then s
    else
      var t := s.(frames := s.frames + [num]);
      if Claimed(s, num) then
        var i := s.pending[num.value];
        SetFuture(t.(pending := s.pending - {num.value}, fates := s.fates + [To(i)]), i, Answered(|s.frames|))
      else
        var u := t.(fates := s.fates + [Dispatched]);
        if faulty then FailPending(u) else u
  }

  datatype Action =
    | NextSeq
    | Request(num: nat)
    | SendDone(call: nat, ok: bool)
    | Timeout(call: nat)
    | Wake(call: nat, overtaken: bool)
    | Frame(bears: Option<nat>, faulty: bool)
    | Close
    | CancelListen

  function Step(s: State, a: Action): State {
    match a
    case NextSeq => s.(last := s.last + 1, unused := s.unused + {s.last + 1})
    case Request(num) => Begin(s, num)
    case SendDone(i, ok) => Sent(s, i, ok)
    case Timeout(i) => Expire(s, i)
    case Wake(i, overtaken) => Resume(s, i, overtaken)
    case Frame(bears, faulty) => Receive(s, bears, faulty)
    case Close => if s.listening then FailPending(s) else s
    case CancelListen => s.(listening := false)
  }

  function Reached(actions: seq<Action>): State
    decreases |actions|
  {
    if actions == [] then INITIAL
    else Step(Reached(actions[..|actions| - 1]), actions[|actions| - 1])
  }

  /** Callers keep their side: every message carries an unused number from `next_seq`. */
  predicate WellNumbered(actions: seq<Action>)
    decreases |actions|
  {
    actions == [] ||
    var before, a := actions[..|actions| - 1], actions[|actions| - 1];
    WellNumbered(before) && (a.Request? ==> a.num in Reached(before).unused)
  }

  // ---------------------------------------------------------------- what every run keeps

  predicate Waiting(s: State, i: nat) {
    i < |s.calls| && s.calls[i].future == Unset && !s.calls[i].phase.Finished?
  }

  predicate PendingHolds(s: State) {
    forall q | q in s.pending ::
      s.pending[q] < |s.calls| && s.calls[s.pending[q]].num == q && !s.calls[s.pending[q]].phase.Finished?
  }

  /** Whoever waits can be found by number. */
  ghost predicate Findable(s: State) {
    forall i: nat | Waiting(s, i) :: s.calls[i].num in s.pending && s.pending[s.calls[i].num] == i
  }

  predicate Numbered(s: State) {
    && (forall q | q in s.unused :: q <= s.last)
    && (forall i | 0 <= i < |s.calls| :: s.calls[i].num <= s.last && s.calls[i].num !in s.unused)
    && (forall i, j | 0 <= i < j < |s.calls| :: s.calls[i].num != s.calls[j].num)
  }

  /** A frame's fate and the futures agree. */
  predicate Matched(s: State) {
    && |s.fates| == |s.frames|
    && (forall i | 0 <= i < |s.calls| && s.calls[i].future.Answered? ::
          var f := s.calls[i].future.frame; f < |s.fates| && s.fates[f] == To(i))
    && (forall f | 0 <= f < |s.fates| && s.fates[f].To? ::
          var i := s.fates[f].call;
          && i < |s.calls| && s.calls[i].future == Answered(f)
          && s.frames[f] == Some(s.calls[i].num) && s.calls[i].since <= f)
    && (forall i | 0 <= i < |s.calls| :: s.calls[i].since <= |s.frames|)
  }

  predicate Honest(c: Call) {
    c.phase.Finished? ==>
      match c.phase.outcome
      case Value(f) => c.future == Answered(f)
      case ConnectionLost => c.future == Broken
      case Duplicate => false
      case _ => true
  }

  predicate AllHonest(s: State) {
    forall i | 0 <= i < |s.calls| :: Honest(s.calls[i])
  }

  ghost predicate Inv(s: State) {
    PendingHolds(s) && Findable(s) && Numbered(s) && Matched(s) && AllHonest(s)
  }

  lemma BeginKeeps(s: State, num: nat)
    requires Inv(s) && num in s.unused
    ensures Inv(Begin(s, num))
  {
    hide Matched, Honest;
    var t := Begin(s, num);
    assert forall i: nat | Waiting(t, i) :: Waiting(s, i) || i == |s.calls|;
    assert num !in s.pending;
    NewCall(s, t);
  }

  lemma NewCall(s: State, t: State)
    requires Matched(s) && AllHonest(s) && t.frames == s.frames && t.fates == s.fates
    requires |t.calls| == |s.calls| + 1 && t.calls[..|s.calls|] == s.calls
    requires var c := t.calls[|s.calls|];
             c.future == Unset && !c.phase.Finished? && c.since <= |s.frames|
    ensures Matched(t) && AllHonest(t)
  {
    assert forall i | 0 <= i < |s.calls| :: t.calls[i] == s.calls[i];
  }

  lemma LeaveKeeps(s: State, i: nat, o: Outcome)
    requires Inv(s) && i < |s.calls| && !s.calls[i].phase.Finished?
    requires Honest(s.calls[i].(phase := Finished(o)))
    ensures Inv(Leave(s, i, o))
  {
  }

  /** A future is resolved, or a caller moves on from sending to waiting. */
  lemma CallKeeps(s: State, i: nat, c: Call)
    requires Inv(s) && i < |s.calls| && !s.calls[i].phase.Finished? && !c.phase.Finished?
    requires c.num == s.calls[i].num && c.since == s.calls[i].since
    requires c.future == s.calls[i].future || (s.calls[i].future == Unset && !c.future.Answered?)
    ensures Inv(s.(calls := s.calls[i := c]))
  {
    var t := s.(calls := s.calls[i := c]);
    assert forall j: nat | Waiting(t, j) :: Waiting(s, j);
  }

  lemma FailKeeps(s: State)
    requires Inv(s)
    ensures Inv(FailPending(s))
    ensures forall i: nat :: !Waiting(FailPending(s), i)
  {
    var t := FailPending(s);
    forall i: nat ensures !Waiting(t, i) {
      if Waiting(s, i) {
        assert s.pending[s.calls[i].num] == i;
        assert i in s.pending.Values;
      }
    }
    assert forall i | 0 <= i < |t.calls| ::
        t.calls[i].num == s.calls[i].num && t.calls[i].phase == s.calls[i].phase;
    forall i | 0 <= i < |t.calls| ensures Honest(t.calls[i]) {
      assert Honest(s.calls[i]);
    }
  }

  lemma DispatchKeeps(s: State, num: Option<nat>)
    requires Inv(s)
    ensures Inv(s.(frames := s.frames + [num], fates := s.fates + [Dispatched]))
  {
  }

  lemma AnswerKeeps(s: State, num: nat)
    requires Inv(s) && Claimed(s, Some(num)) && s.listening
    ensures Inv(Receive(s, Some(num), false))
  {
    var t := Receive(s, Some(num), false);
    var i := s.pending[num];
    assert forall j: nat | Waiting(t, j) :: Waiting(s, j) && j != i;
    assert Matched(t) by {
      hide PendingHolds, Findable, Numbered;
      assert s.calls[i].num == num by { NumberOf(s, num); }
    }
    assert PendingHolds(t) && Numbered(t) && AllHonest(t) by { hide Matched, Findable; }
  }

  lemma NumberOf(s: State, num: nat)
    requires PendingHolds(s) && num in s.pending
    ensures s.calls[s.pending[num]].num == num
  {
  }

  lemma ReceiveKeeps(s: State, num: Option<nat>, faulty: bool)
    requires Inv(s)
    ensures Inv(Receive(s, num, faulty))
  {
    hide Inv, Claimed, FailPending;
    if s.listening {
      if Claimed(s, num) {
        ClaimedIsNumbered(s, num);
        AnswerKeeps(s, num.value);
      } else {
        DispatchKeeps(s, num);
        FailKeeps(s.(frames := s.frames + [num], fates := s.fates + [Dispatched]));
      }
    }
  }

  lemma ClaimedIsNumbered(s: State, num: Option<nat>)
    requires Claimed(s, num)
    ensures num.Some?
  {
  }

  lemma SentKeeps(s: State, i: nat, ok: bool)
    requires Inv(s)
    ensures Inv(Sent(s, i, ok))
  {
    hide PendingHolds, Findable, Numbered, Matched;
    if i < |s.calls| && s.calls[i].phase == Sending {
      if !ok {
        LeaveKeeps(s, i, SendFailed);
      } else if s.calls[i].future != Unset {
        LeaveKeeps(s, i, OutcomeOf(s.calls[i].future));
      } else {
        CallKeeps(s, i, s.calls[i].(phase := Awaiting));
      }
    }
  }

  lemma WakeKeeps(s: State, i: nat, overtaken: bool)
    requires Inv(s)
    ensures Inv(Resume(s, i, overtaken)) && Inv(Expire(s, i))
  {
    hide PendingHolds, Findable, Numbered, Matched;
    if i < |s.calls| && s.calls[i].phase == Awaiting {
      if s.calls[i].future == Unset {
        CallKeeps(s, i, s.calls[i].(future := Abandoned));
      } else {
        LeaveKeeps(s, i, if overtaken then Interrupted else OutcomeOf(s.calls[i].future));
      }
    }
  }

  /** A cancelled receive loop ends without failing anything. */
  lemma SilenceKeeps(s: State)
    requires Inv(s)
    ensures Inv(s.(listening := false))
  {
  }

  lemma NextSeqKeeps(s: State)
    requires Inv(s)
    ensures Inv(Step(s, NextSeq))
  {
  }

  lemma StepKeeps(s: State, a: Action)
    requires Inv(s) && (a.Request? ==> a.num in s.unused)
    ensures Inv(Step(s, a))
  {
    hide Inv, Begin, Sent, Expire, Resume, Receive, FailPending;
    match a
    case NextSeq => NextSeqKeeps(s);
    case Request(num) => BeginKeeps(s, num);
    case SendDone(i, ok) => SentKeeps(s, i, ok);
    case Timeout(i) => WakeKeeps(s, i, false);
    case Wake(i, overtaken) => WakeKeeps(s, i, overtaken);
    case Frame(bears, faulty) => ReceiveKeeps(s, bears, faulty);
    case Close => FailKeeps(s);
    case CancelListen => SilenceKeeps(s);
  }

  lemma InitialHolds()
    ensures Inv(INITIAL)
  {
  }

  lemma {:induction false} ReachedKeeps(actions: seq<Action>)
    requires WellNumbered(actions)
    ensures Inv(Reached(actions))
    decreases |actions|
  {
    hide Inv, Step;
    if actions == [] {
      InitialHolds();
    } else {
      ReachedKeeps(actions[..|actions| - 1]);
      StepKeeps(Reached(actions[..|actions| - 1]), actions[|actions| - 1]);
    }
  }

  // ---------------------------------------------------------------- what every run guarantees

  /** What is settled about a call: its number, its future once resolved, its outcome once left. */
  predicate Settled(s: State, t: State, i: nat) {
    i < |s.calls| ==>
      && i < |t.calls| && t.calls[i].num == s.calls[i].num
      && (s.calls[i].future != Unset ==> t.calls[i].future == s.calls[i].future)
      && (s.calls[i].phase.Finished? ==> t.calls[i].phase == s.calls[i].phase)
  }

  lemma StepSettles(s: State, a: Action, i: nat)
    ensures Settled(s, Step(s, a), i)
  {
  }

  /** Over any run and any continuation of it, well numbered or not: a future once resolved and a call
      once left never change again. */
  lemma {:induction false} CompletesOnce(actions: seq<Action>, more: seq<Action>, i: nat)
    ensures Settled(Reached(actions), Reached(actions + more), i)
    decreases |more|
  {
    hide Reached, Step;
    if more == [] {
      assert actions + more == actions;
    } else {
      var n := |more| - 1;
      CompletesOnce(actions, more[..n], i);
      ReachedNext(actions + more[..n], more[n]);
      assert actions + more == actions + more[..n] + [more[n]];
      StepSettles(Reached(actions + more[..n]), more[n], i);
    }
  }

  lemma ReachedNext(before: seq<Action>, a: Action)
    ensures Reached(before + [a]) == Step(Reached(before), a)
  {
    assert (before + [a])[..|before|] == before;
  }

  /** A call returns a frame only if that frame bears its number and came after the call began, and
      then no other call returns that frame, nor was it dispatched. */
  lemma ValueIsOwn(actions: seq<Action>, i: nat, f: nat)
    requires WellNumbered(actions) && i < |Reached(actions).calls|
    requires Reached(actions).calls[i].phase == Finished(Value(f))
    ensures var s := Reached(actions);
            && f < |s.frames| && s.frames[f] == Some(s.calls[i].num) && s.calls[i].since <= f
            && f < |s.fates| && s.fates[f] == To(i)
            && forall j: nat | j < |s.calls| && j != i :: s.calls[j].phase != Finished(Value(f))
  {
    hide Reached, WellNumbered;
    ReachedKeeps(actions);
    var s := Reached(actions);
    assert Honest(s.calls[i]);
    forall j: nat | j < |s.calls| && j != i ensures s.calls[j].phase != Finished(Value(f)) {
      assert Honest(s.calls[j]);
    }
  }

  /** The next frame answers a call exactly when a call with its number waits, and then that call;
      otherwise it is dispatched. */
  lemma FrameFate(actions: seq<Action>, num: Option<nat>, faulty: bool, i: nat)
    requires WellNumbered(actions) && Reached(actions).listening
    ensures var s := Reached(actions);
            var t := Step(s, Frame(num, faulty));
            && t.frames == s.frames + [num] && |t.fates| == |s.fates| + 1 == |t.frames|
            && (t.fates[|s.fates|] == To(i)
                <==> Waiting(s, i) && num == Some(s.calls[i].num))
            && (t.fates[|s.fates|] == To(i) ==> t.calls[i].future == Answered(|s.frames|))
            && (t.fates[|s.fates|] == Dispatched
                <==> forall j: nat | Waiting(s, j) :: num != Some(s.calls[j].num))
  {
    hide Reached, WellNumbered, Numbered, AllHonest;
    ReachedKeeps(actions);
  }

  /** The end of the stream fails every call that is still waiting. */
  lemma CloseFailsAll(actions: seq<Action>, i: nat)
    requires WellNumbered(actions) && Reached(actions).listening && i < |Reached(actions).calls|
    ensures var s := Reached(actions);
            var t := Step(s, Close);
            && !Waiting(t, i)
            && (Waiting(s, i) ==> t.calls[i].future == Broken)
            && (!Waiting(s, i) ==> t.calls[i] == s.calls[i])
  {
    hide Reached, WellNumbered, Inv;
    ReachedKeeps(actions);
    var s := Reached(actions);
    FailKeeps(s);
    OnlyWaitingFail(s, i);
  }

  lemma OnlyWaitingFail(s: State, i: nat)
    requires Inv(s) && i < |s.calls|
    ensures FailPending(s).calls[i] == if Waiting(s, i) then s.calls[i].(future := Broken) else s.calls[i]
  {
  }

  /** Whether a step ends the receive loop for all calls: the end of the stream, or a report that
      cannot be read, in a frame that answers no call. */
  ghost predicate Breaks(s: State, a: Action) {
    s.listening
    && (a == Close || (a.Frame? && a.faulty && forall j: nat | Waiting(s, j) :: a.bears != Some(s.calls[j].num)))
  }

  /** The only ways in which a waiting call's future is resolved, and in which the loop ends. */
  lemma ResolvedBy(actions: seq<Action>, a: Action, i: nat)
    requires WellNumbered(actions) && Waiting(Reached(actions), i)
    ensures var s, t := Reached(actions), Step(Reached(actions), a);
            && i < |t.calls|
            && t.calls[i].future == (if a.Frame? && s.listening && a.bears == Some(s.calls[i].num)
                                     then Answered(|s.frames|)
                                     else if a == Timeout(i) && s.calls[i].phase == Awaiting then Abandoned
                                     else if Breaks(s, a) then Broken
                                     else Unset)
            && t.listening == (s.listening && a != CancelListen && !Breaks(s, a))
  {
    hide Reached, WellNumbered, Inv;
    var s := Reached(actions);
    ReachedKeeps(actions);
    if a.Frame? && s.listening {
      ClaimedIff(s, a.bears);
      var u := s.(frames := s.frames + [a.bears], fates := s.fates + [Dispatched]);
      DispatchKeeps(s, a.bears);
      OnlyWaitingFail(u, i);
      if Claimed(s, a.bears) { AnswersOwn(s, a.bears, i); }
    } else if a == Close && s.listening {
      OnlyWaitingFail(s, i);
    }
  }

  lemma ClaimedIff(s: State, num: Option<nat>)
    requires Inv(s)
    ensures Claimed(s, num) <==> exists j: nat :: Waiting(s, j) && num == Some(s.calls[j].num)
  {
    if Claimed(s, num) { assert Waiting(s, s.pending[num.value]); }
  }

  lemma AnswersOwn(s: State, num: Option<nat>, i: nat)
    requires Inv(s) && Waiting(s, i) && Claimed(s, num)
    ensures s.pending[num.value] == i <==> num == Some(s.calls[i].num)
  {
  }

  /** When a call leaves, and with what: a failed send, an interruption, or what its future holds. Its
      number is free again then. */
  lemma LeavesWith(s: State, a: Action, i: nat)
    requires i < |s.calls| && !s.calls[i].phase.Finished?
    ensures var c, t := s.calls[i], Step(s, a);
            && i < |t.calls|
            && (t.calls[i].phase.Finished?
                <==> || (c.phase == Sending && a == SendDone(i, false))
                     || (c.phase == Sending && a == SendDone(i, true) && c.future != Unset)
                     || (c.phase == Awaiting && a.Wake? && a.call == i && c.future != Unset))
            && (t.calls[i].phase.Finished? ==>
                  && c.num !in t.pending
                  && t.calls[i].phase.outcome
                     == if a.SendDone? && !a.ok then SendFailed
                        else if a.Wake? && a.overtaken then Interrupted
                        else match c.future
                             case Answered(f) => Value(f)
                             case Broken => ConnectionLost
                             case _ => Interrupted)
  {
  }

  /** The next thing that happens to a call whose future is done, if nothing goes wrong. */
  function Departure(c: Call, i: nat): Action {
    if c.phase == Sending then SendDone(i, true) else Wake(i, false)
  }

  /** A waiting call to which a frame with its number comes returns that frame when it leaves, at any
      later time, whether the frame came during its send or after, unless its send fails or a
      timeout or a cancellation overtakes the answer. */
  lemma ReturnsItsFrame(actions: seq<Action>, more: seq<Action>, faulty: bool, i: nat)
    requires WellNumbered(actions) && Reached(actions).listening && Waiting(Reached(actions), i)
    ensures var s := Reached(actions);
            var t := Reached(actions + [Frame(Some(s.calls[i].num), faulty)] + more);
            && i < |t.calls| && t.calls[i].future == Answered(|s.frames|)
            && (!t.calls[i].phase.Finished? ==>
                  var u := Step(t, Departure(t.calls[i], i));
                  i < |u.calls| && u.calls[i].phase == Finished(Value(|s.frames|)))
  {
    hide Reached, Step, WellNumbered;
    var s := Reached(actions);
    var a := Frame(Some(s.calls[i].num), faulty);
    FrameFate(actions, Some(s.calls[i].num), faulty, i);
    StepSettles(s, a, i);
    ReachedNext(actions, a);
    CompletesOnce(actions + [a], more, i);
    var t := Reached(actions + [a] + more);
    if !t.calls[i].phase.Finished? { LeavesWith(t, Departure(t.calls[i], i), i); }
  }

  /** A call that waits when the stream ends leaves with the connection error, at any later time. */
  lemma LosesConnection(actions: seq<Action>, more: seq<Action>, i: nat)
    requires WellNumbered(actions) && Reached(actions).listening && Waiting(Reached(actions), i)
    ensures var t := Reached(actions + [Close] + more);
            && i < |t.calls| && t.calls[i].future == Broken
            && (!t.calls[i].phase.Finished? ==>
                  var u := Step(t, Departure(t.calls[i], i));
                  i < |u.calls| && u.calls[i].phase == Finished(ConnectionLost))
  {
    hide Reached, Step, WellNumbered;
    CloseFailsAll(actions, i);
    StepSettles(Reached(actions), Close, i);
    ReachedNext(actions, Close);
    CompletesOnce(actions + [Close], more, i);
    var t := Reached(actions + [Close] + more);
    if !t.calls[i].phase.Finished? { LeavesWith(t, Departure(t.calls[i], i), i); }
  }

  /** The keepalive's number, which its acknowledgement bears too. */
  const KEEPALIVE: nat := 1

  /** An acknowledgement of a keepalive answers a call exactly when the call that was given number 1
      still waits: once that one (the check-in, which is the first to ask for a number) is over, an
      acknowledgement is never taken for the answer to any request. */
  lemma KeepaliveAck(actions: seq<Action>, checkin: nat, i: nat)
    requires WellNumbered(actions) && Reached(actions).listening
    requires checkin < |Reached(actions).calls| && Reached(actions).calls[checkin].num == KEEPALIVE
    ensures var s := Reached(actions);
            var t := Step(s, Frame(Some(KEEPALIVE), false));
            && |t.fates| == |s.fates| + 1
            && (t.fates[|s.fates|] == To(i) <==> i == checkin && Waiting(s, checkin))
            && (t.fates[|s.fates|] == Dispatched <==> !Waiting(s, checkin))
  {
    hide Reached, WellNumbered, Step, PendingHolds, Findable, Matched, AllHonest;
    var s := Reached(actions);
    ReachedKeeps(actions);
    FrameFate(actions, Some(KEEPALIVE), false, i);
    FrameFate(actions, Some(KEEPALIVE), false, checkin);
    OneNumberEach(s, checkin);
  }

  lemma OneNumberEach(s: State, i: nat)
    requires Numbered(s) && i < |s.calls|
    ensures forall j: nat | j < |s.calls| && s.calls[j].num == s.calls[i].num :: j == i
  {
  }

  /** The check-in does receive a keepalive's acknowledgement when that comes first. */
  lemma CheckinTakesAck()
    ensures WellNumbered([NextSeq, Request(1), SendDone(0, true), Frame(Some(KEEPALIVE), false), Wake(0, false)])
    ensures Reached([NextSeq, Request(1), SendDone(0, true), Frame(Some(KEEPALIVE), false), Wake(0, false)])
              .calls == [Call(1, 0, Answered(0), Finished(Value(0)))]
  {
    hide Reached, WellNumbered;
    var a1 := [NextSeq];
    var a2 := a1 + [Request(1)];
    var a3 := a2 + [SendDone(0, true)];
    var a4 := a3 + [Frame(Some(KEEPALIVE), false)];
    NothingReached();
    RunNext([], NextSeq);
    assert [] + [NextSeq] == a1;
    RunNext(a1, Request(1));
    assert Reached(a2) == State(1, {}, map[1 := 0], [Call(1, 0, Unset, Sending)], [], [], true);
    RunNext(a2, SendDone(0, true));
    assert Reached(a3) == Reached(a2).(calls := [Call(1, 0, Unset, Awaiting)]);
    RunNext(a3, Frame(Some(KEEPALIVE), false));
    assert Reached(a4).calls == [Call(1, 0, Answered(0), Awaiting)];
    RunNext(a4, Wake(0, false));
    assert a4 + [Wake(0, false)]
        == [NextSeq, Request(1), SendDone(0, true), Frame(Some(KEEPALIVE), false), Wake(0, false)];
  }

  lemma NothingReached()
    ensures Reached([]) == INITIAL && WellNumbered([])
  {
  }

  lemma RunNext(before: seq<Action>, a: Action)
    ensures Reached(before + [a]) == Step(Reached(before), a)
    ensures WellNumbered(before + [a])
       <==> WellNumbered(before) && (a.Request? ==> a.num in Reached(before).unused)
  {
    assert (before + [a])[..|before|] == before;
  }

  // ---------------------------------------------------------------- the class

  class LANLinkClient {
    var last: nat
    var pending: map<nat, nat>
    /** The calls with their futures, which the event loop keeps. */
    var calls: seq<Call>
    var listening: bool
    var frames: seq<Option<nat>>
    ghost var unused: set<nat>
    ghost var fates: seq<Fate>

    ghost function View(): State
      reads this
    {
      State(last, unused, pending, calls, frames, fates, listening)
    }

    constructor ()
      ensures View() == INITIAL && Inv(View())
    {
      last, pending, calls, listening, frames := 0, map[], [], true, [];
      unused, fates := {}, [];
    }

    /** `next_seq`. */
    method AllocateSeq() returns (num: nat)
      requires Inv(View())
      modifies this`last, this`unused
      ensures View() == Step(old(View()), NextSeq) && Inv(View())
      ensures num in View().unused && num !in old(View().unused)
    {
      StepKeeps(View(), NextSeq);
      last := last + 1;
      unused := unused + {last};
      num := last;
    }

    /** `async_send_and_await` up to the await of the tunnel's `send`. */
    method SendAndAwait(num: nat) returns (r: Result<nat, string>)
      modifies this
      ensures View() == Step(old(View()), Request(num))
      ensures r == if num in old(pending) then Err("duplicate seq") else Ok(|old(calls)|)
    {
      unused := unused - {num};
      if num in pending {
        calls := calls + [Call(num, |frames|, Unset, Finished(Duplicate))];
        return Err("duplicate seq");
      }
      pending := pending[num := |calls|];
      calls := calls + [Call(num, |frames|, Unset, Sending)];
      r := Ok(|calls| - 1);
    }

    /** The `finally`. */
    method Drop(i: nat, o: Outcome)
      requires i < |calls|
      modifies this`pending, this`calls
      ensures View() == Leave(old(View()), i, o)
    {
      pending := pending - {calls[i].num};
      calls := calls[i := calls[i].(phase := Finished(o))];
    }

    /** The tunnel's `send` is done with; the future may be done by now. */
    method AfterSend(i: nat, ok: bool)
      requires Inv(View()) && i < |calls| && calls[i].phase == Sending
      modifies this`pending, this`calls
      ensures View() == Step(old(View()), SendDone(i, ok)) && Inv(View())
    {
      hide Inv;
      StepKeeps(View(), SendDone(i, ok));
      if !ok {
        Drop(i, SendFailed);
      } else if calls[i].future != Unset {
        Drop(i, OutcomeOf(calls[i].future));
      } else {
        calls := calls[i := calls[i].(phase := Awaiting)];
      }
    }

    /** `wait_for` returns or raises. */
    method AfterWait(i: nat, overtaken: bool)
      requires Inv(View()) && i < |calls| && calls[i].phase == Awaiting && calls[i].future != Unset
      modifies this`pending, this`calls
      ensures View() == Step(old(View()), Wake(i, overtaken)) && Inv(View())
    {
      hide Inv;
      StepKeeps(View(), Wake(i, overtaken));
      Drop(i, if overtaken then Interrupted else OutcomeOf(calls[i].future));
    }

    /** One turn of `listen`: the future of that number, unless it is done, or the callbacks. */
    method Listen(num: Option<nat>, faulty: bool)
      requires Inv(View()) && listening
      modifies this
      ensures View() == Step(old(View()), Frame(num, faulty)) && Inv(View())
    {
      hide Inv, BreakCalls;
      StepKeeps(View(), Frame(num, faulty));
      frames := frames + [num];
      if num.Some? && num.value in pending {
        var i := pending[num.value];
        if i < |calls| && calls[i].future == Unset {
          pending := pending - {num.value};
          calls := calls[i := calls[i].(future := Answered(|frames| - 1))];
          fates := fates + [To(i)];
          return;
        }
      }
      fates := fates + [Dispatched];
      if faulty { FailAll(); }
    }

    /** `_fail_pending`. */
    method FailAll()
      modifies this`pending, this`calls, this`listening
      ensures View() == FailPending(old(View()))
    {
      hide Broke, BreakCalls;
      ghost var before := calls;
      var waiting := pending;
      var left := waiting.Keys;
      pending, listening := map[], false;
      NoneBroke(before, waiting);
      assert waiting.Keys - left == {};
      while left != {}
        invariant left <= waiting.Keys && Broke(before, calls, waiting, waiting.Keys - left)
        invariant pending == map[] && !listening
        decreases |left|
      {
        var q :| q in left;
        BrokeOne(before, calls, waiting, waiting.Keys - left, q);
        assert waiting.Keys - (left - {q}) == (waiting.Keys - left) + {q};
        left := left - {q};
        var i := waiting[q];
        if i < |calls| && calls[i].future == Unset {
          calls := calls[i := calls[i].(future := Broken)];
        }
      }
      assert waiting.Keys - left == waiting.Keys;
      AllBroke(before, calls, waiting);
    }
  }

  /** The futures behind some numbers have been broken, the other calls are as before. */
  predicate Broke(before: seq<Call>, calls: seq<Call>, waiting: map<nat, nat>, numbers: set<nat>) {
    |calls| == |before|
    && forall i | 0 <= i < |calls| ::
         calls[i] == if before[i].future == Unset && (exists q | q in numbers :: q in waiting && waiting[q] == i)
                     then before[i].(future := Broken) else before[i]
  }

  lemma NoneBroke(calls: seq<Call>, waiting: map<nat, nat>)
    ensures Broke(calls, calls, waiting, {})
  {
  }

  lemma BrokeOne(before: seq<Call>, calls: seq<Call>, waiting: map<nat, nat>, numbers: set<nat>, q: nat)
    requires Broke(before, calls, waiting, numbers) && q in waiting
    ensures var i := waiting[q];
            var next := if i < |calls| && calls[i].future == Unset
                        then calls[i := calls[i].(future := Broken)] else calls;
            Broke(before, next, waiting, numbers + {q})
  {
  }

  lemma AllBroke(before: seq<Call>, calls: seq<Call>, waiting: map<nat, nat>)
    requires Broke(before, calls, waiting, waiting.Keys)
    ensures calls == BreakCalls(before, waiting.Values, |before|)
  {
  }
}
