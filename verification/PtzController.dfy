/** The warm-session controller of ptz/controller.py, interleaved at every await: commands, the eager
    reconnect and the idle teardown, each of which holds the lock from its first step to its last. */
module PtzController {
  import opened Bytes

  datatype Kind = Command(recycle: bool) | Eager | Idle

  /** Where a task waits; `first` says that the credentials have not been renewed yet. */
  datatype Pc =
    | Queued
    | Bootstrap(first: bool)
    | Connecting(first: bool)
    | AuthReply(session: nat, first: bool)
    | Rejected(first: bool)
    | AwaitAck(session: nat)
    | Discarding
    | Done

  /** `interrupted`: an exception or a cancellation met the task between its command and what
      follows the acknowledgement. */
  datatype Task = Task(kind: Kind, pc: Pc, interrupted: bool)

  datatype Ioctl = Auth | Sent(task: nat, recycle: bool)

  const AUTH_REPLY_IOTYPE: nat := 4097

  /** What `recv_ioctl` returned. */
  datatype Reply = Silence | Reply(iotype: nat, code: Option<int>)

  predicate Accepts(r: Reply) {
    r.Reply? && r.iotype == AUTH_REPLY_IOTYPE && r.code == Some(0)
  }

  /** Every session ever connected, with the reply to its AUTH and the IOCTLs sent on it. */
  datatype Session = Session(ready: bool, authReply: Option<Reply>, sent: seq<Ioctl>) {
    predicate Accepted() { authReply.Some? && Accepts(authReply.value) }
  }

  datatype State = State(
    creds: bool,
    session: Option<nat>,
    lock: Option<nat>,
    closing: bool,
    reconnect: Option<nat>,
    tasks: seq<Task>,
    sessions: seq<Session>)

  const INITIAL := State(false, None, None, false, None, [], [])

  // ---------------------------------------------------------------- pieces of a task

  function Goto(s: State, i: nat, pc: Pc): State
    requires i < |s.tasks|
  {
    s.(tasks := s.tasks[i := s.tasks[i].(pc := pc)])
  }

  /** The task is over and leaves the lock. */
  function End(s: State, i: nat): State
    requires i < |s.tasks|
  {
    Goto(s, i, Done).(lock := None)
  }

  function Close(s: State, k: nat): State {
    if k < |s.sessions| then s.(sessions := s.sessions[k := s.sessions[k].(ready := false)]) else s
  }

  predicate Warm(s: State) {
    s.session.Some? && s.session.value < |s.sessions| && s.sessions[s.session.value].ready
  }

  /** With a session at hand: a command is sent, unless sending raises; the reconnect is over. */
  function Use(s: State, i: nat, k: nat, sends: bool): State
    requires i < |s.tasks|
  {
    match s.tasks[i].kind
    case Command(recycle) =>
      if !sends || k >= |s.sessions| then End(s, i)
      else
        var session := s.sessions[k].(sent := s.sessions[k].sent + [Sent(i, recycle)]);
        Goto(s.(sessions := s.sessions[k := session]), i, AwaitAck(k))
    case _ => End(s, i)
  }

  /** `_ensure_session` up to its first await. */
  function Ensured(s: State, i: nat, sends: bool): State
    requires i < |s.tasks|
  {
    if Warm(s) then Use(s, i, s.session.value, sends)
    else Goto(s, i, if s.creds then Connecting(true) else Bootstrap(true))
  }

  /** `_discard_session`, or the idle teardown, up to its await of the session's `close`. */
  function Discard(s: State, i: nat): State
    requires i < |s.tasks|
  {
    if s.session.Some? then Goto(Close(s, s.session.value), i, Discarding) else After(s, i)
  }

  /** What follows: after a preset the session is warmed up again in the background. */
  function After(s: State, i: nat): State
    requires i < |s.tasks|
  {
    var t := End(s, i);
    if s.tasks[i].kind.Command? && !s.closing && (s.reconnect.None? || Over(s, s.reconnect.value))
    then t.(reconnect := Some(|s.tasks|), tasks := t.tasks + [Task(Eager, Queued, false)])
    else t
  }

  predicate Over(s: State, i: nat) {
    i < |s.tasks| ==> s.tasks[i].pc == Done
  }

  // ---------------------------------------------------------------- the steps

  /** A queued task gets the free lock and runs to its first await. */
  function Acquire(s: State, i: nat, sends: bool): State {
    if i >= |s.tasks| || s.tasks[i].pc != Queued || s.lock.Some? then s
    else
      var t := s.(lock := Some(i));
      match s.tasks[i].kind
      case Command(_) => Ensured(t, i, sends)
      case Eager => if s.closing || s.session.Some? then End(t, i) else Ensured(t, i, sends)
      case Idle => Discard(t, i)
  }

  /** A waiting task runs on, unless its await raised an exception or was cancelled. */
  function Resume(s: State, i: nat, reply: Reply, raised: bool, sends: bool): State {
    if i >= |s.tasks| || s.tasks[i].pc == Queued || s.tasks[i].pc == Done then s
    else if raised then
      var t := if s.tasks[i].pc.AwaitAck? then s.(tasks := s.tasks[i := s.tasks[i].(interrupted := true)]) else s;
      End(t, i)
    else
      match s.tasks[i].pc
      case Bootstrap(first) => Goto(s.(creds := true), i, Connecting(first))
      case Connecting(first) =>
        Goto(s.(sessions := s.sessions + [Session(true, None, [Auth])]), i, AuthReply(|s.sessions|, first))
      case AuthReply(k, first) =>
        if k >= |s.sessions| then s
        else
          var t := s.(sessions := s.sessions[k := s.sessions[k].(authReply := Some(reply))]);
          if Accepts(reply) then Use(t.(session := Some(k)), i, k, sends)
          else Goto(Close(t, k), i, Rejected(first))
      case Rejected(first) =>
        if first then Goto(s.(creds := false), i, Bootstrap(false)) else End(s, i)
      case AwaitAck(_) =>
        if s.tasks[i].kind.Command? && s.tasks[i].kind.recycle then Discard(s, i) else End(s, i)
      case Discarding => After(s.(session := None), i)
      case _ => s
  }

  datatype Action =
    | Submit(recycle: bool)
    | IdleFires
    | TakeLock(task: nat, sends: bool)
    | Run(task: nat, reply: Reply, raised: bool, sends: bool)
    | GiveUp(task: nat)
    | Shutdown

  function Step(s: State, a: Action): State {
    match a
    case Submit(recycle) => s.(tasks := s.tasks + [Task(Command(recycle), Queued, false)])
    case IdleFires => if s.closing then s else s.(tasks := s.tasks + [Task(Idle, Queued, false)])
    case TakeLock(i, sends) => Acquire(s, i, sends)
    case Run(i, reply, raised, sends) => Resume(s, i, reply, raised, sends)
    case GiveUp(i) => if i < |s.tasks| && s.tasks[i].pc == Queued then Goto(s, i, Done) else s
    case Shutdown => (if s.session.Some? then Close(s, s.session.value) else s).(closing := true, session := None)
  }

  function Reached(actions: seq<Action>): State
    decreases |actions|
  {
    if actions == [] then INITIAL
    else Step(Reached(actions[..|actions| - 1]), actions[|actions| - 1])
  }

  // ---------------------------------------------------------------- what every run keeps

  predicate Holds(t: Task) {
    t.pc != Queued && t.pc != Done
  }

  /** Whoever is past the queue has the lock, and the lock has such a holder. */
  predicate Exclusive(s: State) {
    && (forall i: nat | i < |s.tasks| && Holds(s.tasks[i]) :: s.lock == Some(i))
    && (s.lock.Some? ==> s.lock.value < |s.tasks| && Holds(s.tasks[s.lock.value]))
  }

  /** The current session, and the one a task waits on, are what the task thinks. */
  predicate Sane(s: State) {
    && (s.session.Some? ==> s.session.value < |s.sessions| && s.sessions[s.session.value].Accepted())
    && (forall i: nat | i < |s.tasks| && s.tasks[i].pc.AuthReply? ::
          s.tasks[i].pc.session < |s.sessions| && s.sessions[s.tasks[i].pc.session].sent == [Auth]
          && s.session != Some(s.tasks[i].pc.session))
    && (forall i: nat | i < |s.tasks| && s.tasks[i].pc.AwaitAck? ::
          var k := s.tasks[i].pc.session;
          k < |s.sessions| && |s.sessions[k].sent| > 1 && (s.session == Some(k) || !s.sessions[k].ready))
  }

  /** AUTH comes first and once, and then only commands, on accepted sessions. */
  predicate AuthFirst(session: Session) {
    && session.sent != [] && session.sent[0] == Auth
    && (forall p | 1 <= p < |session.sent| :: session.sent[p].Sent?)
    && (|session.sent| > 1 ==> session.Accepted())
  }

  predicate AllAuthFirst(s: State) {
    forall k | 0 <= k < |s.sessions| :: AuthFirst(s.sessions[k])
  }

  /** A recall that may still be followed: its task waits for the acknowledgement, was interrupted
      there, or the session is closed. */
  predicate RecallHandled(s: State, k: nat)
    requires k < |s.sessions|
  {
    var sent := s.sessions[k].sent;
    sent != [] && sent[|sent| - 1].Sent? && sent[|sent| - 1].recycle ==>
      var j := sent[|sent| - 1].task;
      j < |s.tasks| && s.tasks[j].kind == Command(true)
      && (!s.sessions[k].ready || s.tasks[j].interrupted || s.tasks[j].pc == AwaitAck(k))
  }

  predicate RecallsLast(s: State) {
    && (forall k: nat | k < |s.sessions| :: RecallHandled(s, k))
    && (forall k: nat, p: nat | k < |s.sessions| && p + 1 < |s.sessions[k].sent|
          && s.sessions[k].sent[p].Sent? && s.sessions[k].sent[p].recycle ::
          var j := s.sessions[k].sent[p].task; j < |s.tasks| && s.tasks[j].interrupted)
  }

  predicate OneReconnect(s: State) {
    forall i: nat | i < |s.tasks| && s.tasks[i].kind == Eager && s.tasks[i].pc != Done :: s.reconnect == Some(i)
  }

  predicate Inv(s: State) {
    Exclusive(s) && Sane(s) && AllAuthFirst(s) && RecallsLast(s) && OneReconnect(s)
  }

  /** While task `i` runs it has the lock, and no other task is past the queue. */
  predicate Acting(s: State, i: nat) {
    && i < |s.tasks| && s.lock == Some(i) && s.tasks[i].pc != Done
    && (forall j: nat | j < |s.tasks| && j != i :: !Holds(s.tasks[j]))
    && Sane(s) && AllAuthFirst(s) && RecallsLast(s) && OneReconnect(s)
  }

  lemma HolderActs(s: State, i: nat)
    requires Inv(s) && i < |s.tasks| && Holds(s.tasks[i])
    ensures Acting(s, i)
  {
  }

  lemma AcquirerActs(s: State, i: nat)
    requires Inv(s) && i < |s.tasks| && s.tasks[i].pc == Queued && s.lock == None
    ensures Acting(s.(lock := Some(i)), i)
  {
    hide AuthFirst, RecallHandled;
    var t := s.(lock := Some(i));
    assert forall k: nat | k < |s.sessions| :: RecallHandled(s, k) == RecallHandled(t, k) by { SameRecalls(s, t); }
  }

  lemma SameRecalls(s: State, t: State)
    requires s.tasks == t.tasks && s.sessions == t.sessions
    ensures forall k: nat | k < |s.sessions| :: RecallHandled(s, k) == RecallHandled(t, k)
  {
  }

  /** A preset that has been sent and not interrupted goes on to discard its session. */
  predicate MustDiscard(t: Task) {
    t.kind == Command(true) && t.pc.AwaitAck? && !t.interrupted
  }

  /** The acting task moves on without touching a session. */
  lemma GotoKeeps(s: State, i: nat, pc: Pc)
    requires Acting(s, i) && !MustDiscard(s.tasks[i]) && pc != Queued && pc != Done
    requires !pc.AwaitAck?
    requires pc.AuthReply? ==>
               pc.session < |s.sessions| && s.sessions[pc.session].sent == [Auth] && s.session != Some(pc.session)
    ensures Inv(Goto(s, i, pc))
  {
    hide AuthFirst;
    var t := Goto(s, i, pc);
    forall k: nat | k < |t.sessions| ensures RecallHandled(t, k) {
      assert RecallHandled(s, k);
    }
  }

  lemma EndKeeps(s: State, i: nat)
    requires Acting(s, i) && !MustDiscard(s.tasks[i])
    ensures Inv(End(s, i))
  {
    hide AuthFirst;
    var t := End(s, i);
    forall k: nat | k < |t.sessions| ensures RecallHandled(t, k) {
      assert RecallHandled(s, k);
    }
  }

  lemma NewTaskKeeps(s: State, kind: Kind)
    requires Inv(s) && (kind == Eager ==> s.reconnect.None? || Over(s, s.reconnect.value))
    ensures var t := s.(tasks := s.tasks + [Task(kind, Queued, false)]);
            Inv(if kind == Eager then t.(reconnect := Some(|s.tasks|)) else t)
  {
    hide AuthFirst;
    var u := s.(tasks := s.tasks + [Task(kind, Queued, false)]);
    var t := if kind == Eager then u.(reconnect := Some(|s.tasks|)) else u;
    forall k: nat | k < |t.sessions| ensures RecallHandled(t, k) {
      assert RecallHandled(s, k);
    }
  }

  lemma AfterKeeps(s: State, i: nat)
    requires Acting(s, i) && !MustDiscard(s.tasks[i])
    ensures Inv(After(s, i))
  {
    hide Exclusive, Sane, AllAuthFirst, RecallsLast, OneReconnect;
    EndKeeps(s, i);
    var t := End(s, i);
    if s.tasks[i].kind.Command? && !s.closing && (s.reconnect.None? || Over(s, s.reconnect.value)) {
      NewTaskKeeps(t, Eager);
    }
  }

  /** Closing a session is always safe. */
  lemma CloseKeeps(s: State, i: nat, k: nat)
    requires Acting(s, i)
    ensures Acting(Close(s, k), i)
    ensures k < |s.sessions| ==> !Close(s, k).sessions[k].ready && Close(s, k).sessions[k].sent == s.sessions[k].sent
  {
    hide AuthFirst;
    var t := Close(s, k);
    SameSent(s, t);
    forall j: nat | j < |t.sessions| ensures RecallHandled(t, j) {
      assert RecallHandled(s, j);
    }
  }

  /** AUTH stays first where nothing is sent and no reply to a session in use changes. */
  lemma SameSent(s: State, t: State)
    requires AllAuthFirst(s) && |s.sessions| == |t.sessions|
    requires forall j | 0 <= j < |s.sessions| ::
               t.sessions[j].sent == s.sessions[j].sent
               && (t.sessions[j].authReply == s.sessions[j].authReply || s.sessions[j].sent == [Auth])
    ensures AllAuthFirst(t)
  {
    forall j | 0 <= j < |t.sessions| ensures AuthFirst(t.sessions[j]) {
      assert AuthFirst(s.sessions[j]);
    }
  }

  /** The discard: the session that a preset was recalled on is closed before the task moves on. */
  lemma DiscardKeeps(s: State, i: nat)
    requires Acting(s, i)
    ensures Inv(Discard(s, i))
  {
    hide AuthFirst;
    var t := if s.session.Some? then Close(s, s.session.value) else s;
    if s.session.Some? { CloseKeeps(s, i, s.session.value); }
    DiscardedMoves(t, i, Discarding);
    DiscardedMoves(t, i, Done);
    if s.session.None? && s.tasks[i].kind.Command? && !s.closing && (s.reconnect.None? || Over(s, s.reconnect.value)) {
      NewTaskKeeps(End(s, i), Eager);
    }
  }

  /** Once no session that the task may have recalled a preset on is ready, it may move on. */
  lemma DiscardedMoves(s: State, i: nat, pc: Pc)
    requires Acting(s, i) && (pc == Discarding || pc == Done)
    requires s.tasks[i].pc.AwaitAck? ==> !s.sessions[s.tasks[i].pc.session].ready
    ensures Inv(Goto(s, i, pc).(lock := if pc == Done then None else Some(i)))
  {
    hide AuthFirst;
    var t := Goto(s, i, pc).(lock := if pc == Done then None else Some(i));
    forall k: nat | k < |t.sessions| ensures RecallHandled(t, k) {
      assert RecallHandled(s, k);
    }
  }

  /** A new session, with its AUTH sent. */
  lemma ConnectKeeps(s: State, i: nat, first: bool)
    requires Acting(s, i) && !MustDiscard(s.tasks[i])
    ensures Inv(Goto(s.(sessions := s.sessions + [Session(true, None, [Auth])]), i, AuthReply(|s.sessions|, first)))
  {
    var t := s.(sessions := s.sessions + [Session(true, None, [Auth])]);
    assert forall k: nat | k < |s.sessions| :: t.sessions[k] == s.sessions[k];
    forall k: nat | k < |t.sessions| ensures RecallHandled(t, k) {
      if k < |s.sessions| { assert RecallHandled(s, k); }
    }
    GotoKeeps(t, i, AuthReply(|s.sessions|, first));
  }

  /** The reply to AUTH is noted. */
  lemma ReplyKeeps(s: State, i: nat, k: nat, reply: Reply)
    requires Acting(s, i) && k < |s.sessions| && s.sessions[k].sent == [Auth]
    requires s.tasks[i].pc.AuthReply? && s.tasks[i].pc.session == k
    ensures Acting(s.(sessions := s.sessions[k := s.sessions[k].(authReply := Some(reply))]), i)
  {
    hide AuthFirst;
    var t := s.(sessions := s.sessions[k := s.sessions[k].(authReply := Some(reply))]);
    SameSent(s, t);
    forall j: nat | j < |t.sessions| ensures RecallHandled(t, j) {
      assert RecallHandled(s, j);
    }
  }

  /** An accepted session becomes the current one. */
  lemma AcceptKeeps(s: State, i: nat, k: nat)
    requires Acting(s, i) && k < |s.sessions| && s.sessions[k].Accepted() && s.tasks[i].pc.AuthReply?
    ensures Acting(Goto(s.(session := Some(k)), i, Connecting(true)), i)
  {
    hide AuthFirst;
    var t := Goto(s.(session := Some(k)), i, Connecting(true));
    SameSent(s, t);
    forall j: nat | j < |t.sessions| ensures RecallHandled(t, j) {
      assert RecallHandled(s, j);
    }
  }

  /** A command goes out on a ready session, on which no preset can be under way. */
  lemma UseKeeps(s: State, i: nat, k: nat, sends: bool)
    requires Acting(s, i) && !s.tasks[i].pc.AwaitAck? && s.session == Some(k)
    requires s.sessions[k].ready || s.sessions[k].sent == [Auth]
    ensures Inv(Use(s, i, k, sends))
  {
    hide AuthFirst, RecallsLast;
    if s.tasks[i].kind.Command? && sends {
      SomethingSent(s, k);
      SentKeepsAuth(s, i, k);
      SentKeepsRecalls(s, i, k);
    } else {
      EndKeeps(s, i);
    }
  }

  lemma SomethingSent(s: State, k: nat)
    requires AllAuthFirst(s) && k < |s.sessions|
    ensures s.sessions[k].sent != []
  {
    assert AuthFirst(s.sessions[k]);
  }

  lemma SentKeepsRecalls(s: State, i: nat, k: nat)
    requires RecallsLast(s) && i < |s.tasks| && k < |s.sessions| && s.tasks[i].kind.Command?
    requires !s.tasks[i].pc.AwaitAck? && forall j: nat | j < |s.tasks| && j != i :: !Holds(s.tasks[j])
    requires s.sessions[k].ready || s.sessions[k].sent == [Auth]
    ensures RecallsLast(Use(s, i, k, true))
  {
    var t := Use(s, i, k, true);
    assert RecallHandled(s, k);
    forall j: nat | j < |t.sessions| ensures RecallHandled(t, j) {
      assert RecallHandled(s, j);
    }
  }

  lemma SentKeepsAuth(s: State, i: nat, k: nat)
    requires AllAuthFirst(s) && Sane(s) && s.session == Some(k) && i < |s.tasks| && s.tasks[i].kind.Command?
    ensures AllAuthFirst(Use(s, i, k, true))
  {
  }

  lemma UseOverwrites(s: State, i: nat, k: nat, sends: bool, pc: Pc)
    requires i < |s.tasks|
    ensures Use(Goto(s, i, pc), i, k, sends) == Use(s, i, k, sends)
  {
  }

  lemma AcquireKeeps(s: State, i: nat, sends: bool)
    requires Inv(s)
    ensures Inv(Acquire(s, i, sends))
  {
    hide Inv, Acting, Use, Discard;
    if i < |s.tasks| && s.tasks[i].pc == Queued && s.lock == None {
      var t := s.(lock := Some(i));
      AcquirerActs(s, i);
      if s.tasks[i].kind == Idle {
        DiscardKeeps(t, i);
      } else if s.tasks[i].kind == Eager && (s.closing || s.session.Some?) {
        EndKeeps(t, i);
      } else if Warm(t) {
        UseKeeps(t, i, t.session.value, sends);
      } else {
        GotoKeeps(t, i, if s.creds then Connecting(true) else Bootstrap(true));
      }
    }
  }

  lemma InterruptKeeps(s: State, i: nat)
    requires Acting(s, i)
    ensures Acting(s.(tasks := s.tasks[i := s.tasks[i].(interrupted := true)]), i)
  {
    hide AuthFirst;
    var t := s.(tasks := s.tasks[i := s.tasks[i].(interrupted := true)]);
    forall k: nat | k < |t.sessions| ensures RecallHandled(t, k) {
      assert RecallHandled(s, k);
    }
  }

  /** Credentials and the current session are changed by the acting task only. */
  lemma CredsKeep(s: State, i: nat, creds: bool)
    requires Acting(s, i)
    ensures Acting(s.(creds := creds), i)
  {
    hide AuthFirst, RecallHandled;
    SameRecalls(s, s.(creds := creds));
  }

  lemma DropKeeps(s: State, i: nat)
    requires Acting(s, i) && s.tasks[i].pc == Discarding
    ensures Acting(s.(session := None), i)
  {
    hide AuthFirst, RecallHandled;
    SameRecalls(s, s.(session := None));
  }

  lemma ResumeKeeps(s: State, i: nat, reply: Reply, raised: bool, sends: bool)
    requires Inv(s)
    ensures Inv(Resume(s, i, reply, raised, sends))
  {
    hide Acting, Use, Discard, After, Close, Exclusive, AllAuthFirst, RecallsLast, OneReconnect;
    if i < |s.tasks| && Holds(s.tasks[i]) {
      HolderActs(s, i);
      if raised {
        if s.tasks[i].pc.AwaitAck? { InterruptKeeps(s, i); }
        EndKeeps(if s.tasks[i].pc.AwaitAck? then s.(tasks := s.tasks[i := s.tasks[i].(interrupted := true)]) else s, i);
      } else {
        match s.tasks[i].pc
        case Bootstrap(first) =>
          CredsKeep(s, i, true);
          GotoKeeps(s.(creds := true), i, Connecting(first));
        case Connecting(first) => ConnectKeeps(s, i, first);
        case AuthReply(k, first) => ReplyMoves(s, i, k, first, reply, sends);
        case Rejected(first) =>
          if first {
            CredsKeep(s, i, false);
            GotoKeeps(s.(creds := false), i, Bootstrap(false));
          } else {
            EndKeeps(s, i);
          }
        case AwaitAck(_) =>
          if s.tasks[i].kind == Command(true) { DiscardKeeps(s, i); } else { EndKeeps(s, i); }
        case Discarding =>
          DropKeeps(s, i);
          AfterKeeps(s.(session := None), i);
      }
    }
  }

  lemma ReplyMoves(s: State, i: nat, k: nat, first: bool, reply: Reply, sends: bool)
    requires Inv(s) && Acting(s, i) && i < |s.tasks| && s.tasks[i].pc == AuthReply(k, first)
    ensures Inv(Resume(s, i, reply, false, sends))
  {
    hide Acting, Use, Exclusive, AllAuthFirst, RecallsLast, OneReconnect;
    assert s.tasks[i].pc.AuthReply? && s.sessions[k].sent == [Auth];
    var t := s.(sessions := s.sessions[k := s.sessions[k].(authReply := Some(reply))]);
    ReplyKeeps(s, i, k, reply);
    if Accepts(reply) {
      var u := t.(session := Some(k));
      AcceptKeeps(t, i, k);
      UseOverwrites(u, i, k, sends, Connecting(true));
      UseKeeps(Goto(u, i, Connecting(true)), i, k, sends);
    } else {
      CloseKeeps(t, i, k);
      GotoKeeps(Close(t, k), i, Rejected(first));
    }
  }

  lemma GiveUpKeeps(s: State, i: nat)
    requires Inv(s) && i < |s.tasks| && s.tasks[i].pc == Queued
    ensures Inv(Goto(s, i, Done))
  {
    hide AuthFirst;
    var t := Goto(s, i, Done);
    forall k: nat | k < |t.sessions| ensures RecallHandled(t, k) {
      assert RecallHandled(s, k);
    }
  }

  lemma ShutdownKeeps(s: State)
    requires Inv(s)
    ensures Inv(Step(s, Shutdown))
  {
    hide AuthFirst;
    var t := Step(s, Shutdown);
    forall k: nat | k < |t.sessions| ensures RecallHandled(t, k) {
      assert RecallHandled(s, k);
    }
    ShutdownKeepsAuth(s);
  }

  lemma ShutdownKeepsAuth(s: State)
    requires AllAuthFirst(s)
    ensures AllAuthFirst(Step(s, Shutdown))
  {
  }

  lemma StepKeeps(s: State, a: Action)
    requires Inv(s)
    ensures Inv(Step(s, a))
  {
    hide Inv, Acquire, Resume, Close;
    match a
    case Submit(recycle) => NewTaskKeeps(s, Command(recycle));
    case IdleFires => NewTaskKeeps(s, Idle);
    case TakeLock(i, sends) => AcquireKeeps(s, i, sends);
    case Run(i, reply, raised, sends) => ResumeKeeps(s, i, reply, raised, sends);
    case GiveUp(i) => if i < |s.tasks| && s.tasks[i].pc == Queued { GiveUpKeeps(s, i); }
    case Shutdown => ShutdownKeeps(s);
  }

  lemma {:induction false} ReachedKeeps(actions: seq<Action>)
    ensures Inv(Reached(actions))
    decreases |actions|
  {
    hide Inv, Step;
    if actions == [] {
      InitialHolds();
    } else {
      ReachedKeeps(actions[..|actions| - 1]);
      StepKeeps(Reached(actions[..|actions| - 1]), actions[|actions| - 1]);
    }
  }

  lemma InitialHolds()
    ensures Inv(INITIAL)
  {
  }

  // ---------------------------------------------------------------- what every run guarantees

  /** Every command travels on a session whose AUTH, its first IOCTL, was answered with code 0. */
  lemma CommandsAuthenticated(actions: seq<Action>, k: nat, p: nat)
    requires k < |Reached(actions).sessions| && p < |Reached(actions).sessions[k].sent|
    ensures var session := Reached(actions).sessions[k];
            && (session.sent[p] == Auth <==> p == 0)
            && (p > 0 ==> session.authReply == Some(Reply(AUTH_REPLY_IOTYPE, Some(0))))
  {
    hide Reached, Exclusive, Sane, RecallsLast, OneReconnect;
    ReachedKeeps(actions);
    assert AuthFirst(Reached(actions).sessions[k]);
  }

  /** A preset recall is the last IOCTL ever sent on its session, unless an exception or a
      cancellation met its task between sending it and discarding the session. */
  lemma RecallIsLast(actions: seq<Action>, k: nat, p: nat)
    requires k < |Reached(actions).sessions| && p < |Reached(actions).sessions[k].sent|
    requires Reached(actions).sessions[k].sent[p].Sent? && Reached(actions).sessions[k].sent[p].recycle
    ensures var s := Reached(actions);
            var j := s.sessions[k].sent[p].task;
            j < |s.tasks| && (p + 1 == |s.sessions[k].sent| || s.tasks[j].interrupted)
  {
    hide Reached, Exclusive, Sane, AllAuthFirst, OneReconnect;
    ReachedKeeps(actions);
    assert RecallHandled(Reached(actions), k);
  }

  /** When the task of a recall goes on after waiting for the acknowledgement, its session is still
      ready exactly if the wait was interrupted while it was; then it also is the current one. */
  lemma RecallLeaves(actions: seq<Action>, i: nat, k: nat, reply: Reply, raised: bool, sends: bool)
    requires i < |Reached(actions).tasks|
    requires Reached(actions).tasks[i].kind == Command(true) && Reached(actions).tasks[i].pc == AwaitAck(k)
    ensures var s, t := Reached(actions), Step(Reached(actions), Run(i, reply, raised, sends));
            && k < |s.sessions| == |t.sessions| && t.sessions[k].sent == s.sessions[k].sent
            && (t.sessions[k].ready <==> raised && s.sessions[k].ready)
            && (t.sessions[k].ready ==> t.session == Some(k) && t.lock == None)
            && |t.sessions[k].sent| > 1
  {
    hide Reached, Exclusive, AllAuthFirst, RecallsLast, OneReconnect;
    ReachedKeeps(actions);
    assert Reached(actions).tasks[i].pc.AwaitAck?;
  }

  /** A command that gets the lock while a session is current and ready is sent on it. */
  lemma WarmIsUsed(s: State, i: nat)
    requires i < |s.tasks| && s.tasks[i].pc == Queued && s.tasks[i].kind.Command? && s.lock == None && Warm(s)
    ensures var k := s.session.value;
            Step(s, TakeLock(i, true)).sessions[k].sent
              == s.sessions[k].sent + [Sent(i, s.tasks[i].kind.recycle)]
  {
  }

  /** A session that is closed and was used never sees another IOCTL. */
  predicate Spent(s: State, k: nat, sent: seq<Ioctl>) {
    k < |s.sessions| && s.sessions[k].sent == sent && |sent| > 1 && !s.sessions[k].ready
  }

  lemma SpentStep(s: State, a: Action, k: nat, sent: seq<Ioctl>)
    requires Sane(s) && Spent(s, k, sent)
    ensures Spent(Step(s, a), k, sent)
  {
    hide Acquire, Resume;
    match a
    case TakeLock(i, sends) => SpentAcquire(s, i, sends, k, sent);
    case Run(i, reply, raised, sends) => SpentResume(s, i, reply, raised, sends, k, sent);
    case _ =>
  }

  lemma SpentAcquire(s: State, i: nat, sends: bool, k: nat, sent: seq<Ioctl>)
    requires Spent(s, k, sent)
    ensures Spent(Acquire(s, i, sends), k, sent)
  {
    hide Use, Discard;
    if i < |s.tasks| {
      var t := s.(lock := Some(i));
      SpentDiscard(t, i, k, sent);
      if Warm(t) { SpentUse(t, i, t.session.value, sends, k, sent); }
    }
  }

  lemma SpentResume(s: State, i: nat, reply: Reply, raised: bool, sends: bool, k: nat, sent: seq<Ioctl>)
    requires Sane(s) && Spent(s, k, sent)
    ensures Spent(Resume(s, i, reply, raised, sends), k, sent)
  {
    hide Accepts, Use, Discard, After;
    if i < |s.tasks| {
      SpentDiscard(s, i, k, sent);
      SpentDiscard(s.(session := None), i, k, sent);
      if s.tasks[i].pc.AuthReply? {
        var j := s.tasks[i].pc.session;
        assert j != k;
        var t := s.(sessions := s.sessions[j := s.sessions[j].(authReply := Some(reply))]);
        SpentUse(t.(session := Some(j)), i, j, sends, k, sent);
      }
    }
  }

  lemma SpentUse(s: State, i: nat, j: nat, sends: bool, k: nat, sent: seq<Ioctl>)
    requires Spent(s, k, sent) && i < |s.tasks| && j != k
    ensures Spent(Use(s, i, j, sends), k, sent)
  {
  }

  lemma SpentDiscard(s: State, i: nat, k: nat, sent: seq<Ioctl>)
    requires Spent(s, k, sent) && i < |s.tasks|
    ensures Spent(Discard(s, i), k, sent) && Spent(After(s, i), k, sent)
  {
  }

  lemma {:induction false} SpentStays(actions: seq<Action>, more: seq<Action>, k: nat, sent: seq<Ioctl>)
    requires Spent(Reached(actions), k, sent)
    ensures Spent(Reached(actions + more), k, sent)
    decreases |more|
  {
    hide Reached, Step, Spent, Exclusive, Sane, AllAuthFirst, RecallsLast, OneReconnect;
    if more == [] {
      assert actions + more == actions;
    } else {
      var n := |more| - 1;
      var before := actions + more[..n];
      SpentStays(actions, more[..n], k, sent);
      ReachedKeeps(before);
      SpentStep(Reached(before), more[n], k, sent);
      ReachedNext(before, more[n]);
      assert before + [more[n]] == actions + more;
    }
  }

  /** What is sent on a session stays as it is in every continuation of a run. */
  ghost predicate LastForEver(actions: seq<Action>, k: nat)
    requires k < |Reached(actions).sessions|
  {
    forall more: seq<Action> ::
      k < |Reached(actions + more).sessions|
      && Reached(actions + more).sessions[k].sent == Reached(actions).sessions[k].sent
  }

  /** A recall stays the last IOCTL of its session for ever exactly if its task was not interrupted
      while it waited for the acknowledgement on a session that was ready. */
  lemma RecallStaysLast(actions: seq<Action>, i: nat, k: nat, reply: Reply, raised: bool, sends: bool)
    requires i < |Reached(actions).tasks|
    requires Reached(actions).tasks[i].kind == Command(true) && Reached(actions).tasks[i].pc == AwaitAck(k)
    ensures var after := actions + [Run(i, reply, raised, sends)];
            k < |Reached(actions).sessions| && k < |Reached(after).sessions|
            && (LastForEver(after, k) <==> !(raised && Reached(actions).sessions[k].ready))
  {
    hide Reached, Step, Spent, LastForEver;
    var a := Run(i, reply, raised, sends);
    var after := actions + [a];
    RecallLeaves(actions, i, k, reply, raised, sends);
    ReachedNext(actions, a);
    var t := Reached(after);
    if raised && Reached(actions).sessions[k].ready {
      FollowedByNext(after, k);
    } else {
      IsSpent(t, k);
      forall more ensures k < |Reached(after + more).sessions|
                          && Reached(after + more).sessions[k].sent == t.sessions[k].sent {
        SpentStays(after, more, k, t.sessions[k].sent);
        SpentMeans(Reached(after + more), k, t.sessions[k].sent);
      }
      LastMeans(after, k);
    }
  }

  lemma LastMeans(actions: seq<Action>, k: nat)
    requires k < |Reached(actions).sessions|
    requires forall more: seq<Action> ::
               k < |Reached(actions + more).sessions|
               && Reached(actions + more).sessions[k].sent == Reached(actions).sessions[k].sent
    ensures LastForEver(actions, k)
  {
  }

  lemma IsSpent(s: State, k: nat)
    requires k < |s.sessions| && !s.sessions[k].ready && |s.sessions[k].sent| > 1
    ensures Spent(s, k, s.sessions[k].sent)
  {
  }

  lemma SpentMeans(s: State, k: nat, sent: seq<Ioctl>)
    requires Spent(s, k, sent)
    ensures k < |s.sessions| && s.sessions[k].sent == sent
  {
  }

  /** The next command goes out on the session that is current and ready. */
  lemma FollowedByNext(actions: seq<Action>, k: nat)
    requires Reached(actions).session == Some(k) && Warm(Reached(actions)) && Reached(actions).lock == None
    ensures k < |Reached(actions).sessions| && !LastForEver(actions, k)
  {
    hide Reached;
    var s := Reached(actions);
    var more := [Submit(false), TakeLock(|s.tasks|, true)];
    var submitted := actions + [Submit(false)];
    ReachedNext(actions, Submit(false));
    ReachedNext(submitted, TakeLock(|s.tasks|, true));
    assert submitted + [TakeLock(|s.tasks|, true)] == actions + more;
    WarmIsUsed(Reached(submitted), |s.tasks|);
  }

  /** The current session is changed only by the task that has the lock, or by the shutdown; taking
      the lock alone changes nothing, and the lock is never left behind by a task that is over. */
  lemma SessionUnderLock(actions: seq<Action>, a: Action)
    ensures var s, t := Reached(actions), Step(Reached(actions), a);
            && (t.session != s.session || t.creds != s.creds ==>
                  a == Shutdown || (a.Run? && s.lock == Some(a.task)))
            && (s.lock.Some? ==> s.lock.value < |s.tasks| && Holds(s.tasks[s.lock.value]))
  {
    hide Reached, Sane, AllAuthFirst, RecallsLast, OneReconnect;
    ReachedKeeps(actions);
  }

  /** At most one reconnect is queued or under way. */
  lemma OneReconnectAtATime(actions: seq<Action>, i: nat, j: nat)
    requires i < |Reached(actions).tasks| && j < |Reached(actions).tasks|
    requires Reached(actions).tasks[i].kind == Eager && Reached(actions).tasks[i].pc != Done
    requires Reached(actions).tasks[j].kind == Eager && Reached(actions).tasks[j].pc != Done
    ensures i == j
  {
    hide Reached, Exclusive, Sane, AllAuthFirst, RecallsLast;
    ReachedKeeps(actions);
  }

  const ACCEPTED := Reply(AUTH_REPLY_IOTYPE, Some(0))

  /** A preset is sent, its task is interrupted, and a further command is sent. */
  const RECALL_SENT: seq<Action> := [
    Submit(true), TakeLock(0, true), Run(0, Silence, false, true), Run(0, Silence, false, true),
    Run(0, ACCEPTED, false, true)]

  const INTERRUPTED_RECALL := RECALL_SENT + [Run(0, Silence, true, true), Submit(false), TakeLock(1, true)]

  lemma ReachedNext(before: seq<Action>, a: Action)
    ensures Reached(before + [a]) == Step(Reached(before), a)
  {
  }

  /** The state of a controller whose first task, a preset, is alone. */
  function Alone(creds: bool, pc: Pc, sessions: seq<Session>): State {
    State(creds, if pc.AwaitAck? then Some(0) else None, if pc == Queued then None else Some(0), false, None,
          [Task(Command(true), pc, false)], sessions)
  }

  lemma RecallSent()
    ensures Reached(RECALL_SENT)
         == Alone(true, AwaitAck(0), [Session(true, Some(ACCEPTED), [Auth, Sent(0, true)])])
  {
    hide Reached;
    var a1 := [Submit(true)];
    var a2 := a1 + [TakeLock(0, true)];
    var a3 := a2 + [Run(0, Silence, false, true)];
    var a4 := a3 + [Run(0, Silence, false, true)];
    NothingReached();
    ReachedNext([], Submit(true));
    assert [] + [Submit(true)] == a1;
    assert Reached(a1) == Alone(false, Queued, []);
    ReachedNext(a1, TakeLock(0, true));
    assert Reached(a2) == Alone(false, Bootstrap(true), []);
    ReachedNext(a2, Run(0, Silence, false, true));
    assert Reached(a3) == Alone(true, Connecting(true), []);
    ReachedNext(a3, Run(0, Silence, false, true));
    assert Reached(a4) == Alone(true, AuthReply(0, true), [Session(true, None, [Auth])]);
    ReachedNext(a4, Run(0, ACCEPTED, false, true));
    RecallGoesOut();
    assert a4 + [Run(0, ACCEPTED, false, true)] == RECALL_SENT;
  }

  lemma RecallGoesOut()
    ensures Resume(Alone(true, AuthReply(0, true), [Session(true, None, [Auth])]), 0, ACCEPTED, false, true)
         == Alone(true, AwaitAck(0), [Session(true, Some(ACCEPTED), [Auth, Sent(0, true)])])
  {
    var s := Alone(true, AuthReply(0, true), [Session(true, None, [Auth])]);
    var t := s.(sessions := [Session(true, Some(ACCEPTED), [Auth])], session := Some(0));
    assert s.sessions[0 := Session(true, Some(ACCEPTED), [Auth])] == t.sessions;
    assert [Auth] + [Sent(0, true)] == [Auth, Sent(0, true)];
    assert Use(t, 0, 0, true) == Alone(true, AwaitAck(0), [Session(true, Some(ACCEPTED), [Auth, Sent(0, true)])]);
  }

  lemma NothingReached()
    ensures Reached([]) == INITIAL
  {
  }

  /** After such an interruption the next command does go out on the session of the recall. */
  lemma InterruptedRecallIsFollowed()
    ensures Reached(INTERRUPTED_RECALL).sessions
         == [Session(true, Some(ACCEPTED), [Auth, Sent(0, true), Sent(1, false)])]
  {
    hide Reached;
    RecallSent();
    hide RECALL_SENT;
    var session := Session(true, Some(ACCEPTED), [Auth, Sent(0, true)]);
    var over := Task(Command(true), Done, true);
    var a6 := RECALL_SENT + [Run(0, Silence, true, true)];
    var a7 := a6 + [Submit(false)];
    ReachedNext(RECALL_SENT, Run(0, Silence, true, true));
    assert Reached(a6) == State(true, Some(0), None, false, None, [over], [session]);
    ReachedNext(a6, Submit(false));
    assert Reached(a7).tasks == [over, Task(Command(false), Queued, false)];
    ReachedNext(a7, TakeLock(1, true));
    assert session.sent + [Sent(1, false)] == [Auth, Sent(0, true), Sent(1, false)];
    assert a7 + [TakeLock(1, true)] == INTERRUPTED_RECALL;
  }

  // ---------------------------------------------------------------- the class

  class PtzController {
    var creds: bool
    var session: Option<nat>
    var lock: Option<nat>
    var closing: bool
    var reconnectTask: Option<nat>
    /** The tasks of the event loop, and the sessions with what was sent on them. */
    var tasks: seq<Task>
    var sessions: seq<Session>

    ghost function View(): State
      reads this
    {
      State(creds, session, lock, closing, reconnectTask, tasks, sessions)
    }

    constructor ()
      ensures View() == INITIAL && Inv(View())
    {
      creds, session, lock, closing, reconnectTask, tasks, sessions := false, None, None, false, None, [], [];
      new;
      InitialHolds();
    }

    /** A task that waits for the lock gets it. */
    method TakeLock(i: nat, sends: bool)
      requires Inv(View()) && i < |tasks| && tasks[i].pc == Queued && lock == None
      modifies this
      ensures View() == Step(old(View()), Action.TakeLock(i, sends)) && Inv(View())
    {
      hide Inv, Use, Discard;
      StepKeeps(View(), Action.TakeLock(i, sends));
      lock := Some(i);
      match tasks[i].kind {
        case Command(_) => EnsureSession(i, sends);
        case Eager =>
          if closing || session.Some? { Finish(i); } else { EnsureSession(i, sends); }
        case Idle => DiscardSession(i);
      }
    }

    method Move(i: nat, pc: Pc)
      requires i < |tasks|
      modifies this`tasks
      ensures View() == Goto(old(View()), i, pc)
    {
      tasks := tasks[i := tasks[i].(pc := pc)];
    }

    /** The end of a task, which leaves the lock. */
    method Finish(i: nat)
      requires i < |tasks|
      modifies this`tasks, this`lock
      ensures View() == End(old(View()), i)
    {
      Move(i, Done);
      lock := None;
    }

    method CloseSession(k: nat)
      modifies this`sessions
      ensures View() == Close(old(View()), k)
    {
      if k < |sessions| { sessions := sessions[k := sessions[k].(ready := false)]; }
    }

    /** `_ensure_session` up to its first await. */
    method EnsureSession(i: nat, sends: bool)
      requires i < |tasks|
      modifies this
      ensures View() == Ensured(old(View()), i, sends)
    {
      if session.Some? && session.value < |sessions| && sessions[session.value].ready {
        UseSession(i, session.value, sends);
      } else if creds {
        Move(i, Connecting(true));
      } else {
        Move(i, Bootstrap(true));
      }
    }

    /** What `send_command` and `_eager_reconnect` do with a session. */
    method UseSession(i: nat, k: nat, sends: bool)
      requires i < |tasks|
      modifies this
      ensures View() == Use(old(View()), i, k, sends)
    {
      match tasks[i].kind {
        case Command(recycle) =>
          if !sends || k >= |sessions| {
            Finish(i);
          } else {
            sessions := sessions[k := sessions[k].(sent := sessions[k].sent + [Sent(i, recycle)])];
            Move(i, AwaitAck(k));
          }
        case _ => Finish(i);
      }
    }

    /** `_discard_session` up to its await. */
    method DiscardSession(i: nat)
      requires i < |tasks|
      modifies this
      ensures View() == Discard(old(View()), i)
    {
      if session.Some? {
        CloseSession(session.value);
        Move(i, Discarding);
      } else {
        FinishAndWarm(i);
      }
    }

    /** `_schedule_eager_reconnect` after a preset, and the end of the task. */
    method FinishAndWarm(i: nat)
      requires i < |tasks|
      modifies this
      ensures View() == After(old(View()), i)
    {
      var warm := tasks[i].kind.Command? && !closing
        && (reconnectTask.None? || (reconnectTask.value < |tasks| ==> tasks[reconnectTask.value].pc == Done));
      Finish(i);
      if warm {
        reconnectTask := Some(|tasks|);
        tasks := tasks + [Task(Eager, Queued, false)];
      }
    }

    /** The task that has the lock runs from one await to the next. */
    method RunOn(i: nat, reply: Reply, raised: bool, sends: bool)
      requires Inv(View()) && i < |tasks| && Holds(tasks[i])
      modifies this
      ensures View() == Step(old(View()), Run(i, reply, raised, sends)) && Inv(View())
    {
      hide Inv, Use, Discard, After, Close;
      StepKeeps(View(), Run(i, reply, raised, sends));
      if raised {
        if tasks[i].pc.AwaitAck? { tasks := tasks[i := tasks[i].(interrupted := true)]; }
        Finish(i);
        return;
      }
      match tasks[i].pc {
        case Bootstrap(first) =>
          creds := true;
          Move(i, Connecting(first));
        case Connecting(first) =>
          sessions := sessions + [Session(true, None, [Auth])];
          Move(i, AuthReply(|sessions| - 1, first));
        case AuthReply(k, first) =>
          if k < |sessions| {
            sessions := sessions[k := sessions[k].(authReply := Some(reply))];
            if Accepts(reply) {
              session := Some(k);
              UseSession(i, k, sends);
            } else {
              CloseSession(k);
              Move(i, Rejected(first));
            }
          }
        case Rejected(first) =>
          if first {
            creds := false;
            Move(i, Bootstrap(false));
          } else {
            Finish(i);
          }
        case AwaitAck(_) =>
          if tasks[i].kind == Command(true) { DiscardSession(i); } else { Finish(i); }
        case Discarding =>
          session := None;
          FinishAndWarm(i);
      }
    }
  }
}
