/** The report registry, the report buffer and the topology history of hub/coordinator.py. */
module ReportBuffer {
  type Did = string

  /** Handlers are compared for identity only. */
  type Handler = nat

  const MAXLEN: nat := 10
  const MAX_DIDS: nat := 64

  /** Reports reach the handlers by number of arrival. */
  datatype Delivery = Delivery(report: nat, to: seq<Handler>)

  datatype State = State(
    hub: Did,
    handlers: map<Did, seq<Handler>>,
    pending: map<Did, seq<nat>>,
    topology: set<Did>,
    everSeen: set<Did>,
    arrived: nat,
    delivered: seq<Delivery>)

  function Initial(hub: Did): State {
    State(hub, map[], map[], {}, {}, 0, [])
  }

  // ---------------------------------------------------------------- the steps

  /** Appending to a deque of bounded length. */
  function Append(buf: seq<nat>, report: nat): seq<nat> {
    if |buf| < MAXLEN then buf + [report] else buf[|buf| - MAXLEN + 1..] + [report]
  }

  function Buffer(s: State, did: Did, report: nat): State {
    if did !in s.pending && |s.pending| >= MAX_DIDS then s
    else s.(pending := s.pending[did := Append(if did in s.pending then s.pending[did] else [], report)])
  }

  function Key(did: Did, sdid: Did): Did {
    if sdid != "" then sdid else did
  }

  function Dispatch(s: State, did: Did, sdid: Did): State {
    var key, t := Key(did, sdid), s.(arrived := s.arrived + 1);
    if key in s.handlers && s.handlers[key] != []
    then t.(delivered := s.delivered + [Delivery(s.arrived, s.handlers[key])])
    else Buffer(t, key, s.arrived)
  }

  /** The reports one by one to one handler. */
  function Replay(reports: seq<nat>, h: Handler): (r: seq<Delivery>)
    ensures |r| == |reports| && forall k | 0 <= k < |r| :: r[k] == Delivery(reports[k], [h])
  {
    if reports == [] then [] else [Delivery(reports[0], [h])] + Replay(reports[1..], h)
  }

  function Register(s: State, did: Did, h: Handler): State {
    var list := if did in s.handlers then s.handlers[did] else [];
    s.(handlers := s.handlers[did := list + [h]],
       pending := s.pending - {did},
       delivered := s.delivered + Replay(if did in s.pending then s.pending[did] else [], h))
  }

  /** `list.remove`: without its first occurrence. */
  function Remove(list: seq<Handler>, h: Handler): seq<Handler> {
    if list == [] then [] else if list[0] == h then list[1..] else [list[0]] + Remove(list[1..], h)
  }

  /** The callable that `register_report_handler(did, h)` returned is called. */
  function Unregister(s: State, did: Did, h: Handler): State {
    if did !in s.handlers || h !in s.handlers[did] then s
    else
      var list := Remove(s.handlers[did], h);
      s.(handlers := if list == [] then s.handlers - {did} else s.handlers[did := list])
  }

  function RecordTopology(s: State, dids: set<Did>): State {
    s.(topology := dids, everSeen := s.everSeen + dids)
  }

  predicate Offline(s: State, did: Did) {
    did != s.hub && did in s.everSeen && did !in s.topology
  }

  datatype Action =
    | Report(did: Did, sdid: Did)
    | Registration(key: Did, handler: Handler)
    | Unregistration(key: Did, handler: Handler)
    | Topology(dids: set<Did>)

  function Step(s: State, a: Action): State {
    match a
    case Report(did, sdid) => Dispatch(s, did, sdid)
    case Registration(key, h) => Register(s, key, h)
    case Unregistration(key, h) => Unregister(s, key, h)
    case Topology(dids) => RecordTopology(s, dids)
  }

  function Reached(hub: Did, actions: seq<Action>): State
    decreases |actions|
  {
    if actions == [] then Initial(hub)
    else Step(Reached(hub, actions[..|actions| - 1]), actions[|actions| - 1])
  }

  // ---------------------------------------------------------------- what every run keeps

  /** No device has handlers and a buffer; buffers are few and short and never empty. */
  predicate Bounded(s: State) {
    && |s.pending| <= MAX_DIDS
    && (forall did | did in s.pending :: did !in s.handlers && 0 < |s.pending[did]| <= MAXLEN)
    && (forall did | did in s.handlers :: s.handlers[did] != [])
  }

  predicate Increasing(reports: seq<nat>) {
    forall i, j | 0 <= i < j < |reports| :: reports[i] < reports[j]
  }

  predicate Held(s: State, did: Did, report: nat) {
    did in s.pending && report in s.pending[did]
  }

  predicate HandedOn(s: State, report: nat) {
    exists k :: 0 <= k < |s.delivered| && s.delivered[k].report == report
  }

  /** Buffers are in order of arrival; a buffered report waits in one of them only and has not been
      handed on. */
  ghost predicate Waiting(s: State) {
    && (forall did | did in s.pending :: Increasing(s.pending[did]))
    && (forall did, r: nat | Held(s, did, r) :: r < s.arrived && !HandedOn(s, r))
    && (forall did, other, r: nat | Held(s, did, r) && Held(s, other, r) :: did == other)
  }

  /** No report is handed on twice. */
  predicate HandedOnce(s: State) {
    && (forall k | 0 <= k < |s.delivered| :: s.delivered[k].report < s.arrived)
    && (forall j, k | 0 <= j < k < |s.delivered| :: s.delivered[j].report != s.delivered[k].report)
  }

  ghost predicate Inv(s: State) {
    Bounded(s) && Waiting(s) && HandedOnce(s)
  }

  lemma AppendKeeps(buf: seq<nat>, report: nat)
    requires Increasing(buf) && |buf| <= MAXLEN && forall r: nat | r in buf :: r < report
    ensures Increasing(Append(buf, report)) && 0 < |Append(buf, report)| <= MAXLEN
    ensures forall r: nat | r in Append(buf, report) :: r in buf || r == report
  {
    var drop := if |buf| < MAXLEN then 0 else |buf| - MAXLEN + 1;
    var kept := buf[drop..];
    assert Append(buf, report) == kept + [report];
    DropKeeps(buf, drop, report);
    LastKeeps(kept, report);
  }

  lemma DropKeeps(buf: seq<nat>, n: nat, bound: nat)
    requires Increasing(buf) && n <= |buf| && forall r: nat | r in buf :: r < bound
    ensures Increasing(buf[n..]) && forall r: nat | r in buf[n..] :: r in buf
    ensures forall r: nat | r in buf[n..] :: r < bound
  {
  }

  lemma LastKeeps(buf: seq<nat>, report: nat)
    requires Increasing(buf) && forall r: nat | r in buf :: r < report
    ensures Increasing(buf + [report]) && forall r: nat | r in buf + [report] :: r in buf || r == report
  {
    var t := buf + [report];
    forall i, j | 0 <= i < j < |t| ensures t[i] < t[j] {
      if j == |buf| { assert t[i] == buf[i] && buf[i] in buf; }
    }
  }

  lemma BufferKeeps(s: State, did: Did)
    requires Inv(s) && did !in s.handlers
    ensures Inv(Buffer(s.(arrived := s.arrived + 1), did, s.arrived))
  {
    hide Append, Increasing, HandedOn, HandedOnce;
    var buf := if did in s.pending then s.pending[did] else [];
    var t := Buffer(s.(arrived := s.arrived + 1), did, s.arrived);
    assert Increasing([]) by { EmptyIncreasing(); }
    assert forall r: nat | r in buf :: Held(s, did, r);
    AppendKeeps(buf, s.arrived);
    SameDelivered(s, t);
    assert forall d: Did, r: nat | Held(t, d, r) :: Held(s, d, r) || (d == did && r == s.arrived);
  }

  lemma SameDelivered(s: State, t: State)
    requires HandedOnce(s) && t.delivered == s.delivered && t.arrived >= s.arrived
    ensures HandedOnce(t) && !HandedOn(t, s.arrived) && forall r: nat :: HandedOn(t, r) == HandedOn(s, r)
  {
  }

  lemma EmptyIncreasing()
    ensures Increasing([])
  {
  }

  lemma DispatchKeeps(s: State, did: Did, sdid: Did)
    requires Inv(s)
    ensures Inv(Dispatch(s, did, sdid))
  {
    hide Inv, Buffer;
    var key := Key(did, sdid);
    HandlersMeanList(s, key);
    if key in s.handlers {
      LiveKeeps(s, s.handlers[key]);
    } else {
      BufferKeeps(s, key);
    }
  }

  lemma HandlersMeanList(s: State, did: Did)
    requires Inv(s)
    ensures did in s.handlers ==> s.handlers[did] != []
  {
  }

  /** A report goes to handlers at once. */
  lemma LiveKeeps(s: State, to: seq<Handler>)
    requires Inv(s)
    ensures Inv(s.(arrived := s.arrived + 1, delivered := s.delivered + [Delivery(s.arrived, to)]))
  {
    hide Increasing, HandedOn, HandedOnce;
    var t := s.(arrived := s.arrived + 1, delivered := s.delivered + [Delivery(s.arrived, to)]);
    OneMoreDelivered(s, t, Delivery(s.arrived, to));
    assert forall d: Did, r: nat | Held(t, d, r) :: Held(s, d, r);
  }

  lemma OneMoreDelivered(s: State, t: State, d: Delivery)
    requires HandedOnce(s) && t.delivered == s.delivered + [d] && d.report == s.arrived && t.arrived == s.arrived + 1
    ensures HandedOnce(t) && forall r: nat | HandedOn(t, r) :: HandedOn(s, r) || r == s.arrived
  {
    var n := |s.delivered|;
    assert t.delivered[n] == d && forall k | 0 <= k < n :: t.delivered[k] == s.delivered[k];
  }

  lemma FewerKeys<T>(m: map<Did, T>, did: Did)
    ensures |m - {did}| <= |m|
  {
  }

  lemma RegisterKeeps(s: State, did: Did, h: Handler)
    requires Inv(s)
    ensures Inv(Register(s, did, h))
  {
    hide Bounded, Waiting, HandedOnce, Register;
    RegisterBounded(s, did, h);
    RegisterReplaysOnce(s, did, h);
  }

  lemma RegisterBounded(s: State, did: Did, h: Handler)
    requires Bounded(s)
    ensures Bounded(Register(s, did, h))
  {
    hide Replay;
    var t := Register(s, did, h);
    FewerKeys(s.pending, did);
    assert t.pending == s.pending - {did} && t.handlers[did] != [];
    forall d: Did | d in t.pending ensures d !in t.handlers && 0 < |t.pending[d]| <= MAXLEN {
      assert d in s.pending && d != did;
    }
    forall d: Did | d in t.handlers ensures t.handlers[d] != [] {
      if d != did { assert d in s.handlers; }
    }
  }

  lemma RegisterReplaysOnce(s: State, did: Did, h: Handler)
    requires Inv(s)
    ensures Waiting(Register(s, did, h)) && HandedOnce(Register(s, did, h))
  {
    hide Bounded, Increasing, HandedOn, HandedOnce, Replay;
    var t := Register(s, did, h);
    var buf := if did in s.pending then s.pending[did] else [];
    EmptyIncreasing();
    assert forall r: nat | r in buf :: Held(s, did, r);
    RegisterHandsOnce(s, t, buf, h);
    assert forall d: Did, r: nat | Held(t, d, r) :: Held(s, d, r) && d != did;
    forall d: Did, r: nat | Held(t, d, r) ensures !HandedOn(t, r) {
      assert r in buf ==> Held(s, did, r);
      HandedBefore(s, t, buf, h, r);
    }
  }

  lemma HandedBefore(s: State, t: State, buf: seq<nat>, h: Handler, r: nat)
    requires t.delivered == s.delivered + Replay(buf, h)
    ensures HandedOn(t, r) ==> HandedOn(s, r) || r in buf
  {
  }

  lemma RegisterHandsOnce(s: State, t: State, buf: seq<nat>, h: Handler)
    requires HandedOnce(s) && Increasing(buf) && t.arrived == s.arrived
    requires t.delivered == s.delivered + Replay(buf, h)
    requires forall r: nat | r in buf :: r < s.arrived && !HandedOn(s, r)
    ensures HandedOnce(t)
  {
    hide HandedOn, Replay;
    var n := |s.delivered|;
    forall k | 0 <= k < |t.delivered| ensures t.delivered[k].report < t.arrived {
      DeliveredAt(s, t, buf, h, k);
      if k >= n { assert buf[k - n] in buf; }
    }
    forall j, k | 0 <= j < k < |t.delivered| ensures t.delivered[j].report != t.delivered[k].report {
      DeliveredAt(s, t, buf, h, j);
      DeliveredAt(s, t, buf, h, k);
      if j < n <= k {
        assert buf[k - n] in buf && !HandedOn(s, buf[k - n]);
        HandedAt(s, j);
      }
    }
  }

  lemma DeliveredAt(s: State, t: State, buf: seq<nat>, h: Handler, k: nat)
    requires t.delivered == s.delivered + Replay(buf, h) && k < |t.delivered|
    ensures |t.delivered| == |s.delivered| + |buf|
    ensures k < |s.delivered| ==> t.delivered[k] == s.delivered[k]
    ensures k >= |s.delivered| ==> t.delivered[k].report == buf[k - |s.delivered|]
  {
  }

  lemma HandedAt(s: State, k: nat)
    requires k < |s.delivered|
    ensures HandedOn(s, s.delivered[k].report)
  {
  }

  lemma UnregisterKeeps(s: State, did: Did, h: Handler)
    requires Inv(s)
    ensures Inv(Unregister(s, did, h))
  {
    hide Increasing, Remove;
    var t := Unregister(s, did, h);
    SameReports(s, t);
  }

  lemma SameReports(s: State, t: State)
    requires s.pending == t.pending && s.delivered == t.delivered && s.arrived == t.arrived
    ensures Waiting(s) == Waiting(t) && HandedOnce(s) == HandedOnce(t)
  {
    assert forall d: Did, r: nat :: Held(s, d, r) == Held(t, d, r);
    assert forall r: nat :: HandedOn(s, r) == HandedOn(t, r);
  }

  lemma StepKeeps(s: State, a: Action)
    requires Inv(s)
    ensures Inv(Step(s, a)) && Step(s, a).hub == s.hub
  {
    hide Waiting, HandedOnce, Increasing;
    match a
    case Report(did, sdid) => DispatchKeeps(s, did, sdid);
    case Registration(key, h) => RegisterKeeps(s, key, h);
    case Unregistration(key, h) => UnregisterKeeps(s, key, h);
    case Topology(dids) => SameReports(s, Step(s, a));
  }

  lemma {:induction false} ReachedKeeps(hub: Did, actions: seq<Action>)
    ensures Inv(Reached(hub, actions)) && Reached(hub, actions).hub == hub
    decreases |actions|
  {
    hide Inv, Step;
    if actions == [] {
      InitialHolds(hub);
    } else {
      ReachedKeeps(hub, actions[..|actions| - 1]);
      StepKeeps(Reached(hub, actions[..|actions| - 1]), actions[|actions| - 1]);
    }
  }

  lemma InitialHolds(hub: Did)
    ensures Inv(Initial(hub))
  {
  }

  // ---------------------------------------------------------------- what every run guarantees

  /** No device ever has both handlers and a buffer, and the buffers stay within their bounds. */
  lemma BuffersBounded(hub: Did, actions: seq<Action>, did: Did)
    ensures var s := Reached(hub, actions);
            && |s.pending| <= MAX_DIDS
            && (did in s.pending ==> did !in s.handlers && 0 < |s.pending[did]| <= MAXLEN)
            && (did in s.handlers ==> s.handlers[did] != [])
  {
    hide Reached, Waiting, HandedOnce;
    ReachedKeeps(hub, actions);
  }

  /** A report is handed on at most once, live or in a replay. */
  lemma NoneTwice(hub: Did, actions: seq<Action>, j: nat, k: nat)
    requires j < k < |Reached(hub, actions).delivered|
    ensures Reached(hub, actions).delivered[j].report != Reached(hub, actions).delivered[k].report
  {
    hide Reached, Waiting, Bounded;
    ReachedKeeps(hub, actions);
  }

  /** The reports admitted for a device since its last registration. */
  function Backlog(hub: Did, actions: seq<Action>, did: Did): seq<nat>
    decreases |actions|
  {
    if actions == [] then []
    else
      var before := actions[..|actions| - 1];
      var s := Reached(hub, before);
      match actions[|actions| - 1]
      case Report(d, sdid) =>
        if (if sdid == "" then d else sdid) == did && did !in s.handlers && (did in s.pending || |s.pending| < 64)
        then Backlog(hub, before, did) + [s.arrived] else Backlog(hub, before, did)
      case Registration(key, _) => if key == did then [] else Backlog(hub, before, did)
      case _ => Backlog(hub, before, did)
  }

  function Newest(reports: seq<nat>): seq<nat> {
    if |reports| <= 10 then reports else reports[|reports| - 10..]
  }

  lemma NewestAppend(reports: seq<nat>, r: nat)
    ensures Append(Newest(reports), r) == Newest(reports + [r])
  {
  }

  function BufferOf(s: State, did: Did): seq<nat> {
    if did in s.pending then s.pending[did] else []
  }

  /** A buffer holds exactly the newest ten of the reports admitted, oldest first. */
  lemma {:induction false} BufferIsNewest(hub: Did, actions: seq<Action>, did: Did)
    ensures BufferOf(Reached(hub, actions), did) == Newest(Backlog(hub, actions, did))
    decreases |actions|
  {
    hide Append, Newest;
    if actions == [] {
      assert Newest([]) == [] by { NewestOfNone(); }
    } else {
      var before, a := actions[..|actions| - 1], actions[|actions| - 1];
      var s := Reached(hub, before);
      BufferIsNewest(hub, before, did);
      BuffersBounded(hub, before, did);
      NewestOfNone();
      if a.Report? {
        BuffersBounded(hub, before, Key(a.did, a.sdid));
        if Key(a.did, a.sdid) == did {
          NewestAppend(Backlog(hub, before, did), s.arrived);
        }
      }
    }
  }

  lemma NewestOfNone()
    ensures Newest([]) == []
  {
  }

  /** Registering hands the new handler, in order of arrival, the newest ten of the reports admitted
      since the last registration, and nothing else; the buffer is gone. */
  lemma RegistrationReplays(hub: Did, actions: seq<Action>, did: Did, h: Handler)
    ensures var s := Reached(hub, actions);
            var t := Step(s, Registration(did, h));
            && t.delivered == s.delivered + Replay(Newest(Backlog(hub, actions, did)), h)
            && did !in t.pending
  {
    hide Reached, Backlog, Newest;
    BufferIsNewest(hub, actions, did);
  }

  function Pushes(actions: seq<Action>): seq<set<Did>> {
    if actions == [] then []
    else
      var a := actions[|actions| - 1];
      Pushes(actions[..|actions| - 1]) + if a.Topology? then [a.dids] else []
  }

  predicate InSome(pushes: seq<set<Did>>, did: Did) {
    pushes != [] && (did in pushes[|pushes| - 1] || InSome(pushes[..|pushes| - 1], did))
  }

  lemma {:induction false} InSomeMeans(pushes: seq<set<Did>>, did: Did)
    ensures InSome(pushes, did) <==> exists k :: 0 <= k < |pushes| && did in pushes[k]
    decreases |pushes|
  {
    if pushes != [] {
      var n := |pushes| - 1;
      InSomeMeans(pushes[..n], did);
      if k :| 0 <= k < n && did in pushes[k] {
        assert did in pushes[..n][k];
      }
      if k :| 0 <= k < n && did in pushes[..n][k] {
        assert did in pushes[k];
      }
    }
  }

  lemma {:induction false} TopologyHistory(hub: Did, actions: seq<Action>, did: Did)
    ensures var s, pushes := Reached(hub, actions), Pushes(actions);
            && s.topology == (if pushes == [] then {} else pushes[|pushes| - 1])
            && (did in s.everSeen <==> InSome(pushes, did))
    decreases |actions|
  {
    hide Register, Unregister, Dispatch;
    if actions != [] {
      var before, a := actions[..|actions| - 1], actions[|actions| - 1];
      TopologyHistory(hub, before, did);
      if a.Topology? {
        assert Pushes(actions)[..|Pushes(before)|] == Pushes(before);
      } else {
        SameTopology(Reached(hub, before), a);
        assert Pushes(before) + [] == Pushes(before);
      }
    }
  }

  lemma SameTopology(s: State, a: Action)
    requires !a.Topology?
    ensures Step(s, a).topology == s.topology && Step(s, a).everSeen == s.everSeen
  {
  }

  /** A device counts as offline exactly when it is not the hub, some past push listed it and the
      latest does not. */
  lemma OfflineIff(hub: Did, actions: seq<Action>, did: Did)
    ensures var pushes := Pushes(actions);
            Offline(Reached(hub, actions), did)
            <==> (&& did != hub
                  && (exists k :: 0 <= k < |pushes| && did in pushes[k])
                  && did !in pushes[|pushes| - 1])
  {
    hide Reached, Pushes, InSome, Inv;
    TopologyHistory(hub, actions, did);
    InSomeMeans(Pushes(actions), did);
    ReachedKeeps(hub, actions);
  }

  // ---------------------------------------------------------------- unregistering

  lemma {:induction false} RemoveIsFirst(list: seq<Handler>, h: Handler)
    ensures multiset(Remove(list, h)) == multiset(list) - multiset{h}
    ensures h !in list ==> Remove(list, h) == list
    decreases |list|
  {
    if list != [] {
      assert list == [list[0]] + list[1..];
      if list[0] != h {
        RemoveIsFirst(list[1..], h);
        assert Remove(list, h) == [list[0]] + Remove(list[1..], h);
      }
    }
  }

  /** How often a handler is registered for a device. */
  function Times(s: State, did: Did, h: Handler): nat {
    if did in s.handlers then multiset(s.handlers[did])[h] else 0
  }

  /** Calling the returned callable takes one registration of the handler away, if there is one, and
      changes nothing else. */
  lemma UnregisterTakesOne(s: State, did: Did, h: Handler, other: Did, g: Handler)
    ensures var t := Unregister(s, did, h);
            && Times(t, other, g)
                 == (if other == did && g == h && Times(s, did, h) > 0 then Times(s, did, h) - 1
                     else Times(s, other, g))
            && t.pending == s.pending && t.delivered == s.delivered
  {
    if did in s.handlers {
      var list := s.handlers[did];
      RemoveIsFirst(list, h);
      assert h in list <==> h in multiset(list);
      hide Remove;
      if h in list && other == did {
        assert multiset(Remove(list, h))[g] == multiset(list)[g] - if g == h then 1 else 0;
      }
    }
  }

  /** Calling it a second time changes nothing exactly when the handler was registered for the device
      at most once: otherwise the second call takes another registration of it away. */
  lemma UnregisterTwice(s: State, did: Did, h: Handler)
    ensures Unregister(Unregister(s, did, h), did, h) == Unregister(s, did, h) <==> Times(s, did, h) <= 1
  {
    hide Unregister;
    var t := Unregister(s, did, h);
    UnregisterTakesOne(s, did, h, did, h);
    UnregisterTakesOne(t, did, h, did, h);
    if Times(t, did, h) == 0 {
      NothingToTake(t, did, h);
    }
  }

  lemma NothingToTake(s: State, did: Did, h: Handler)
    requires Times(s, did, h) == 0
    ensures Unregister(s, did, h) == s
  {
  }

  lemma NoOpIff(s: State, did: Did, h: Handler)
    ensures Unregister(s, did, h) == s <==> Times(s, did, h) == 0
  {
    hide Unregister;
    UnregisterTakesOne(s, did, h, did, h);
    if Times(s, did, h) == 0 {
      NothingToTake(s, did, h);
    }
  }

  /** How often a run registers a handler for a device, and how often it calls the unregister callable
      for the two. */
  function Registrations(actions: seq<Action>, did: Did, h: Handler): nat {
    if actions == [] then 0
    else
      var n := |actions| - 1;
      Registrations(actions[..n], did, h) + if actions[n] == Registration(did, h) then 1 else 0
  }

  function Unregistrations(actions: seq<Action>, did: Did, h: Handler): nat {
    if actions == [] then 0
    else
      var n := |actions| - 1;
      Unregistrations(actions[..n], did, h) + if actions[n] == Unregistration(did, h) then 1 else 0
  }

  /** By how much the registrations from action `n` on exceed the unregistrations. */
  function Excess(actions: seq<Action>, n: nat, did: Did, h: Handler): int
    requires n <= |actions|
  {
    Registrations(actions[n..], did, h) - Unregistrations(actions[n..], did, h)
  }

  lemma ExcessStep(before: seq<Action>, a: Action, n: nat, did: Did, h: Handler)
    requires n <= |before|
    ensures Excess(before + [a], n, did, h)
         == Excess(before, n, did, h)
            + (if a == Registration(did, h) then 1 else if a == Unregistration(did, h) then -1 else 0)
  {
    assert (before + [a])[n..] == before[n..] + [a];
    assert (before[n..] + [a])[..|before| - n] == before[n..];
  }

  lemma SameHandlers(s: State, did: Did, sdid: Did)
    ensures Dispatch(s, did, sdid).handlers == s.handlers
  {
  }

  lemma TimesStep(s: State, a: Action, did: Did, h: Handler)
    ensures Times(Step(s, a), did, h)
         == if a == Registration(did, h) then Times(s, did, h) + 1
            else if a == Unregistration(did, h) && Times(s, did, h) > 0 then Times(s, did, h) - 1
            else Times(s, did, h)
  {
    hide Unregister, Remove, Replay, Buffer;
    match a
    case Report(d, sdid) => SameHandlers(s, d, sdid);
    case Unregistration(key, g) => UnregisterTakesOne(s, key, g, did, h);
    case Registration(key, g) =>
      var list := if key in s.handlers then s.handlers[key] else [];
      assert multiset(list + [g]) == multiset(list) + multiset{g};
    case _ =>
  }

  lemma ReachedNext(hub: Did, before: seq<Action>, a: Action)
    ensures Reached(hub, before + [a]) == Step(Reached(hub, before), a)
  {
    assert (before + [a])[..|before|] == before;
  }

  /** A handler is left registered as often as the registrations exceed the unregistrations over the
      stretch at the end of the run where they exceed them most. */
  lemma {:induction false} TimesIsExcess(hub: Did, actions: seq<Action>, did: Did, h: Handler) returns (n: nat)
    ensures n <= |actions| && Times(Reached(hub, actions), did, h) == Excess(actions, n, did, h)
    ensures forall m: nat | m <= |actions| ::
              Excess(actions, m, did, h) <= Times(Reached(hub, actions), did, h)
    decreases |actions|
  {
    hide Reached, Times, Step, Excess;
    if actions == [] {
      NeverRegistered(hub, did, h);
      n := 0;
    } else {
      var before, a := actions[..|actions| - 1], actions[|actions| - 1];
      assert actions == before + [a];
      n := TimesIsExcess(hub, before, did, h);
      ReachedNext(hub, before, a);
      TimesStep(Reached(hub, before), a, did, h);
      EmptyExcess(actions, did, h);
      ExcessStep(before, a, n, did, h);
      forall m: nat | m <= |actions|
        ensures Excess(actions, m, did, h) <= Times(Reached(hub, actions), did, h)
      {
        if m < |actions| { ExcessStep(before, a, m, did, h); }
      }
      if a == Unregistration(did, h) && Times(Reached(hub, before), did, h) == 0 {
        n := |actions|;
      }
    }
  }

  lemma NeverRegistered(hub: Did, did: Did, h: Handler)
    ensures Times(Reached(hub, []), did, h) == 0 == Excess([], 0, did, h)
  {
  }

  lemma EmptyExcess(actions: seq<Action>, did: Did, h: Handler)
    ensures Excess(actions, |actions|, did, h) == 0
  {
  }

  /** The callable once called is called again, whatever came before and in between: that is a no-op
      exactly when over no stretch up to then the handler was registered for the device more often
      than its callables were called. */
  lemma LaterUnregister(hub: Did, before: seq<Action>, between: seq<Action>, did: Did, h: Handler)
    ensures var run := before + [Unregistration(did, h)] + between;
            (Step(Reached(hub, run), Unregistration(did, h)) == Reached(hub, run))
            <==> (forall n: nat | n <= |run| ::
                    Registrations(run[n..], did, h) <= Unregistrations(run[n..], did, h))
  {
    hide Reached, Times, Unregister, Registrations, Unregistrations;
    var run := before + [Unregistration(did, h)] + between;
    var n := TimesIsExcess(hub, run, did, h);
    NoOpIff(Reached(hub, run), did, h);
    assert forall m: nat | m <= |run| ::
        Excess(run, m, did, h) == Registrations(run[m..], did, h) - Unregistrations(run[m..], did, h);
  }

  /** Registered twice: the second call of one callable takes the other registration away. */
  lemma RegisteredTwice(hub: Did, did: Did, h: Handler)
    ensures var s := Reached(hub, [Registration(did, h), Registration(did, h), Unregistration(did, h)]);
            Times(s, did, h) == 1 && Times(Step(s, Unregistration(did, h)), did, h) == 0
  {
    hide Reached, Step, Times;
    var a, u := Registration(did, h), Unregistration(did, h);
    ThreeSteps(hub, a, a, u, did, h);
    TimesStep(Reached(hub, [a, a, u]), u, did, h);
  }

  /** Registered anew: calling the callable of the first registration again takes the new one away. */
  lemma RegisteredAnew(hub: Did, did: Did, h: Handler)
    ensures var s := Reached(hub, [Registration(did, h), Unregistration(did, h), Registration(did, h)]);
            Times(s, did, h) == 1 && Times(Step(s, Unregistration(did, h)), did, h) == 0
  {
    hide Reached, Step, Times;
    var a, u := Registration(did, h), Unregistration(did, h);
    ThreeSteps(hub, a, u, a, did, h);
    TimesStep(Reached(hub, [a, u, a]), u, did, h);
  }

  lemma ThreeSteps(hub: Did, a: Action, b: Action, c: Action, did: Did, h: Handler)
    requires a == Registration(did, h) && {b, c} == {Registration(did, h), Unregistration(did, h)}
    ensures Times(Reached(hub, [a, b, c]), did, h) == 1
  {
    hide Reached, Step, Times;
    NeverRegistered(hub, did, h);
    ReachedNext(hub, [], a);
    ReachedNext(hub, [a], b);
    ReachedNext(hub, [a, b], c);
    assert [] + [a] == [a] && [a] + [b] == [a, b] && [a, b] + [c] == [a, b, c];
    TimesStep(Reached(hub, []), a, did, h);
    TimesStep(Reached(hub, [a]), b, did, h);
    TimesStep(Reached(hub, [a, b]), c, did, h);
    assert b in {b, c} && c in {b, c};
    assert b != c by { assert Registration(did, h) in {b, c} && Unregistration(did, h) in {b, c}; }
  }

  // ---------------------------------------------------------------- the class

  class HubCoordinator {
    const deviceId: Did
    var reportHandlers: map<Did, seq<Handler>>
    var pendingReports: map<Did, seq<nat>>
    var topologyDids: set<Did>
    var everSeenTopologyDids: set<Did>
    /** What arrived and what was handed on. */
    var arrived: nat
    ghost var delivered: seq<Delivery>

    ghost function View(): State
      reads this
    {
      State(deviceId, reportHandlers, pendingReports, topologyDids, everSeenTopologyDids, arrived, delivered)
    }

    constructor (deviceId: Did)
      ensures View() == Initial(deviceId) && Inv(View())
    {
      this.deviceId := deviceId;
      reportHandlers, pendingReports, topologyDids, everSeenTopologyDids := map[], map[], {}, {};
      arrived, delivered := 0, [];
    }

    /** `register_report_handler`, with the replay. */
    method RegisterReportHandler(did: Did, handler: Handler)
      requires Inv(View())
      modifies this
      ensures View() == Step(old(View()), Registration(did, handler)) && Inv(View())
    {
      hide Inv, Replay;
      StepKeeps(View(), Registration(did, handler));
      var list := if did in reportHandlers then reportHandlers[did] else [];
      reportHandlers := reportHandlers[did := list + [handler]];
      var buffered := if did in pendingReports then pendingReports[did] else [];
      pendingReports := pendingReports - {did};
      ReplayBuffered(buffered, handler);
    }

    method ReplayBuffered(buffered: seq<nat>, handler: Handler)
      modifies this`delivered
      ensures delivered == old(delivered) + Replay(buffered, handler)
    {
      assert buffered[0..] == buffered;
      for i := 0 to |buffered|
        invariant delivered + Replay(buffered[i..], handler) == old(delivered) + Replay(buffered, handler)
      {
        assert buffered[i..][1..] == buffered[i + 1..];
        delivered := delivered + [Delivery(buffered[i], [handler])];
      }
    }

    /** The callable it returns. */
    method UnregisterHandler(did: Did, handler: Handler)
      requires Inv(View())
      modifies this`reportHandlers
      ensures View() == Step(old(View()), Unregistration(did, handler)) && Inv(View())
    {
      hide Inv;
      StepKeeps(View(), Unregistration(did, handler));
      if did !in reportHandlers { return; }
      var handlers := reportHandlers[did];
      if handler !in handlers { return; }
      handlers := Remove(handlers, handler);
      reportHandlers := if handlers == [] then reportHandlers - {did} else reportHandlers[did := handlers];
    }

    /** `_dispatch_report` of the report that arrives now. */
    method DispatchReport(did: Did, sdid: Did)
      requires Inv(View())
      modifies this
      ensures View() == Step(old(View()), Report(did, sdid)) && Inv(View())
    {
      hide Inv;
      StepKeeps(View(), Report(did, sdid));
      var key := if sdid != "" then sdid else did;
      var report := arrived;
      arrived := arrived + 1;
      if key in reportHandlers && reportHandlers[key] != [] {
        delivered := delivered + [Delivery(report, reportHandlers[key])];
        return;
      }
      BufferReport(key, report);
    }

    /** `_buffer_report`. */
    method BufferReport(did: Did, report: nat)
      modifies this`pendingReports
      ensures View() == Buffer(old(View()), did, report)
    {
      if did !in pendingReports {
        if |pendingReports| >= MAX_DIDS { return; }
        pendingReports := pendingReports[did := []];
      }
      pendingReports := pendingReports[did := Append(pendingReports[did], report)];
    }

    /** `_record_topology`. */
    method RecordPush(dids: set<Did>)
      requires Inv(View())
      modifies this`topologyDids, this`everSeenTopologyDids
      ensures View() == Step(old(View()), Topology(dids)) && Inv(View())
    {
      hide Inv;
      StepKeeps(View(), Topology(dids));
      topologyDids := dids;
      everSeenTopologyDids := everSeenTopologyDids + dids;
    }

    /** `is_lan_direct_offline`. */
    method IsLanDirectOffline(did: Did) returns (offline: bool)
      ensures offline == Offline(View(), did)
    {
      if did == deviceId { return false; }
      offline := did in everSeenTopologyDids && did !in topologyDids;
    }
  }
}
