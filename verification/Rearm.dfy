/** The re-arm manager of hub/rearm.py as interleaved steps: its loops run between two awaits at a
    time, in any order, with anything the surroundings may answer. */
module Rearm {
  type Did = string

  datatype Config = Config(grace: real, cooldown: real, maxRounds: nat, settle: real, poll: real)

  /** Where a loop waits. */
  datatype Pc =
    | Start
    | Grace
    | CooldownWait(round: nat)
    | Discover(round: nat)
    | Activating(round: nat)
    | Settling(round: nat, waited: real)
    | Backoff(round: nat)
    | Done

  /** A loop for `did`; a cancellation asked for is delivered when the loop next runs. */
  datatype Loop = Loop(did: Did, pc: Pc, cancelled: bool)

  datatype Activation = Activation(did: Did, at: real, loop: nat)

  /** The manager's fields, every loop ever started, the clock, and the activations so far. */
  datatype State = State(
    slots: map<Did, nat>,
    lastActivation: map<Did, real>,
    lastTopology: set<Did>,
    loops: seq<Loop>,
    now: real,
    log: seq<Activation>)

  const INITIAL := State(map[], map[], {}, [], 0.0, [])

  // ---------------------------------------------------------------- one loop between two awaits

  function SetPc(s: State, i: nat, pc: Pc): State
    requires i < |s.loops|
  {
    s.(loops := s.loops[i := s.loops[i].(pc := pc)])
  }

  /** The `finally` of the loop: it clears its slot if the slot is still its own. */
  function Finish(s: State, i: nat): State
    requires i < |s.loops|
  {
    var did := s.loops[i].did;
    SetPc(if did in s.slots && s.slots[did] == i then s.(slots := s.slots - {did}) else s, i, Done)
  }

  function MoveTo(s: State, i: nat, pc: Pc): State
    requires i < |s.loops|
  {
    if pc == Done then Finish(s, i) else SetPc(s, i, pc)
  }

  predicate Cooling(c: Config, s: State, did: Did) {
    did in s.lastActivation && s.now - s.lastActivation[did] < c.cooldown
  }

  /** The head of the retry loop. */
  function Head(c: Config, s: State, did: Did, round: nat): Pc {
    if round >= c.maxRounds then Done
    else if Cooling(c, s, did) then CooldownWait(round)
    else Discover(round)
  }

  function First(c: Config, s: State, did: Did): Pc {
    if c.grace > 0.0 then Grace else Head(c, s, did, 0)
  }

  function Polling(c: Config, round: nat, waited: real, live: bool): Pc {
    if live then Done else if waited < c.settle then Settling(round, waited) else Backoff(round)
  }

  /** Where a loop that runs on gets to; `live` says whether its device is in the hub's topology. */
  function Next(c: Config, s: State, loop: Loop, live: bool): Pc {
    match loop.pc
    case Start => First(c, s, loop.did)
    case Grace => if live then Done else Head(c, s, loop.did, 0)
    case CooldownWait(round) => if live then Done else Head(c, s, loop.did, round + 1)
    case Discover(round) => Activating(round)
    case Activating(round) => Polling(c, round, 0.0, live)
    case Settling(round, waited) => Polling(c, round, waited + c.poll, live)
    case Backoff(round) => Head(c, s, loop.did, round + 1)
    case Done => Done
  }

  function Activate(s: State, i: nat): State
    requires i < |s.loops|
  {
    var did := s.loops[i].did;
    s.(lastActivation := s.lastActivation[did := s.now], log := s.log + [Activation(did, s.now, i)])
  }

  /** A loop is resumed. Cancelled or failing it ends, through its `finally` unless it never ran. */
  function Resume(c: Config, s: State, i: nat, live: bool, fails: bool): State {
    if i >= |s.loops| || s.loops[i].pc == Done then s
    else
      var loop := s.loops[i];
      if loop.cancelled || fails then if loop.pc == Start then SetPc(s, i, Done) else Finish(s, i)
      else MoveTo(if loop.pc.Discover? then Activate(s, i) else s, i, Next(c, s, loop, live))
  }

  // ---------------------------------------------------------------- the manager

  predicate Ended(s: State, i: nat) {
    i < |s.loops| ==> s.loops[i].pc == Done
  }

  /** `_ensure_rearm`. A task created eagerly runs its first stretch before it gets its slot. */
  function Ensure(c: Config, s: State, did: Did, eager: bool): State {
    if did in s.slots && !Ended(s, s.slots[did]) then s
    else
      var loop := Loop(did, if eager then First(c, s, did) else Start, false);
      s.(loops := s.loops + [loop], slots := s.slots[did := |s.loops|])
  }

  function Cancel(s: State, i: nat): State {
    if Ended(s, i) then s else s.(loops := s.loops[i := s.loops[i].(cancelled := true)])
  }

  function NoteOne(c: Config, s: State, did: Did, dids: set<Did>, eager: bool): State {
    if did !in dids then Ensure(c, s, did, eager)
    else if did in s.slots then Cancel(s.(slots := s.slots - {did}), s.slots[did])
    else s
  }

  function NoteAll(c: Config, s: State, targets: seq<Did>, dids: set<Did>, eager: bool): State
    decreases |targets|
  {
    if targets == [] then s
    else NoteAll(c, NoteOne(c, s, targets[0], dids, eager), targets[1..], dids, eager)
  }

  function SweepAll(c: Config, s: State, targets: seq<Did>, eager: bool): State
    decreases |targets|
  {
    if targets == [] then s
    else
      var did := targets[0];
      SweepAll(c, if did in s.lastTopology then s else Ensure(c, s, did, eager), targets[1..], eager)
  }

  function CancelLoops(loops: seq<Loop>, which: set<nat>, n: nat): (r: seq<Loop>)
    requires n <= |loops|
    ensures |r| == n
    ensures forall i: nat | i < n ::
              r[i] == if i in which && loops[i].pc != Done then loops[i].(cancelled := true) else loops[i]
  {
    if n == 0 then []
    else
      var loop := loops[n - 1];
      CancelLoops(loops, which, n - 1)
        + [if n - 1 in which && loop.pc != Done then loop.(cancelled := true) else loop]
  }

  /** `targets` are the configured devices at the time, in the order of their iteration. */
  datatype Action =
    | NoteTopology(dids: set<Did>, targets: seq<Did>, eager: bool)
    | Sweep(targets: seq<Did>, eager: bool)
    | CancelAll
    | CancelOne(loop: nat)
    | Run(loop: nat, live: bool, fails: bool)
    | Tick(seconds: real)

  function Step(c: Config, s: State, a: Action): State {
    match a
    case NoteTopology(dids, targets, eager) => NoteAll(c, s.(lastTopology := dids), targets, dids, eager)
    case Sweep(targets, eager) => SweepAll(c, s, targets, eager)
    case CancelAll => s.(loops := CancelLoops(s.loops, s.slots.Values, |s.loops|), slots := map[])
    case CancelOne(i) => Cancel(s, i)
    case Run(i, live, fails) => Resume(c, s, i, live, fails)
    case Tick(seconds) => if seconds > 0.0 then s.(now := s.now + seconds) else s
  }

  function Reached(c: Config, actions: seq<Action>): State
    decreases |actions|
  {
    if actions == [] then INITIAL
    else Step(c, Reached(c, actions[..|actions| - 1]), actions[|actions| - 1])
  }

  // ---------------------------------------------------------------- what every run keeps

  /** Neither ended nor told to. */
  predicate Live(s: State, i: nat) {
    i < |s.loops| && s.loops[i].pc != Done && !s.loops[i].cancelled
  }

  predicate SlotsHold(s: State) {
    forall did | did in s.slots :: s.slots[did] < |s.loops| && s.loops[s.slots[did]].did == did
  }

  /** A live loop is the one in the slot of its device. */
  ghost predicate Registered(s: State) {
    forall i: nat | Live(s, i) :: s.loops[i].did in s.slots && s.slots[s.loops[i].did] == i
  }

  /** A live loop about to activate has its cooldown behind it. */
  ghost predicate Cooled(c: Config, s: State) {
    forall i: nat | Live(s, i) && s.loops[i].pc.Discover? :: !Cooling(c, s, s.loops[i].did)
  }

  predicate Logged(s: State) {
    && (forall k | 0 <= k < |s.log| ::
          s.log[k].did in s.lastActivation && s.log[k].at <= s.lastActivation[s.log[k].did])
    && (forall did | did in s.lastActivation :: s.lastActivation[did] <= s.now)
  }

  predicate Apart(c: Config, log: seq<Activation>) {
    forall j, k | 0 <= j < k < |log| && log[j].did == log[k].did :: log[k].at - log[j].at >= c.cooldown
  }

  function Count(log: seq<Activation>, i: nat): nat {
    if log == [] then 0
    else Count(log[..|log| - 1], i) + if log[|log| - 1].loop == i then 1 else 0
  }

  /** The most activations a loop can have behind it where it waits. */
  predicate WithinBudget(c: Config, pc: Pc, n: nat) {
    match pc
    case Start => n == 0
    case Grace => n == 0
    case CooldownWait(round) => n <= round < c.maxRounds
    case Discover(round) => n <= round < c.maxRounds
    case Activating(round) => n <= round + 1 <= c.maxRounds
    case Settling(round, _) => n <= round + 1 <= c.maxRounds
    case Backoff(round) => n <= round + 1 <= c.maxRounds
    case Done => n <= c.maxRounds
  }

  ghost predicate Budgeted(c: Config, s: State) {
    && (forall i: nat | i < |s.loops| :: WithinBudget(c, s.loops[i].pc, Count(s.log, i)))
    && (forall k | 0 <= k < |s.log| :: s.log[k].loop < |s.loops|)
  }

  ghost predicate Inv(c: Config, s: State) {
    && SlotsHold(s) && Registered(s) && Cooled(c, s)
    && Logged(s) && Apart(c, s.log) && Budgeted(c, s)
  }

  // ---------------------------------------------------------------- each step keeps it

  /** Changing where one loop waits. */
  lemma SetPcKeeps(c: Config, s: State, i: nat, pc: Pc)
    requires Inv(c, s) && i < |s.loops|
    requires pc == Done || s.loops[i].pc != Done
    requires WithinBudget(c, pc, Count(s.log, i))
    requires pc.Discover? ==> !Cooling(c, s, s.loops[i].did)
    ensures Inv(c, SetPc(s, i, pc))
  {
  }

  lemma SameCooling(c: Config, s: State, t: State, did: Did)
    requires s.now == t.now && s.lastActivation == t.lastActivation
    ensures Cooling(c, s, did) == Cooling(c, t, did)
  {
  }

  /** An ended loop gives up its slot. */
  lemma FreeSlotKeeps(c: Config, s: State, did: Did)
    requires Inv(c, s) && did in s.slots && !Live(s, s.slots[did])
    ensures Inv(c, s.(slots := s.slots - {did}))
  {
  }

  lemma BudgetEnds(c: Config, pc: Pc, n: nat)
    requires WithinBudget(c, pc, n)
    ensures WithinBudget(c, Done, n)
  {
  }

  lemma FinishKeeps(c: Config, s: State, i: nat)
    requires Inv(c, s) && i < |s.loops|
    ensures Inv(c, Finish(s, i)) && Inv(c, SetPc(s, i, Done))
  {
    hide SlotsHold, Registered, Cooled, Logged, Apart, WithinBudget, Count, Cooling;
    BudgetEnds(c, s.loops[i].pc, Count(s.log, i));
    SetPcKeeps(c, s, i, Done);
    var t, did := SetPc(s, i, Done), s.loops[i].did;
    if did in s.slots && s.slots[did] == i {
      FreeSlotKeeps(c, t, did);
    }
  }

  lemma CountAppend(log: seq<Activation>, a: Activation, i: nat)
    ensures Count(log + [a], i) == Count(log, i) + if a.loop == i then 1 else 0
  {
  }

  /** The clock reading that goes with an activation is past the cooldown of the one before. */
  lemma ActivateKeeps(c: Config, s: State, i: nat)
    requires Inv(c, s) && Live(s, i) && s.loops[i].pc.Discover?
    ensures Inv(c, SetPc(Activate(s, i), i, Activating(s.loops[i].pc.round)))
  {
    hide Count;
    var did := s.loops[i].did;
    var t := SetPc(Activate(s, i), i, Activating(s.loops[i].pc.round));
    assert forall j: nat | Live(t, j) :: Live(s, j);
    assert !Cooling(c, s, did);
    assert Budgeted(c, t) by {
      forall j: nat | j < |t.loops| ensures WithinBudget(c, t.loops[j].pc, Count(t.log, j)) {
        CountAppend(s.log, Activation(did, s.now, i), j);
        assert WithinBudget(c, s.loops[j].pc, Count(s.log, j));
      }
    }
    assert Cooled(c, t) by {
      forall j: nat | Live(t, j) && t.loops[j].pc.Discover? ensures !Cooling(c, t, t.loops[j].did) {
        assert Live(s, j) && j != i;
        assert t.loops[j].did != did;
      }
    }
  }

  lemma HeadFits(c: Config, s: State, did: Did, round: nat, n: nat)
    requires n <= round && n <= c.maxRounds
    ensures WithinBudget(c, Head(c, s, did, round), n)
    ensures Head(c, s, did, round).Discover? ==> !Cooling(c, s, did)
  {
  }

  /** Wherever a loop runs on to without activating, it stays within its budget and its cooldown. */
  lemma NextFits(c: Config, s: State, loop: Loop, live: bool, n: nat)
    requires WithinBudget(c, loop.pc, n) && !loop.pc.Discover?
    ensures var next := Next(c, s, loop, live);
            WithinBudget(c, next, n) && (next.Discover? ==> !Cooling(c, s, loop.did))
  {
  }

  lemma ResumeKeeps(c: Config, s: State, i: nat, live: bool, fails: bool)
    requires Inv(c, s)
    ensures Inv(c, Resume(c, s, i, live, fails))
  {
    hide SlotsHold, Registered, Cooled, Logged, Apart, WithinBudget, Count, Cooling, Next, Finish;
    if i < |s.loops| && s.loops[i].pc != Done {
      FinishKeeps(c, s, i);
      var loop := s.loops[i];
      if !loop.cancelled && !fails {
        if loop.pc.Discover? {
          ActivateKeeps(c, s, i);
          NextOfDiscover(c, s, loop, live);
        } else {
          NextFits(c, s, loop, live, Count(s.log, i));
          SetPcKeeps(c, s, i, Next(c, s, loop, live));
        }
      }
    }
  }

  lemma NextOfDiscover(c: Config, s: State, loop: Loop, live: bool)
    requires loop.pc.Discover?
    ensures Next(c, s, loop, live) == Activating(loop.pc.round)
  {
  }

  lemma {:induction false} CountNone(log: seq<Activation>, i: nat, n: nat)
    requires i >= n && forall k | 0 <= k < |log| :: log[k].loop < n
    ensures Count(log, i) == 0
    decreases |log|
  {
    if log != [] { CountNone(log[..|log| - 1], i, n); }
  }

  lemma EnsureKeeps(c: Config, s: State, did: Did, eager: bool)
    requires Inv(c, s)
    ensures Inv(c, Ensure(c, s, did, eager))
  {
    hide Count, Cooling, Apart, Head;
    var n := |s.loops|;
    CountNone(s.log, n, n);
    HeadFits(c, s, did, 0, 0);
    var t := Ensure(c, s, did, eager);
    if t != s {
      assert forall j: nat | Live(t, j) :: Live(s, j) || j == n;
      assert Registered(t) by {
        forall j: nat | Live(t, j) ensures t.loops[j].did in t.slots && t.slots[t.loops[j].did] == j {
          if j < n { assert Live(s, j); }
        }
      }
      assert Cooled(c, t) by {
        forall j: nat | Live(t, j) && t.loops[j].pc.Discover? ensures !Cooling(c, t, t.loops[j].did) {
          SameCooling(c, s, t, t.loops[j].did);
        }
      }
    }
  }

  lemma CancelKeeps(c: Config, s: State, i: nat)
    requires Inv(c, s) && i < |s.loops|
    ensures Inv(c, Cancel(s, i)) && !Live(Cancel(s, i), i)
  {
  }

  lemma NoteOneKeeps(c: Config, s: State, did: Did, dids: set<Did>, eager: bool)
    requires Inv(c, s)
    ensures Inv(c, NoteOne(c, s, did, dids, eager))
  {
    hide Registered, Cooled, Logged, Apart, Budgeted, Ensure;
    EnsureKeeps(c, s, did, eager);
    if did in s.slots {
      var i := s.slots[did];
      CancelKeeps(c, s, i);
      FreeSlotKeeps(c, Cancel(s, i), did);
      assert Cancel(s.(slots := s.slots - {did}), i) == Cancel(s, i).(slots := s.slots - {did});
    }
  }

  lemma {:induction false} NoteAllKeeps(c: Config, s: State, targets: seq<Did>, dids: set<Did>, eager: bool)
    requires Inv(c, s)
    ensures Inv(c, NoteAll(c, s, targets, dids, eager))
    decreases |targets|
  {
    hide Inv, NoteOne;
    if targets != [] {
      NoteOneKeeps(c, s, targets[0], dids, eager);
      NoteAllKeeps(c, NoteOne(c, s, targets[0], dids, eager), targets[1..], dids, eager);
    }
  }

  lemma {:induction false} SweepAllKeeps(c: Config, s: State, targets: seq<Did>, eager: bool)
    requires Inv(c, s)
    ensures Inv(c, SweepAll(c, s, targets, eager))
    decreases |targets|
  {
    hide Inv, Ensure;
    if targets != [] {
      var did := targets[0];
      EnsureKeeps(c, s, did, eager);
      SweepAllKeeps(c, if did in s.lastTopology then s else Ensure(c, s, did, eager), targets[1..], eager);
    }
  }

  /** `cancel_all` leaves no live loop. */
  lemma CancelAllStops(c: Config, s: State, i: nat)
    requires Inv(c, s)
    ensures !Live(Step(c, s, CancelAll), i)
  {
  }

  lemma CancelAllKeeps(c: Config, s: State)
    requires Inv(c, s)
    ensures Inv(c, Step(c, s, CancelAll))
  {
  }

  lemma TickKeeps(c: Config, s: State, seconds: real)
    requires Inv(c, s)
    ensures Inv(c, Step(c, s, Tick(seconds)))
  {
  }

  lemma NoteTopologyIsNoted(c: Config, s: State, dids: set<Did>)
    requires Inv(c, s)
    ensures Inv(c, s.(lastTopology := dids))
  {
  }

  lemma StepKeeps(c: Config, s: State, a: Action)
    requires Inv(c, s)
    ensures Inv(c, Step(c, s, a))
  {
    hide Inv, NoteAll, SweepAll, Resume, Cancel;
    match a
    case NoteTopology(dids, targets, eager) =>
      NoteTopologyIsNoted(c, s, dids);
      NoteAllKeeps(c, s.(lastTopology := dids), targets, dids, eager);
    case Sweep(targets, eager) => SweepAllKeeps(c, s, targets, eager);
    case CancelAll => CancelAllKeeps(c, s);
    case CancelOne(i) =>
      if i < |s.loops| { CancelKeeps(c, s, i); } else { CancelNothing(s, i); }
    case Run(i, live, fails) => ResumeKeeps(c, s, i, live, fails);
    case Tick(seconds) => TickKeeps(c, s, seconds);
  }

  lemma CancelNothing(s: State, i: nat)
    requires i >= |s.loops|
    ensures Cancel(s, i) == s
  {
  }

  lemma {:induction false} ReachedKeeps(c: Config, actions: seq<Action>)
    ensures Inv(c, Reached(c, actions))
    decreases |actions|
  {
    if actions == [] {
      InitialHolds(c);
    } else {
      hide Inv, Step;
      ReachedKeeps(c, actions[..|actions| - 1]);
      StepKeeps(c, Reached(c, actions[..|actions| - 1]), actions[|actions| - 1]);
    }
  }

  lemma InitialHolds(c: Config)
    ensures Inv(c, INITIAL)
  {
  }

  // ---------------------------------------------------------------- the safety of every run

  /** A device has at most one loop that is neither ended nor cancelled. */
  lemma OneLoopPerDevice(c: Config, actions: seq<Action>, i: nat, j: nat)
    requires Live(Reached(c, actions), i) && Live(Reached(c, actions), j)
    requires Reached(c, actions).loops[i].did == Reached(c, actions).loops[j].did
    ensures i == j
  {
    hide Reached;
    ReachedKeeps(c, actions);
  }

  /** Any two activations of one device are a cooldown apart, whichever loops made them. */
  lemma ActivationsApart(c: Config, actions: seq<Action>, j: nat, k: nat)
    requires j < k < |Reached(c, actions).log|
    requires Reached(c, actions).log[j].did == Reached(c, actions).log[k].did
    ensures Reached(c, actions).log[k].at - Reached(c, actions).log[j].at >= c.cooldown
  {
    hide Reached;
    ReachedKeeps(c, actions);
  }

  /** No loop activates more often than it has rounds. */
  lemma LoopBound(c: Config, actions: seq<Action>, i: nat)
    ensures Count(Reached(c, actions).log, i) <= c.maxRounds
  {
    hide Reached, Count;
    ReachedKeeps(c, actions);
    var s := Reached(c, actions);
    if i < |s.loops| {
      BudgetEnds(c, s.loops[i].pc, Count(s.log, i));
    } else {
      CountNone(s.log, i, |s.loops|);
    }
  }

  lemma NoteOneStops(c: Config, s: State, did: Did, dids: set<Did>, eager: bool, i: nat)
    requires Inv(c, s)
    requires i < |NoteOne(c, s, did, dids, eager).loops|
    ensures var t := NoteOne(c, s, did, dids, eager);
            && (i < |s.loops| ==> t.loops[i].did == s.loops[i].did)
            && (t.loops[i].did in dids ==>
                  (Live(t, i) <==> Live(s, i) && t.loops[i].did != did))
  {
  }

  lemma {:induction false} NoteAllStops(c: Config, s: State, targets: seq<Did>, dids: set<Did>, eager: bool, i: nat)
    requires Inv(c, s)
    requires i < |NoteAll(c, s, targets, dids, eager).loops|
    ensures var t := NoteAll(c, s, targets, dids, eager);
            && (i < |s.loops| ==> t.loops[i].did == s.loops[i].did)
            && (t.loops[i].did in dids ==>
                  (Live(t, i) <==> Live(s, i) && t.loops[i].did !in targets))
    decreases |targets|
  {
    hide Inv, NoteOne, Live;
    if targets != [] {
      var u := NoteOne(c, s, targets[0], dids, eager);
      NoteOneKeeps(c, s, targets[0], dids, eager);
      NoteAllStops(c, u, targets[1..], dids, eager, i);
      NotBefore(u, i);
      NotBefore(s, i);
      if i < |u.loops| {
        NoteOneStops(c, s, targets[0], dids, eager, i);
      } else {
        NoteOneGrows(c, s, targets[0], dids, eager);
      }
    }
  }

  lemma NotBefore(s: State, i: nat)
    ensures Live(s, i) ==> i < |s.loops|
  {
  }

  lemma NoteOneGrows(c: Config, s: State, did: Did, dids: set<Did>, eager: bool)
    ensures |NoteOne(c, s, did, dids, eager).loops| >= |s.loops|
  {
  }

  /** Right after a topology push, a loop whose device is in the push lives exactly when it lived
      before and its device is no longer configured. */
  lemma NoteTopologyStops(c: Config, actions: seq<Action>, dids: set<Did>, targets: seq<Did>, eager: bool, i: nat)
    requires i < |Step(c, Reached(c, actions), NoteTopology(dids, targets, eager)).loops|
    ensures var s := Reached(c, actions);
            var t := Step(c, s, NoteTopology(dids, targets, eager));
            t.loops[i].did in dids ==> (Live(t, i) <==> Live(s, i) && t.loops[i].did !in targets)
  {
    hide Reached, NoteAll, Inv;
    var s := Reached(c, actions);
    ReachedKeeps(c, actions);
    NoteTopologyIsNoted(c, s, dids);
    NoteAllStops(c, s.(lastTopology := dids), targets, dids, eager, i);
  }

  /** A loop that has not ended holds the slot of the device. */
  predicate Held(s: State, did: Did) {
    did in s.slots && !Ended(s, s.slots[did])
  }

  lemma NoteOneHolds(c: Config, s: State, did: Did, dids: set<Did>, eager: bool, other: Did)
    requires Inv(c, s) && (c.grace > 0.0 || c.maxRounds > 0) && other !in dids
    ensures Held(s, other) || other == did ==> Held(NoteOne(c, s, did, dids, eager), other)
  {
  }

  lemma {:induction false} NoteAllHolds(c: Config, s: State, targets: seq<Did>, dids: set<Did>, eager: bool, did: Did)
    requires Inv(c, s) && (c.grace > 0.0 || c.maxRounds > 0) && did !in dids
    ensures Held(s, did) || did in targets ==> Held(NoteAll(c, s, targets, dids, eager), did)
    decreases |targets|
  {
    hide Inv, NoteOne, Held;
    if targets != [] {
      var u := NoteOne(c, s, targets[0], dids, eager);
      NoteOneKeeps(c, s, targets[0], dids, eager);
      NoteOneHolds(c, s, targets[0], dids, eager, did);
      NoteAllHolds(c, u, targets[1..], dids, eager, did);
    }
  }

  /** Right after a push, every configured device missing from it has a loop that has not ended. */
  lemma NoteTopologyStarts(c: Config, actions: seq<Action>, dids: set<Did>, targets: seq<Did>, eager: bool, did: Did)
    requires (c.grace > 0.0 || c.maxRounds > 0) && did in targets && did !in dids
    ensures Held(Step(c, Reached(c, actions), NoteTopology(dids, targets, eager)), did)
  {
    hide Reached, NoteAll, Inv, Held;
    ReachedKeeps(c, actions);
    NoteTopologyIsNoted(c, Reached(c, actions), dids);
    NoteAllHolds(c, Reached(c, actions).(lastTopology := dids), targets, dids, eager, did);
  }

  /** `cancel_all` leaves nothing live. */
  lemma CancelAllStopsAll(c: Config, actions: seq<Action>, i: nat)
    ensures !Live(Step(c, Reached(c, actions), CancelAll), i)
  {
    hide Reached, Inv, Step;
    ReachedKeeps(c, actions);
    CancelAllStops(c, Reached(c, actions), i);
  }

  /** A loop that runs touches no slot but its own, and leaves its own exactly when it ends. */
  lemma OnlyOwnSlot(c: Config, s: State, i: nat, live: bool, fails: bool, did: Did)
    requires Inv(c, s) && i < |s.loops| && s.loops[i].pc != Done && s.loops[i].pc != Start
    ensures var t := Resume(c, s, i, live, fails);
            && (did in t.slots ==> did in s.slots && t.slots[did] == s.slots[did])
            && (did in s.slots && did !in t.slots <==>
                  did in s.slots && s.slots[did] == i && t.loops[i].pc == Done)
  {
  }

  /** The loops in the slots of some devices have been cancelled, the others are as before. */
  predicate Cancelled(before: seq<Loop>, loops: seq<Loop>, tasks: map<Did, nat>, devices: set<Did>) {
    |loops| == |before|
    && forall i | 0 <= i < |loops| ::
         loops[i] == if before[i].pc != Done && (exists did | did in devices :: did in tasks && tasks[did] == i)
                     then before[i].(cancelled := true) else before[i]
  }

  lemma NoneCancelled(loops: seq<Loop>, tasks: map<Did, nat>)
    ensures Cancelled(loops, loops, tasks, {})
  {
  }

  lemma CancelledOne(before: seq<Loop>, s: State, i: nat, tasks: map<Did, nat>, devices: set<Did>, did: Did)
    requires Cancelled(before, s.loops, tasks, devices) && did in tasks && tasks[did] == i
    ensures Cancelled(before, Cancel(s, i).loops, tasks, devices + {did})
  {
  }

  lemma AllCancelled(before: seq<Loop>, loops: seq<Loop>, tasks: map<Did, nat>)
    requires Cancelled(before, loops, tasks, tasks.Keys)
    ensures loops == CancelLoops(before, tasks.Values, |before|)
  {
  }

  lemma InvSlots(c: Config, s: State)
    requires Inv(c, s)
    ensures SlotsHold(s)
  {
  }

  // ---------------------------------------------------------------- the class

  class RearmManager {
    const config: Config
    var tasks: map<Did, nat>
    var lastActivation: map<Did, real>
    var lastTopology: set<Did>
    /** The event loop's side: the tasks it was given, its clock, and what they activated. */
    var loops: seq<Loop>
    var now: real
    ghost var log: seq<Activation>

    ghost function View(): State
      reads this
    {
      State(tasks, lastActivation, lastTopology, loops, now, log)
    }

    constructor (config: Config)
      ensures this.config == config && View() == INITIAL
    {
      this.config := config;
      tasks, lastActivation, lastTopology, loops, now, log := map[], map[], {}, [], 0.0, [];
    }

    method NoteTopology(dids: set<Did>, targets: seq<Did>, eager: bool)
      requires Inv(config, View())
      modifies this
      ensures View() == Step(config, old(View()), Action.NoteTopology(dids, targets, eager))
      ensures Inv(config, View())
    {
      hide Inv, NoteOne;
      StepKeeps(config, View(), Action.NoteTopology(dids, targets, eager));
      NoteTopologyIsNoted(config, View(), dids);
      lastTopology := dids;
      ghost var s := View();
      assert targets[0..] == targets;
      for i := 0 to |targets|
        invariant Inv(config, View())
        invariant NoteAll(config, View(), targets[i..], dids, eager) == NoteAll(config, s, targets, dids, eager)
      {
        assert targets[i..][1..] == targets[i + 1..];
        NoteOneKeeps(config, View(), targets[i], dids, eager);
        InvSlots(config, View());
        NoteTarget(targets[i], dids, eager);
      }
    }

    method NoteTarget(did: Did, dids: set<Did>, eager: bool)
      requires SlotsHold(View())
      modifies this
      ensures View() == NoteOne(config, old(View()), did, dids, eager)
    {
      if did in dids {
        if did in tasks {
          var task := tasks[did];
          tasks := tasks - {did};
          CancelTask(task);
        }
      } else {
        EnsureRearm(did, eager);
      }
    }

    /** `task.cancel()` unless the task is done. */
    method CancelTask(task: nat)
      modifies this`loops
      ensures View() == Cancel(old(View()), task)
    {
      if task < |loops| && loops[task].pc != Done {
        loops := loops[task := loops[task].(cancelled := true)];
      }
    }

    method Sweep(targets: seq<Did>, eager: bool)
      modifies this
      ensures View() == Step(config, old(View()), Action.Sweep(targets, eager))
    {
      hide Ensure;
      ghost var s := View();
      assert targets[0..] == targets;
      for i := 0 to |targets|
        invariant SweepAll(config, View(), targets[i..], eager) == SweepAll(config, s, targets, eager)
      {
        assert targets[i..][1..] == targets[i + 1..];
        if targets[i] !in lastTopology {
          EnsureRearm(targets[i], eager);
        }
      }
    }

    method CancelAll()
      modifies this
      ensures View() == Step(config, old(View()), Action.CancelAll)
    {
      hide Cancelled, CancelLoops, Cancel;
      ghost var before := loops;
      var left := tasks.Keys;
      NoneCancelled(before, tasks);
      assert tasks.Keys - left == {};
      while left != {}
        invariant left <= tasks.Keys && unchanged(`tasks, `lastActivation, `lastTopology, `now, `log)
        invariant Cancelled(before, loops, tasks, tasks.Keys - left)
        decreases |left|
      {
        var did :| did in left;
        CancelledOne(before, View(), tasks[did], tasks, tasks.Keys - left, did);
        assert tasks.Keys - (left - {did}) == (tasks.Keys - left) + {did};
        left := left - {did};
        CancelTask(tasks[did]);
      }
      assert tasks.Keys - left == tasks.Keys;
      AllCancelled(before, loops, tasks);
      tasks := map[];
    }

    /** Where a new loop comes to rest when it runs at once. */
    method FirstStretch(did: Did) returns (pc: Pc)
      ensures pc == First(config, View(), did)
    {
      if config.grace > 0.0 { return Grace; }
      if config.maxRounds == 0 { return Done; }
      pc := if did in lastActivation && now - lastActivation[did] < config.cooldown
      then CooldownWait(0) else Discover(0);
    }

    method EnsureRearm(did: Did, eager: bool)
      modifies this
      ensures View() == Ensure(config, old(View()), did, eager)
    {
      hide First;
      if did in tasks {
        var existing := tasks[did];
        if existing < |loops| && loops[existing].pc != Done { return; }
      }
      var pc := Start;
      if eager { pc := FirstStretch(did); }
      loops := loops + [Loop(did, pc, false)];
      tasks := tasks[did := |loops| - 1];
    }

    /** `_rearm_loop` from where it waits to where it waits next. */
    method RearmLoop(i: nat, live: bool, fails: bool)
      requires Inv(config, View()) && i < |loops| && loops[i].pc != Done
      modifies this
      ensures View() == Step(config, old(View()), Run(i, live, fails))
      ensures Inv(config, View())
    {
      hide Inv, Finish, Head;
      StepKeeps(config, View(), Run(i, live, fails));
      var did := loops[i].did;
      if loops[i].cancelled || fails {
        if loops[i].pc == Start { Wait(i, Done); } else { End(i); }
        return;
      }
      match loops[i].pc {
        case Start =>
          if config.grace > 0.0 { Wait(i, Grace); } else { RoundHead(i, 0); }
        case Grace =>
          if live { End(i); } else { RoundHead(i, 0); }
        case CooldownWait(round) =>
          if live { End(i); } else { RoundHead(i, round + 1); }
        case Discover(round) =>
          NextOfDiscover(config, View(), loops[i], live);
          lastActivation := lastActivation[did := now];
          log := log + [Activation(did, now, i)];
          Wait(i, Activating(round));
        case Activating(round) => WaitForTopology(i, round, 0.0, live);
        case Settling(round, waited) => WaitForTopology(i, round, waited + config.poll, live);
        case Backoff(round) => RoundHead(i, round + 1);
      }
    }

    method Wait(i: nat, pc: Pc)
      requires i < |loops|
      modifies this`loops
      ensures View() == SetPc(old(View()), i, pc)
    {
      loops := loops[i := loops[i].(pc := pc)];
    }

    method End(i: nat)
      requires i < |loops|
      modifies this
      ensures View() == Finish(old(View()), i)
    {
      var did := loops[i].did;
      if did in tasks && tasks[did] == i { tasks := tasks - {did}; }
      Wait(i, Done);
    }

    method RoundHead(i: nat, round: nat)
      requires i < |loops|
      modifies this
      ensures View() == MoveTo(old(View()), i, Head(config, old(View()), old(loops[i].did), round))
    {
      var did := loops[i].did;
      if round >= config.maxRounds {
        End(i);
      } else if did in lastActivation && now - lastActivation[did] < config.cooldown {
        Wait(i, CooldownWait(round));
      } else {
        Wait(i, Discover(round));
      }
    }

    /** One look of `_wait_for_topology` at the live topology. */
    method WaitForTopology(i: nat, round: nat, waited: real, live: bool)
      requires i < |loops|
      modifies this
      ensures View() == MoveTo(old(View()), i, Polling(config, round, waited, live))
    {
      if live {
        End(i);
      } else if waited < config.settle {
        Wait(i, Settling(round, waited));
      } else {
        Wait(i, Backoff(round));
      }
    }
  }
}
