/** What a re-arm loop does when it is resumed, round by round: when it ends, when it activates, and
    what it has done with every round when it gives up. */
module RearmProgress {
  import opened Bytes
  import opened Rearm

  // ---------------------------------------------------------------- one resumption

  /** Where the loop, resumed, looks whether its device is back: after the grace, after waiting for
      the cooldown, and while the activation settles. */
  predicate Looks(pc: Pc) {
    pc.Grace? || pc.CooldownWait? || pc.Activating? || pc.Settling?
  }

  /** The round whose head the loop comes to, if it runs on to one. */
  function RoundAhead(c: Config, pc: Pc): Option<nat> {
    match pc
    case Start => if c.grace > 0.0 then None else Some(0)
    case Grace => Some(0)
    case CooldownWait(round) => Some(round + 1)
    case Backoff(round) => Some(round + 1)
    case _ => None
  }

  predicate Active(s: State, i: nat) {
    i < |s.loops| && s.loops[i].pc != Done && !s.loops[i].cancelled
  }

  /** A loop that is neither cancelled nor failing ends exactly if it sees its device back or its
      rounds are spent. */
  lemma EndsIff(c: Config, s: State, i: nat, live: bool)
    requires Active(s, i)
    ensures var pc, t := s.loops[i].pc, Step(c, s, Run(i, live, false));
            && |t.loops| == |s.loops|
            && (t.loops[i].pc == Done
                <==> || (live && Looks(pc))
                     || (RoundAhead(c, pc).Some? && RoundAhead(c, pc).value >= c.maxRounds))
  {
  }

  /** A cancelled or failing loop ends without activating. */
  lemma StopsAtOnce(c: Config, s: State, i: nat, live: bool, fails: bool)
    requires i < |s.loops| && s.loops[i].pc != Done && (s.loops[i].cancelled || fails)
    ensures var t := Step(c, s, Run(i, live, fails));
            |t.loops| == |s.loops| && t.loops[i].pc == Done && t.log == s.log && t.lastActivation == s.lastActivation
  {
  }

  /** Where a loop that does not end comes to rest, and what the resumption leaves behind: only a
      loop that has come through discovery activates, and no resumption touches another loop. */
  lemma RunsOnTo(c: Config, s: State, i: nat, live: bool)
    requires Active(s, i) && Step(c, s, Run(i, live, false)).loops[i].pc != Done
    ensures var loop, t := s.loops[i], Step(c, s, Run(i, live, false));
            var recent := loop.did in s.lastActivation && s.now - s.lastActivation[loop.did] < c.cooldown;
            var next := t.loops[i].pc;
            && (RoundAhead(c, loop.pc).Some? ==>
                  var round := RoundAhead(c, loop.pc).value;
                  next == if recent then CooldownWait(round) else Discover(round))
            && (loop.pc.Start? && c.grace > 0.0 ==> next == Grace)
            && (loop.pc.Discover? ==> next == Activating(loop.pc.round))
            && (loop.pc.Activating? ==>
                  next == if 0.0 < c.settle then Settling(loop.pc.round, 0.0) else Backoff(loop.pc.round))
            && (loop.pc.Settling? ==>
                  var waited := loop.pc.waited + c.poll;
                  next == if waited < c.settle then Settling(loop.pc.round, waited) else Backoff(loop.pc.round))
    ensures var loop, t := s.loops[i], Step(c, s, Run(i, live, false));
            && t.log == (if loop.pc.Discover? then s.log + [Activation(loop.did, s.now, i)] else s.log)
            && t.lastActivation
               == (if loop.pc.Discover? then s.lastActivation[loop.did := s.now] else s.lastActivation)
            && forall j | 0 <= j < |s.loops| && j != i :: t.loops[j] == s.loops[j]
  {
  }

  // ---------------------------------------------------------------- the other steps

  function From(c: Config, s: State, actions: seq<Action>): State
    decreases |actions|
  {
    if actions == [] then s
    else Step(c, From(c, s, actions[..|actions| - 1]), actions[|actions| - 1])
  }

  predicate Runs(a: Action, i: nat) {
    a.Run? && a.loop == i
  }

  /** The loop is where it was and has activated as often as before. */
  predicate Untouched(s: State, t: State, i: nat) {
    && i < |s.loops| <= |t.loops| && t.loops[i].did == s.loops[i].did && t.loops[i].pc == s.loops[i].pc
    && Count(t.log, i) == Count(s.log, i)
  }

  /** A loop started between two states: not a round entered yet, but for a cooldown met at once. */
  predicate FreshLoop(s: State, t: State, i: nat) {
    |s.loops| <= i < |t.loops| && t.log == s.log
    && var pc := t.loops[i].pc;
       pc == Start || pc == Grace || pc == CooldownWait(0) || pc == Discover(0) || pc == Done
  }

  predicate OldOrFresh(s: State, t: State, i: nat) {
    if i < |s.loops| then Untouched(s, t, i) else |s.loops| <= |t.loops| && (i < |t.loops| ==> FreshLoop(s, t, i))
  }

  lemma NoteOneOthers(c: Config, s: State, did: Did, dids: set<Did>, eager: bool, i: nat)
    ensures OldOrFresh(s, NoteOne(c, s, did, dids, eager), i) && NoteOne(c, s, did, dids, eager).log == s.log
  {
  }

  lemma EnsureOthers(c: Config, s: State, did: Did, eager: bool, i: nat)
    ensures OldOrFresh(s, Ensure(c, s, did, eager), i) && Ensure(c, s, did, eager).log == s.log
  {
  }

  lemma Chains(s: State, t: State, u: State, i: nat)
    requires OldOrFresh(s, t, i) && OldOrFresh(t, u, i) && s.log == t.log == u.log
    ensures OldOrFresh(s, u, i)
  {
  }

  lemma {:induction false} NoteAllOthers(c: Config, s: State, targets: seq<Did>, dids: set<Did>, eager: bool, i: nat)
    ensures OldOrFresh(s, NoteAll(c, s, targets, dids, eager), i) && NoteAll(c, s, targets, dids, eager).log == s.log
    decreases |targets|
  {
    if targets != [] {
      hide NoteOne, OldOrFresh;
      var t := NoteOne(c, s, targets[0], dids, eager);
      NoteOneOthers(c, s, targets[0], dids, eager, i);
      NoteAllOthers(c, t, targets[1..], dids, eager, i);
      Chains(s, t, NoteAll(c, s, targets, dids, eager), i);
    }
  }

  lemma {:induction false} SweepAllOthers(c: Config, s: State, targets: seq<Did>, eager: bool, i: nat)
    ensures OldOrFresh(s, SweepAll(c, s, targets, eager), i) && SweepAll(c, s, targets, eager).log == s.log
    decreases |targets|
  {
    if targets != [] {
      hide Ensure;
      var t := if targets[0] in s.lastTopology then s else Ensure(c, s, targets[0], eager);
      EnsureOthers(c, s, targets[0], eager, i);
      SweepAllOthers(c, t, targets[1..], eager, i);
      Chains(s, t, SweepAll(c, s, targets, eager), i);
    }
  }

  lemma RunOthers(c: Config, s: State, j: nat, live: bool, fails: bool, i: nat)
    requires i != j
    ensures OldOrFresh(s, Resume(c, s, j, live, fails), i)
  {
    hide Next, Count;
    if j < |s.loops| { CountAppend(s.log, Activation(s.loops[j].did, s.now, j), i); }
  }

  /** No step but its own resumption moves a loop or adds to its activations. */
  lemma StepOthers(c: Config, s: State, a: Action, i: nat)
    requires !Runs(a, i)
    ensures OldOrFresh(s, Step(c, s, a), i)
  {
    hide NoteAll, SweepAll, Resume, Count;
    match a
    case NoteTopology(dids, targets, eager) =>
      NoteAllOthers(c, s.(lastTopology := dids), targets, dids, eager, i);
    case Sweep(targets, eager) => SweepAllOthers(c, s, targets, eager, i);
    case CancelAll =>
    case CancelOne(j) =>
    case Run(j, live, fails) => RunOthers(c, s, j, live, fails, i);
    case Tick(seconds) =>
  }

  lemma {:induction false} FromOthers(c: Config, s: State, between: seq<Action>, i: nat)
    requires i < |s.loops| && forall k | 0 <= k < |between| :: !Runs(between[k], i)
    ensures Untouched(s, From(c, s, between), i)
    decreases |between|
  {
    if between != [] {
      hide Step;
      var n := |between| - 1;
      FromOthers(c, s, between[..n], i);
      StepOthers(c, From(c, s, between[..n]), between[n], i);
    }
  }

  // ---------------------------------------------------------------- one activation a round

  /** A loop that comes to the head of a round it still has, without its device back and without an
      activation of it inside the cooldown, activates it exactly once in its next two resumptions,
      whatever else happens between them, unless it is cancelled before the second. */
  lemma RoundActivates(c: Config, s: State, i: nat, live: bool, between: seq<Action>, later: bool)
    requires Active(s, i) && !(live && Looks(s.loops[i].pc))
    requires RoundAhead(c, s.loops[i].pc).Some? && RoundAhead(c, s.loops[i].pc).value < c.maxRounds
    requires var did := s.loops[i].did; did in s.lastActivation ==> s.now - s.lastActivation[did] >= c.cooldown
    requires forall k | 0 <= k < |between| :: !Runs(between[k], i)
    requires Active(From(c, Step(c, s, Run(i, live, false)), between), i)
    ensures var u := From(c, Step(c, s, Run(i, live, false)), between);
            var t := Step(c, u, Run(i, later, false));
            && t.log == u.log + [Activation(s.loops[i].did, u.now, i)]
            && Count(t.log, i) == Count(s.log, i) + 1
  {
    hide Step, Count, From;
    EndsIff(c, s, i, live);
    RunsOnTo(c, s, i, live);
    var first := Step(c, s, Run(i, live, false));
    assert first.loops[i].did == s.loops[i].did by { SameDevice(c, s, i, live); }
    FromOthers(c, first, between, i);
    var u := From(c, first, between);
    EndsIff(c, u, i, later);
    RunsOnTo(c, u, i, later);
    CountAppend(u.log, Activation(s.loops[i].did, u.now, i), i);
  }

  lemma SameDevice(c: Config, s: State, i: nat, live: bool)
    requires i < |s.loops|
    ensures var t := Step(c, s, Run(i, live, false)); i < |t.loops| && t.loops[i].did == s.loops[i].did
  {
    hide Next;
  }

  // ---------------------------------------------------------------- every round accounted for

  /** The step has sent the loop to wait for the cooldown. */
  predicate EntersWait(s: State, t: State, i: nat) {
    i < |t.loops| && t.loops[i].pc.CooldownWait? && (i < |s.loops| ==> s.loops[i].pc != t.loops[i].pc)
  }

  /** How often a loop has waited for the cooldown. */
  function Waits(c: Config, actions: seq<Action>, i: nat): nat
    decreases |actions|
  {
    if actions == [] then 0
    else
      var before := actions[..|actions| - 1];
      Waits(c, before, i) + if EntersWait(Reached(c, before), Reached(c, actions), i) then 1 else 0
  }

  /** The rounds a loop has used up where it waits. */
  function Used(pc: Pc): nat {
    match pc
    case Start => 0
    case Grace => 0
    case CooldownWait(round) => round + 1
    case Discover(round) => round
    case Activating(round) => round + 1
    case Settling(round, _) => round + 1
    case Backoff(round) => round + 1
    case Done => 0
  }

  lemma RunUses(c: Config, s: State, i: nat, live: bool, fails: bool)
    requires i < |s.loops| && Resume(c, s, i, live, fails).loops[i].pc != Done
    ensures s.loops[i].pc != Done
    ensures var t := Resume(c, s, i, live, fails);
            Used(t.loops[i].pc) == Used(s.loops[i].pc)
                                   + (if EntersWait(s, t, i) then 1 else 0) + Count(t.log, i) - Count(s.log, i)
  {
    hide Count;
    CountAppend(s.log, Activation(s.loops[i].did, s.now, i), i);
  }

  lemma {:induction false} NoWaitsYet(c: Config, actions: seq<Action>, i: nat)
    requires i >= |Reached(c, actions).loops|
    ensures Waits(c, actions, i) == 0
    decreases |actions|
  {
    if actions != [] {
      hide Step;
      var n := |actions| - 1;
      var s, a := Reached(c, actions[..n]), actions[n];
      if Runs(a, i) { RunOfNothing(c, s, a); } else { StepOthers(c, s, a, i); }
      NoWaitsYet(c, actions[..n], i);
    }
  }

  lemma RunOfNothing(c: Config, s: State, a: Action)
    requires a.Run?
    ensures |Step(c, s, a).loops| == |s.loops| && (a.loop >= |s.loops| ==> Step(c, s, a) == s)
  {
  }

  /** In every run, a loop that has not ended has spent each round it has used either on one
      activation or on one wait for the cooldown. */
  lemma {:induction false} RoundsAccounted(c: Config, actions: seq<Action>, i: nat)
    requires i < |Reached(c, actions).loops| && Reached(c, actions).loops[i].pc != Done
    ensures Count(Reached(c, actions).log, i) + Waits(c, actions, i) == Used(Reached(c, actions).loops[i].pc)
    decreases |actions|
  {
    if actions != [] {
      hide Step, Count, Inv;
      var n := |actions| - 1;
      var s, a := Reached(c, actions[..n]), actions[n];
      var t := Step(c, s, a);
      if Runs(a, i) {
        RunOfNothing(c, s, a);
        ResumeIsStep(c, s, a);
        RunUses(c, s, i, a.live, a.fails);
        RoundsAccounted(c, actions[..n], i);
      } else {
        StepOthers(c, s, a, i);
        if i < |s.loops| {
          RoundsAccounted(c, actions[..n], i);
        } else {
          ReachedKeeps(c, actions[..n]);
          NothingLogged(c, s, i);
          NoWaitsYet(c, actions[..n], i);
        }
      }
    }
  }

  lemma ResumeIsStep(c: Config, s: State, a: Action)
    requires a.Run?
    ensures Step(c, s, a) == Resume(c, s, a.loop, a.live, a.fails)
  {
  }

  lemma NothingLogged(c: Config, s: State, i: nat)
    requires Inv(c, s) && i >= |s.loops|
    ensures Count(s.log, i) == 0
  {
    CountNone(s.log, i, |s.loops|);
  }

  /** A loop that gives up, its device still away, has spent exactly `max_rounds` rounds: so many
      activations and waits for the cooldown together, in any run. */
  lemma GivesUpSpent(c: Config, actions: seq<Action>, i: nat, live: bool)
    requires Active(Reached(c, actions), i) && !(live && Looks(Reached(c, actions).loops[i].pc))
    requires Step(c, Reached(c, actions), Run(i, live, false)).loops[i].pc == Done
    ensures Count(Reached(c, actions).log, i) + Waits(c, actions, i) == c.maxRounds
  {
    hide Reached, Step, Count, Waits;
    var s := Reached(c, actions);
    EndsIff(c, s, i, live);
    RoundsAccounted(c, actions, i);
    ReachedKeeps(c, actions);
    RoundInBudget(c, s, i);
  }

  lemma RoundInBudget(c: Config, s: State, i: nat)
    requires Inv(c, s) && i < |s.loops|
    ensures s.loops[i].pc.CooldownWait? || s.loops[i].pc.Backoff? ==> s.loops[i].pc.round < c.maxRounds
  {
    hide Count;
    assert WithinBudget(c, s.loops[i].pc, Count(s.log, i));
  }

  // ---------------------------------------------------------------- the sweep

  /** The devices of the latest push of a run. */
  function LatestPush(actions: seq<Action>): set<Did>
    decreases |actions|
  {
    if actions == [] then {}
    else
      var a := actions[|actions| - 1];
      if a.NoteTopology? then a.dids else LatestPush(actions[..|actions| - 1])
  }

  lemma {:induction false} NoteAllTopology(c: Config, s: State, targets: seq<Did>, dids: set<Did>, eager: bool)
    ensures NoteAll(c, s, targets, dids, eager).lastTopology == s.lastTopology
    decreases |targets|
  {
    if targets != [] {
      NoteAllTopology(c, NoteOne(c, s, targets[0], dids, eager), targets[1..], dids, eager);
    }
  }

  lemma {:induction false} SweepAllTopology(c: Config, s: State, targets: seq<Did>, eager: bool)
    ensures SweepAll(c, s, targets, eager).lastTopology == s.lastTopology
    decreases |targets|
  {
    if targets != [] {
      var t := if targets[0] in s.lastTopology then s else Ensure(c, s, targets[0], eager);
      SweepAllTopology(c, t, targets[1..], eager);
    }
  }

  lemma TopologyStep(c: Config, s: State, a: Action)
    ensures Step(c, s, a).lastTopology == if a.NoteTopology? then a.dids else s.lastTopology
  {
    hide NoteAll, SweepAll, Next;
    match a
    case NoteTopology(dids, targets, eager) =>
      NoteAllTopology(c, s.(lastTopology := dids), targets, dids, eager);
    case Sweep(targets, eager) => SweepAllTopology(c, s, targets, eager);
    case _ =>
  }

  /** What a sweep goes by is the latest push, whatever happened since. */
  lemma {:induction false} SweepsByLatestPush(c: Config, actions: seq<Action>)
    ensures Reached(c, actions).lastTopology == LatestPush(actions)
    decreases |actions|
  {
    if actions != [] {
      hide Step;
      var n := |actions| - 1;
      SweepsByLatestPush(c, actions[..n]);
      TopologyStep(c, Reached(c, actions[..n]), actions[n]);
    }
  }

  /** What a sweep may have done so far: the old loops are as they were, every new one is for a
      swept device missing from the last topology, and so is every slot that changed. */
  ghost predicate SweptFrom(s: State, t: State, targets: seq<Did>) {
    && t.lastTopology == s.lastTopology && |s.loops| <= |t.loops| && t.loops[..|s.loops|] == s.loops
    && (forall j | |s.loops| <= j < |t.loops| :: t.loops[j].did in targets && t.loops[j].did !in s.lastTopology)
    && (forall did: Did | did !in targets || did in s.lastTopology ::
          (did in t.slots <==> did in s.slots) && (did in s.slots ==> t.slots[did] == s.slots[did]))
  }

  lemma EnsureSweeps(c: Config, s: State, did: Did, eager: bool)
    requires did !in s.lastTopology
    ensures SweptFrom(s, Ensure(c, s, did, eager), [did])
    ensures SlotsHold(s) ==> SlotsHold(Ensure(c, s, did, eager))
  {
    hide First;
  }

  lemma SweepChains(s: State, t: State, u: State, did: Did, targets: seq<Did>)
    requires SweptFrom(s, t, [did]) && SweptFrom(t, u, targets)
    ensures SweptFrom(s, u, [did] + targets)
  {
    assert u.loops[..|s.loops|] == u.loops[..|t.loops|][..|s.loops|];
    forall j | |s.loops| <= j < |u.loops|
      ensures u.loops[j].did in [did] + targets && u.loops[j].did !in s.lastTopology
    {
      if j < |t.loops| { assert u.loops[..|t.loops|][j] == t.loops[j]; }
    }
  }

  lemma EnsureHolds(c: Config, s: State, did: Did, eager: bool, other: Did)
    requires SlotsHold(s) && (c.grace > 0.0 || c.maxRounds > 0)
    ensures Held(s, other) || other == did ==> Held(Ensure(c, s, did, eager), other)
  {
  }

  /** After a sweep every configured device missing from the last topology has a loop that has not
      ended; no loop is started and no slot changed for any other device, and no loop is touched. */
  lemma {:induction false} SweepStarts(c: Config, s: State, targets: seq<Did>, eager: bool)
    requires SlotsHold(s)
    ensures SlotsHold(Step(c, s, Sweep(targets, eager))) && SweptFrom(s, Step(c, s, Sweep(targets, eager)), targets)
    ensures c.grace > 0.0 || c.maxRounds > 0 ==>
              forall did: Did | did in targets && did !in s.lastTopology ::
                Held(Step(c, s, Sweep(targets, eager)), did)
    decreases |targets|
  {
    if targets != [] {
      hide Ensure, SlotsHold, Held;
      var did := targets[0];
      var t := if did in s.lastTopology then s else Ensure(c, s, did, eager);
      if did !in s.lastTopology { EnsureSweeps(c, s, did, eager); }
      SweepStarts(c, t, targets[1..], eager);
      var u := Step(c, s, Sweep(targets, eager));
      assert u == Step(c, t, Sweep(targets[1..], eager));
      SweepChains(s, t, u, did, targets[1..]);
      assert targets == [did] + targets[1..];
      if c.grace > 0.0 || c.maxRounds > 0 {
        EnsureHolds(c, s, did, eager, did);
        if did !in s.lastTopology {
          assert Held(t, did);
          SweepHolds(c, t, targets[1..], eager, did);
        }
      }
    }
  }

  lemma {:induction false} SweepHolds(c: Config, s: State, targets: seq<Did>, eager: bool, did: Did)
    requires SlotsHold(s) && (c.grace > 0.0 || c.maxRounds > 0) && Held(s, did)
    ensures Held(SweepAll(c, s, targets, eager), did)
    decreases |targets|
  {
    if targets != [] {
      hide Ensure, SlotsHold, Held;
      var t := if targets[0] in s.lastTopology then s else Ensure(c, s, targets[0], eager);
      EnsureHolds(c, s, targets[0], eager, did);
      if targets[0] !in s.lastTopology { EnsureSweeps(c, s, targets[0], eager); }
      SweepHolds(c, t, targets[1..], eager, did);
    }
  }
}
