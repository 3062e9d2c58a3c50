/** The stall watchdog and the coalesced re-arm pass of `__init__.py`, interleaved at every await. */
module Watchdog {
  import opened Bytes

  const TTL := 300.0

  const THRESHOLD: nat := 3

  /** How a cloud call ends; `OtherError` is any exception but the rejection of the token, and a
      cancellation. */
  datatype Outcome = Good | AuthError | OtherError

  /** One run of `_rearm_subscriptions` that got past its guards: the calls still to make, whether
      the cloud has rejected the token, how often re-authentication was started, and how the calls
      made so far ended. A pass awaited by a watchdog tick hands back to it. */
  datatype Pass = Pass(left: nat, authFailed: bool, reauths: nat, calls: seq<Outcome>, byTick: bool, running: bool)

  /** A re-arm of the watchdog, with the pass it started, if it started one; or a healthy tick. */
  datatype Event = Rearmed(at: real, pass: Option<nat>) | Healthy

  /** The runtime data the watchdog uses, the Repair, the clock, every pass, and what happened. */
  datatype State = State(
    count: nat,
    lastRearm: real,
    inFlight: bool,
    repair: bool,
    now: real,
    passes: seq<Pass>,
    log: seq<Event>)

  const INITIAL := State(0, 0.0, false, false, 0.0, [], [])

  // ---------------------------------------------------------------- the steps

  /** `_push_appears_stalled`. */
  predicate AppearsStalled(connected: bool, topologySize: nat, sinceReport: real) {
    connected && topologySize > 0 && sinceReport > TTL
  }

  /** `_rearm_subscriptions` up to its first await; `targets` is 0 where the cloud session or the
      targets are missing. */
  function StartPass(s: State, targets: nat, byTick: bool): State {
    if targets == 0 || s.inFlight then s
    else s.(inFlight := true, passes := s.passes + [Pass(targets, false, 0, [], byTick, true)])
  }

  function Escalate(s: State): State {
    if s.count >= THRESHOLD then s.(repair := true) else s
  }

  /** `_watchdog_tick` up to its first await, or to its end where the pass does not wait. */
  function Tick(s: State, stalled: bool, targets: nat): State {
    if !stalled then
      var t := s.(log := s.log + [Healthy]);
      if s.count > 0 then t.(count := 0, repair := false) else t
    else if s.count >= THRESHOLD || s.now - s.lastRearm < TTL then s
    else
      var starts := targets > 0 && !s.inFlight;
      var t := Attempt(s, if starts then Some(|s.passes|) else None);
      if starts then StartPass(t, targets, true) else Escalate(t)
  }

  function Attempt(s: State, pass: Option<nat>): State {
    s.(lastRearm := s.now, count := s.count + 1, log := s.log + [Rearmed(s.now, pass)])
  }

  /** The `finally` of a pass, and what the tick does after it. */
  function EndPass(s: State, p: nat, raised: bool): State
    requires p < |s.passes|
  {
    var t := s.(inFlight := false, passes := s.passes[p := s.passes[p].(running := false)]);
    if s.passes[p].byTick && !raised then Escalate(t) else t
  }

  /** The rest of the loop: with the token rejected no further call is awaited. */
  function RunOn(s: State, p: nat): State
    requires p < |s.passes|
    decreases s.passes[p].left
  {
    var pass := s.passes[p];
    if pass.left == 0 then EndPass(s, p, false)
    else if pass.authFailed then RunOn(s.(passes := s.passes[p := pass.(left := pass.left - 1)]), p)
    else s
  }

  /** The awaited cloud call of a pass is over. */
  function CallDone(s: State, p: nat, o: Outcome): State {
    if p >= |s.passes| || !s.passes[p].running || s.passes[p].left == 0 then s
    else
      var pass := s.passes[p].(left := s.passes[p].left - 1, calls := s.passes[p].calls + [o]);
      match o
      case Good => RunOn(s.(passes := s.passes[p := pass]), p)
      case AuthError =>
        RunOn(s.(passes := s.passes[p := pass.(authFailed := true, reauths := pass.reauths + 1)]), p)
      case OtherError => EndPass(s.(passes := s.passes[p := pass]), p, true)
  }

  datatype Action =
    | WatchdogTick(connected: bool, topologySize: nat, sinceReport: real, targets: nat)
    | Rearm(targets: nat)
    | CloudCall(pass: nat, outcome: Outcome)
    | Wait(seconds: real)

  function Step(s: State, a: Action): State {
    match a
    case WatchdogTick(connected, size, since, targets) => Tick(s, AppearsStalled(connected, size, since), targets)
    case Rearm(targets) => StartPass(s, targets, false)
    case CloudCall(p, o) => CallDone(s, p, o)
    case Wait(seconds) => if seconds > 0.0 then s.(now := s.now + seconds) else s
  }

  function Reached(actions: seq<Action>): State
    decreases |actions|
  {
    if actions == [] then INITIAL
    else Step(Reached(actions[..|actions| - 1]), actions[|actions| - 1])
  }

  // ---------------------------------------------------------------- what every run keeps

  /** Re-arms since the last healthy tick. */
  function Unanswered(log: seq<Event>): nat {
    if log == [] || log[|log| - 1].Healthy? then 0 else 1 + Unanswered(log[..|log| - 1])
  }

  predicate OneAtATime(s: State) {
    && (s.inFlight <==> exists p :: 0 <= p < |s.passes| && s.passes[p].running)
    && (forall p, q | 0 <= p < q < |s.passes| :: !(s.passes[p].running && s.passes[q].running))
  }

  predicate PassHolds(pass: Pass) {
    && (pass.authFailed <==> AuthError in pass.calls)
    && pass.reauths == (if pass.authFailed then 1 else 0)
    && (pass.running ==> pass.left > 0 && !pass.authFailed && OtherError !in pass.calls)
  }

  predicate PassesHold(s: State) {
    forall p | 0 <= p < |s.passes| :: PassHolds(s.passes[p])
  }

  predicate Spaced(log: seq<Event>) {
    forall i, j | 0 <= i < j < |log| && log[i].Rearmed? && log[j].Rearmed? :: log[j].at - log[i].at >= TTL
  }

  predicate Dated(s: State) {
    s.lastRearm <= s.now && forall i | 0 <= i < |s.log| && s.log[i].Rearmed? :: s.log[i].at <= s.lastRearm
  }

  predicate FewUnanswered(log: seq<Event>) {
    forall n | 0 <= n <= |log| :: Unanswered(log[..n]) <= THRESHOLD
  }

  predicate LogRefers(s: State) {
    forall i | 0 <= i < |s.log| && s.log[i].Rearmed? && s.log[i].pass.Some? ::
      s.log[i].pass.value < |s.passes| && s.passes[s.log[i].pass.value].byTick
  }

  /** While a tick awaits its pass, re-arms start no other. */
  predicate LatestRuns(s: State) {
    s.log != [] && s.log[|s.log| - 1].Rearmed? && s.log[|s.log| - 1].pass.Some? ==>
      forall p: nat | p < |s.passes| && s.passes[p].running && s.passes[p].byTick ::
        s.log[|s.log| - 1].pass == Some(p)
  }

  /** A re-arm whose pass, if it started one, is over without an exception. */
  predicate Completed(s: State, e: Event) {
    e.Rearmed? && (e.pass.Some? ==>
      e.pass.value < |s.passes| && !s.passes[e.pass.value].running && OtherError !in s.passes[e.pass.value].calls)
  }

  predicate Escalated(s: State) {
    && (s.repair ==> s.count == THRESHOLD)
    && (s.count == THRESHOLD ==>
          && s.log != [] && s.log[|s.log| - 1].Rearmed?
          && (s.repair <==> Completed(s, s.log[|s.log| - 1])))
  }

  predicate Inv(s: State) {
    && OneAtATime(s) && PassesHold(s) && Spaced(s.log) && Dated(s)
    && s.count == Unanswered(s.log) && FewUnanswered(s.log)
    && LogRefers(s) && LatestRuns(s) && Escalated(s)
  }

  lemma SpacedAppend(log: seq<Event>, e: Event, last: real)
    requires Spaced(log) && (forall i | 0 <= i < |log| && log[i].Rearmed? :: log[i].at <= last)
    requires e.Rearmed? ==> e.at - last >= TTL
    ensures Spaced(log + [e])
  {
  }

  lemma UnansweredAppend(log: seq<Event>, e: Event)
    requires FewUnanswered(log) && (e.Rearmed? ==> Unanswered(log) < THRESHOLD)
    ensures FewUnanswered(log + [e])
    ensures Unanswered(log + [e]) == if e.Healthy? then 0 else Unanswered(log) + 1
  {
    var after := log + [e];
    assert after[..|log|] == log;
    forall n | 0 <= n <= |after| ensures Unanswered(after[..n]) <= THRESHOLD {
      if n <= |log| {
        assert after[..n] == log[..n];
      } else {
        assert after[..n] == after;
      }
    }
  }

  lemma StartedPass(s: State, targets: nat, byTick: bool)
    requires OneAtATime(s) && PassesHold(s)
    ensures OneAtATime(StartPass(s, targets, byTick)) && PassesHold(StartPass(s, targets, byTick))
  {
    var t := StartPass(s, targets, byTick);
    if t != s {
      var n := |s.passes|;
      assert t.passes[n].running;
      assert forall p | 0 <= p < n :: t.passes[p] == s.passes[p];
    }
  }

  lemma SamePasses(s: State, t: State)
    requires s.passes == t.passes && s.inFlight == t.inFlight
    ensures OneAtATime(s) == OneAtATime(t) && PassesHold(s) == PassesHold(t)
  {
  }

  lemma CountAtMost(s: State)
    requires s.count == Unanswered(s.log) && FewUnanswered(s.log)
    ensures s.count <= THRESHOLD
  {
    assert s.log[..|s.log|] == s.log;
  }

  lemma NoneRuns(s: State)
    requires OneAtATime(s) && !s.inFlight
    ensures forall p: nat | p < |s.passes| :: !s.passes[p].running
  {
  }

  lemma AttemptKeeps(s: State, targets: nat)
    requires Inv(s) && s.count < THRESHOLD && s.now - s.lastRearm >= TTL
    ensures Inv(Tick(s, true, targets))
  {
    hide Spaced, FewUnanswered, Unanswered, OneAtATime, PassesHold;
    var starts := targets > 0 && !s.inFlight;
    var e := Rearmed(s.now, if starts then Some(|s.passes|) else None);
    SpacedAppend(s.log, e, s.lastRearm);
    UnansweredAppend(s.log, e);
    var t := Attempt(s, e.pass);
    SamePasses(s, t);
    SamePasses(s, Escalate(t));
    if starts {
      NoneRuns(s);
      StartedPass(t, targets, true);
    }
  }

  lemma StartKeeps(s: State, targets: nat)
    requires Inv(s)
    ensures Inv(StartPass(s, targets, false))
  {
    hide Spaced, FewUnanswered, Unanswered, OneAtATime, PassesHold;
    StartedPass(s, targets, false);
  }

  lemma TickKeeps(s: State, stalled: bool, targets: nat)
    requires Inv(s)
    ensures Inv(Tick(s, stalled, targets))
  {
    if !stalled {
      hide Spaced, FewUnanswered, Unanswered, OneAtATime, PassesHold;
      CountAtMost(s);
      SpacedAppend(s.log, Healthy, s.lastRearm);
      UnansweredAppend(s.log, Healthy);
      SamePasses(s, Tick(s, false, 0));
    } else if s.count < THRESHOLD && s.now - s.lastRearm >= TTL {
      AttemptKeeps(s, targets);
    }
  }

  /** The running pass has made one more call, and goes on or is over. */
  lemma PassMoves(s: State, p: nat, pass: Pass)
    requires OneAtATime(s) && PassesHold(s) && p < |s.passes| && s.passes[p].running && PassHolds(pass)
    ensures var t := s.(inFlight := pass.running, passes := s.passes[p := pass]);
            OneAtATime(t) && PassesHold(t)
    ensures forall q: nat | q < |s.passes| && q != p :: !s.passes[q].running
  {
    var t := s.(inFlight := pass.running, passes := s.passes[p := pass]);
    assert t.passes[p] == pass;
    assert forall q: nat | q < |s.passes| && q != p :: !s.passes[q].running && t.passes[q] == s.passes[q];
  }

  lemma EndKeeps(s: State, p: nat, pass: Pass, raised: bool)
    requires Inv(s) && p < |s.passes| && s.passes[p].running && pass.byTick == s.passes[p].byTick
    requires PassHolds(pass.(running := false)) && (raised <==> OtherError in pass.calls)
    ensures Inv(EndPass(s.(passes := s.passes[p := pass]), p, raised))
  {
    hide Spaced, FewUnanswered, Unanswered, OneAtATime, PassesHold, PassHolds;
    CountAtMost(s);
    var over := pass.(running := false);
    PassMoves(s, p, over);
    var u := s.(inFlight := false, passes := s.passes[p := over]);
    var t := EndPass(s.(passes := s.passes[p := pass]), p, raised);
    assert t.passes == s.passes[p := pass][p := over] == u.passes;
    SamePasses(u, t);
    assert forall q: nat | q < |s.passes| && q != p :: t.passes[q] == s.passes[q];
  }

  lemma {:induction false} RejectedEnds(s: State, p: nat)
    requires p < |s.passes| && s.passes[p].authFailed
    ensures RunOn(s, p) == EndPass(s.(passes := s.passes[p := s.passes[p].(left := 0)]), p, false)
    decreases s.passes[p].left
  {
    hide EndPass;
    var pass := s.passes[p];
    if pass.left > 0 {
      var t := s.(passes := s.passes[p := pass.(left := pass.left - 1)]);
      RejectedEnds(t, p);
      assert t.passes[p := pass.(left := 0)] == s.passes[p := pass.(left := 0)];
    } else {
      assert s.passes[p := pass.(left := 0)] == s.passes;
    }
  }

  lemma FewerLeft(s: State, p: nat, pass: Pass)
    requires Inv(s) && p < |s.passes| && s.passes[p].running && PassHolds(pass)
    requires pass.running && pass.byTick == s.passes[p].byTick
    ensures Inv(s.(passes := s.passes[p := pass]))
  {
    hide Spaced, FewUnanswered, Unanswered, OneAtATime, PassesHold, PassHolds;
    PassMoves(s, p, pass);
    InFlight(s, p);
    assert s.(inFlight := true, passes := s.passes[p := pass]) == s.(passes := s.passes[p := pass]);
  }

  lemma InFlight(s: State, p: nat)
    requires OneAtATime(s) && p < |s.passes| && s.passes[p].running
    ensures s.inFlight
  {
  }

  lemma RunningHolds(s: State, p: nat)
    requires Inv(s) && p < |s.passes| && s.passes[p].running
    ensures PassHolds(s.passes[p]) && s.passes[p].left > 0
  {
    assert PassHolds(s.passes[p]);
  }

  lemma CallKeeps(s: State, p: nat, o: Outcome)
    requires Inv(s)
    ensures Inv(CallDone(s, p, o))
  {
    hide Inv, EndPass;
    if p < |s.passes| && s.passes[p].running && s.passes[p].left > 0 {
      RunningHolds(s, p);
      var pass := s.passes[p].(left := s.passes[p].left - 1, calls := s.passes[p].calls + [o]);
      match o
      case Good =>
        if pass.left == 0 {
          EndKeeps(s, p, pass, false);
        } else {
          FewerLeft(s, p, pass);
        }
      case AuthError =>
        var rejected := pass.(authFailed := true, reauths := pass.reauths + 1);
        var t := s.(passes := s.passes[p := rejected]);
        RejectedEnds(t, p);
        assert t.passes[p := rejected.(left := 0)] == s.passes[p := rejected.(left := 0)];
        EndKeeps(s, p, rejected.(left := 0), false);
      case OtherError =>
        EndKeeps(s, p, pass, true);
    }
  }

  lemma StepKeeps(s: State, a: Action)
    requires Inv(s)
    ensures Inv(Step(s, a))
  {
    hide Inv, Tick, StartPass, CallDone, AppearsStalled;
    match a
    case WatchdogTick(connected, size, since, targets) => TickKeeps(s, AppearsStalled(connected, size, since), targets);
    case Rearm(targets) => StartKeeps(s, targets);
    case CloudCall(p, o) => CallKeeps(s, p, o);
    case Wait(seconds) => WaitKeeps(s, seconds);
  }

  lemma WaitKeeps(s: State, seconds: real)
    requires Inv(s)
    ensures Inv(Step(s, Wait(seconds)))
  {
    hide Spaced, FewUnanswered, Unanswered, OneAtATime, PassesHold;
    SamePasses(s, Step(s, Wait(seconds)));
  }

  lemma {:induction false} ReachedKeeps(actions: seq<Action>)
    ensures Inv(Reached(actions))
    decreases |actions|
  {
    hide Inv, Step;
    if actions == [] {
      InitialHolds();
    } else {
      ReachedKeeps(actions[..|actions| - 1]);
      StepKeeps(Reached(actions[..|actions| - 1]), actions[|actions| - 1]);
    }
  }

  lemma InitialHolds()
    ensures Inv(INITIAL)
  {
  }

  // ---------------------------------------------------------------- what every run guarantees

  /** The counter stays within its threshold and counts the re-arms since the last healthy tick. */
  lemma CountBounded(actions: seq<Action>)
    ensures Reached(actions).count == Unanswered(Reached(actions).log) <= THRESHOLD
  {
    hide Reached, Unanswered, OneAtATime, PassesHold, Escalated;
    ReachedKeeps(actions);
    var log := Reached(actions).log;
    assert log[..|log|] == log;
  }

  lemma {:induction false} WindowUnanswered(log: seq<Event>, a: nat, b: nat)
    requires a <= b <= |log| && forall i | a <= i < b :: log[i].Rearmed?
    ensures Unanswered(log[..b]) >= b - a
    decreases b
  {
    if a < b {
      assert log[..b][..b - 1] == log[..b - 1];
      WindowUnanswered(log, a, b - 1);
    }
  }

  /** Between two healthy ticks, at whatever time, the watchdog re-arms at most three times. */
  lemma AtMostThreeRearms(actions: seq<Action>, a: nat, b: nat)
    requires a <= b <= |Reached(actions).log|
    requires forall i | a <= i < b :: Reached(actions).log[i].Rearmed?
    ensures b - a <= THRESHOLD
  {
    hide Reached, Unanswered;
    ReachedKeeps(actions);
    WindowUnanswered(Reached(actions).log, a, b);
  }

  /** Any two re-arms of the watchdog are a stall time apart. */
  lemma RearmsApart(actions: seq<Action>, i: nat, j: nat)
    requires i < j < |Reached(actions).log|
    requires Reached(actions).log[i].Rearmed? && Reached(actions).log[j].Rearmed?
    ensures Reached(actions).log[j].at - Reached(actions).log[i].at >= TTL
  {
    hide Reached;
    ReachedKeeps(actions);
  }

  /** At most one pass runs, exactly while the flag is up, and it starts re-authentication at most
      once: exactly when the cloud has rejected the token. */
  lemma OnePass(actions: seq<Action>, p: nat, q: nat)
    requires p < |Reached(actions).passes| && q < |Reached(actions).passes|
    ensures var s := Reached(actions);
            && s.passes[p].reauths == (if AuthError in s.passes[p].calls then 1 else 0)
            && (s.passes[p].running ==> s.inFlight)
            && (s.passes[p].running && s.passes[q].running ==> p == q)
  {
    hide Reached, Spaced, FewUnanswered, Unanswered, Escalated, LogRefers, LatestRuns;
    ReachedKeeps(actions);
    assert PassHolds(Reached(actions).passes[p]);
  }

  /** The Repair is present exactly when three re-arms have gone unanswered since the last healthy tick
      and the third of them is through: it found nothing to start, or its pass is over and no call of
      that pass ended by anything but success and a rejected token. */
  lemma RepairIff(actions: seq<Action>)
    ensures var s := Reached(actions);
            && (s.repair ==> s.log != [])
            && (s.repair <==>
                  Unanswered(s.log) == THRESHOLD && Completed(s, s.log[|s.log| - 1]))
  {
    hide Reached, OneAtATime, PassesHold, Spaced, LogRefers, LatestRuns;
    ReachedKeeps(actions);
  }

  /** The third re-arm went unanswered, and a call of its pass raised. */
  predicate Missed(s: State) {
    && Unanswered(s.log) == THRESHOLD && s.log != [] && s.log[|s.log| - 1].Rearmed? && s.log[|s.log| - 1].pass.Some?
    && s.log[|s.log| - 1].pass.value < |s.passes|
    && OtherError in s.passes[s.log[|s.log| - 1].pass.value].calls
  }

  predicate NoHealthyTick(actions: seq<Action>) {
    forall a | a in actions && a.WatchdogTick? :: AppearsStalled(a.connected, a.topologySize, a.sinceReport)
  }

  lemma {:induction false} RunOnTouches(s: State, p: nat, q: nat)
    requires p < |s.passes| && q < |s.passes| && p != q
    ensures var t := RunOn(s, p);
            |t.passes| == |s.passes| && t.passes[q] == s.passes[q] && t.log == s.log && t.count == s.count
    decreases s.passes[p].left
  {
    if s.passes[p].left > 0 && s.passes[p].authFailed {
      RunOnTouches(s.(passes := s.passes[p := s.passes[p].(left := s.passes[p].left - 1)]), p, q);
    }
  }

  lemma StepStaysMissed(s: State, a: Action)
    requires Inv(s) && Missed(s) && NoHealthyTick([a])
    ensures Missed(Step(s, a)) && Step(s, a).log == s.log
  {
    hide Spaced, FewUnanswered, Unanswered, OneAtATime, LogRefers, LatestRuns, Escalated, RunOn, AppearsStalled;
    var q := s.log[|s.log| - 1].pass.value;
    assert PassHolds(s.passes[q]);
    match a
    case WatchdogTick(_, _, _, _) => assert a in [a];
    case CloudCall(p, o) =>
      if p < |s.passes| && s.passes[p].running && s.passes[p].left > 0 {
        var pass := s.passes[p].(left := s.passes[p].left - 1, calls := s.passes[p].calls + [o]);
        RunOnTouches(s.(passes := s.passes[p := pass]), p, q);
        var rejected := pass.(authFailed := true, reauths := pass.reauths + 1);
        RunOnTouches(s.(passes := s.passes[p := rejected]), p, q);
      }
    case _ =>
  }

  /** Once the third pass has raised, the Repair does not come and nothing is re-armed any more, through
      any continuation without a healthy tick. */
  lemma {:induction false} MissedStays(actions: seq<Action>, more: seq<Action>)
    requires Missed(Reached(actions)) && NoHealthyTick(more)
    ensures var s := Reached(actions + more);
            Missed(s) && !s.repair && s.log == Reached(actions).log
    decreases |more|
  {
    hide Reached, Missed, Step, Inv, AppearsStalled;
    if more == [] {
      assert actions + more == actions;
    } else {
      var n := |more| - 1;
      var before := actions + more[..n];
      MissedStays(actions, more[..n]);
      ReachedKeeps(before);
      assert more[n] in more;
      StepStaysMissed(Reached(before), more[n]);
      ReachedNext(before, more[n]);
      assert before + [more[n]] == actions + more;
    }
    MissedNotRepaired(actions + more);
  }

  lemma MissedNotRepaired(actions: seq<Action>)
    requires Missed(Reached(actions))
    ensures !Reached(actions).repair
  {
    hide Reached, Unanswered;
    RepairIff(actions);
  }

  lemma ReachedNext(before: seq<Action>, a: Action)
    ensures Reached(before + [a]) == Step(Reached(before), a)
  {
    assert (before + [a])[..|before|] == before;
  }

  /** A stalled tick with one target after the stall time, and the end of the call it starts. */
  function Attempted(pass: nat, o: Outcome): seq<Action> {
    [Wait(TTL), WatchdogTick(true, 1, TTL + 1.0, 1), CloudCall(pass, o)]
  }

  /** A stalled state with `n` attempts behind it, each with a pass of one call that succeeded. */
  predicate AfterAttempts(s: State, n: nat) {
    && s.count == n == |s.log| == |s.passes| == Unanswered(s.log) && !s.inFlight && s.lastRearm <= s.now
    && forall i: nat | i < n :: s.log[i].Rearmed? && s.log[i].pass == Some(i) && !s.passes[i].running
  }

  lemma AttemptStarts(s: State, n: nat)
    requires AfterAttempts(s, n) && n < THRESHOLD
    ensures var w := Step(s, Wait(TTL));
            Step(w, WatchdogTick(true, 1, TTL + 1.0, 1))
              == Attempt(w, Some(n)).(inFlight := true, passes := s.passes + [Pass(1, false, 0, [], true, true)])
  {
  }

  lemma AttemptEnds(s: State, n: nat, o: Outcome)
    requires |s.passes| == n + 1 && s.passes[n] == Pass(1, false, 0, [], true, true) && o != AuthError
    ensures var u := s.(inFlight := false, passes := s.passes[n := Pass(0, false, 0, [o], true, false)]);
            CallDone(s, n, o) == if o == Good then Escalate(u) else u
  {
    var called := s.passes[n := Pass(0, false, 0, [o], true, true)];
    assert [] + [o] == [o];
    assert called[n := Pass(0, false, 0, [o], true, false)] == s.passes[n := Pass(0, false, 0, [o], true, false)];
  }

  lemma OneAttempt(before: seq<Action>, n: nat, o: Outcome)
    requires AfterAttempts(Reached(before), n) && n < THRESHOLD && o != AuthError
    ensures var t := Reached(before + Attempted(n, o));
            AfterAttempts(t, n + 1) && t.passes[n].calls == [o]
  {
    hide Reached, Step, CallDone, AfterAttempts;
    var s := Reached(before);
    var a1 := before + [Wait(TTL)];
    var a2 := a1 + [WatchdogTick(true, 1, TTL + 1.0, 1)];
    ReachedNext(before, Wait(TTL));
    ReachedNext(a1, WatchdogTick(true, 1, TTL + 1.0, 1));
    ReachedNext(a2, CloudCall(n, o));
    assert before + Attempted(n, o) == a2 + [CloudCall(n, o)];
    CallStep(Reached(a2), n, o);
    AttemptRuns(s, n, o);
  }

  lemma AttemptRuns(s: State, n: nat, o: Outcome)
    requires AfterAttempts(s, n) && n < THRESHOLD && o != AuthError
    ensures var t := CallDone(Step(Step(s, Wait(TTL)), WatchdogTick(true, 1, TTL + 1.0, 1)), n, o);
            AfterAttempts(t, n + 1) && t.passes[n].calls == [o]
  {
    hide Step, CallDone;
    AttemptStarts(s, n);
    Waited(s);
    AttemptEnds(Step(Step(s, Wait(TTL)), WatchdogTick(true, 1, TTL + 1.0, 1)), n, o);
    assert (s.log + [Rearmed(s.now + TTL, Some(n))])[..n] == s.log;
  }

  lemma Waited(s: State)
    ensures Step(s, Wait(TTL)) == s.(now := s.now + TTL)
  {
  }

  lemma CallStep(s: State, p: nat, o: Outcome)
    ensures Step(s, CloudCall(p, o)) == CallDone(s, p, o)
  {
  }

  /** Three attempts of which the third raises, as a response does that has a list where the path of
      a trait should be: `device/base.py` looks the path up in a set. No Repair. */
  lemma MissedRun()
    ensures var run := Attempted(0, Good) + Attempted(1, Good) + Attempted(2, OtherError);
            Missed(Reached(run)) && !Reached(run).repair
  {
    hide Reached, Attempted;
    var a1 := Attempted(0, Good);
    var a2 := a1 + Attempted(1, Good);
    assert Reached([]) == INITIAL by { NothingReached(); }
    OneAttempt([], 0, Good);
    assert [] + a1 == a1;
    OneAttempt(a1, 1, Good);
    OneAttempt(a2, 2, OtherError);
    MissedNotRepaired(a2 + Attempted(2, OtherError));
  }

  lemma NothingReached()
    ensures Reached([]) == INITIAL
  {
  }

  // ---------------------------------------------------------------- the class

  /** `AqaraLanLinkRuntimeData` as far as the watchdog goes, with the Repair and the running passes. */
  class RuntimeData {
    var stallRearmCount: nat
    var watchdogLastRearm: real
    var rearmInFlight: bool
    var repair: bool
    var now: real
    var passes: seq<Pass>
    ghost var log: seq<Event>

    ghost function View(): State
      reads this
    {
      State(stallRearmCount, watchdogLastRearm, rearmInFlight, repair, now, passes, log)
    }

    constructor ()
      ensures View() == INITIAL && Inv(View())
    {
      stallRearmCount, watchdogLastRearm, rearmInFlight, repair := 0, 0.0, false, false;
      now, passes, log := 0.0, [], [];
      new;
      InitialHolds();
    }

    /** `_watchdog_tick` until it waits or returns. */
    method WatchdogTick(connected: bool, topologySize: nat, sinceReport: real, targets: nat)
      requires Inv(View())
      modifies this
      ensures View() == Step(old(View()), Action.WatchdogTick(connected, topologySize, sinceReport, targets))
      ensures Inv(View())
    {
      hide Inv;
      StepKeeps(View(), Action.WatchdogTick(connected, topologySize, sinceReport, targets));
      if !(connected && topologySize > 0 && sinceReport > TTL) {
        log := log + [Healthy];
        if stallRearmCount > 0 {
          stallRearmCount := 0;
          repair := false;
        }
        return;
      }
      if stallRearmCount >= THRESHOLD { return; }
      if now - watchdogLastRearm < TTL { return; }
      watchdogLastRearm := now;
      stallRearmCount := stallRearmCount + 1;
      log := log + [Rearmed(now, if targets > 0 && !rearmInFlight then Some(|passes|) else None)];
      var waits := RearmSubscriptions(targets, true);
      if !waits { EscalateIfDue(); }
    }

    /** `_rearm_subscriptions` until it waits or returns. */
    method RearmSubscriptions(targets: nat, byTick: bool) returns (waits: bool)
      modifies this`rearmInFlight, this`passes
      ensures View() == StartPass(old(View()), targets, byTick)
      ensures waits <==> targets > 0 && !old(rearmInFlight)
    {
      if targets == 0 { return false; }
      if rearmInFlight { return false; }
      rearmInFlight := true;
      passes := passes + [Pass(targets, false, 0, [], byTick, true)];
      waits := true;
    }

    method EscalateIfDue()
      modifies this`repair
      ensures View() == Escalate(old(View()))
    {
      if stallRearmCount >= THRESHOLD { repair := true; }
    }

    /** A pass goes on after an awaited cloud call, and the tick that awaits it after its end. */
    method AfterCloudCall(p: nat, o: Outcome)
      requires Inv(View()) && p < |passes| && passes[p].running
      modifies this
      ensures View() == Step(old(View()), CloudCall(p, o)) && Inv(View())
    {
      hide Inv, EndPass;
      StepKeeps(View(), CloudCall(p, o));
      RunningHolds(View(), p);
      var pass := passes[p].(left := passes[p].left - 1, calls := passes[p].calls + [o]);
      if o == AuthError {
        pass := pass.(authFailed := true, reauths := pass.reauths + 1);
      }
      passes := passes[p := pass];
      if o == OtherError {
        FinishPass(p, true);
        return;
      }
      ghost var s := View();
      while passes[p].left > 0 && passes[p].authFailed
        invariant p < |passes| && RunOn(View(), p) == RunOn(s, p)
        decreases if p < |passes| then passes[p].left else 0
      {
        passes := passes[p := passes[p].(left := passes[p].left - 1)];
      }
      if passes[p].left == 0 { FinishPass(p, false); }
    }

    method FinishPass(p: nat, raised: bool)
      requires p < |passes|
      modifies this
      ensures View() == EndPass(old(View()), p, raised)
    {
      rearmInFlight := false;
      var byTick := passes[p].byTick;
      passes := passes[p := passes[p].(running := false)];
      if byTick && !raised { EscalateIfDue(); }
    }
  }
}
