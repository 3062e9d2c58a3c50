/** When the watchdog finds a tick healthy, when it re-arms, and which calls a pass has made: told
    from the ticks, the clock and the calls alone. */
module WatchdogTicks {
  import opened Bytes
  import opened Watchdog

  /** The time of the last re-arm; the runtime data start with 0. */
  function LastRearm(log: seq<Event>): real
    decreases |log|
  {
    if log == [] then 0.0
    else if log[|log| - 1].Rearmed? then log[|log| - 1].at
    else LastRearm(log[..|log| - 1])
  }

  lemma LastAppend(log: seq<Event>, e: Event)
    ensures LastRearm(log + [e]) == if e.Rearmed? then e.at else LastRearm(log)
  {
    assert (log + [e])[..|log|] == log;
  }

  predicate Running(s: State) {
    exists p :: 0 <= p < |s.passes| && s.passes[p].running
  }

  lemma {:induction false} RunOnKeeps(s: State, p: nat)
    requires p < |s.passes|
    ensures RunOn(s, p).log == s.log && RunOn(s, p).lastRearm == s.lastRearm
    decreases s.passes[p].left
  {
    var pass := s.passes[p];
    if pass.left > 0 && pass.authFailed {
      RunOnKeeps(s.(passes := s.passes[p := pass.(left := pass.left - 1)]), p);
    }
  }

  lemma RearmStep(s: State, a: Action)
    requires s.lastRearm == LastRearm(s.log)
    ensures Step(s, a).lastRearm == LastRearm(Step(s, a).log)
  {
    hide RunOn, LastRearm;
    match a
    case WatchdogTick(_, _, _, _) =>
      LastAppend(s.log, Healthy);
      LastAppend(s.log, Rearmed(s.now, Some(|s.passes|)));
      LastAppend(s.log, Rearmed(s.now, None));
    case CloudCall(p, o) =>
      if p < |s.passes| && s.passes[p].left > 0 {
        var pass := s.passes[p].(left := s.passes[p].left - 1, calls := s.passes[p].calls + [o]);
        RunOnKeeps(s.(passes := s.passes[p := pass]), p);
        RunOnKeeps(s.(passes := s.passes[p := pass.(authFailed := true, reauths := pass.reauths + 1)]), p);
      }
    case _ =>
  }

  lemma {:induction false} RearmTime(actions: seq<Action>)
    ensures Reached(actions).lastRearm == LastRearm(Reached(actions).log)
    decreases |actions|
  {
    if actions != [] {
      hide Step;
      RearmTime(actions[..|actions| - 1]);
      RearmStep(Reached(actions[..|actions| - 1]), actions[|actions| - 1]);
    }
  }

  /** What a tick does, at any time of any run. It is healthy unless the tunnel is up, the topology is
      not empty, and no report has come for more than 300 seconds. Otherwise it re-arms exactly if
      fewer than three re-arms have gone unanswered and the last one is 300 seconds ago or more; the
      re-arm starts a pass over all targets exactly if there are any and no pass is running. */
  lemma TickDoes(actions: seq<Action>, connected: bool, size: nat, since: real, targets: nat)
    ensures var s, t := Reached(actions), Step(Reached(actions), WatchdogTick(connected, size, since, targets));
            var healthy := !(connected && size > 0 && since > 300.0);
            var rearms := !healthy && Unanswered(s.log) < 3 && s.now - LastRearm(s.log) >= 300.0;
            var starts := rearms && targets > 0 && !Running(s);
            && t.log == (if healthy then s.log + [Healthy]
                         else if rearms then s.log + [Rearmed(s.now, if starts then Some(|s.passes|) else None)]
                         else s.log)
            && t.passes == (if starts then s.passes + [Pass(targets, false, 0, [], true, true)] else s.passes)
            && (healthy ==> !t.repair)
            && (!healthy && !rearms ==> t == s)
  {
    hide Reached, Unanswered, LastRearm, Spaced, Dated, FewUnanswered, LogRefers, LatestRuns;
    RearmTime(actions);
    ReachedKeeps(actions);
  }

  /** A trigger starts a pass over all targets exactly if there are any and no pass is running. */
  lemma TriggerDoes(actions: seq<Action>, targets: nat)
    ensures var s, t := Reached(actions), Step(Reached(actions), Rearm(targets));
            && t.log == s.log && t.repair == s.repair
            && t.passes == (if targets > 0 && !Running(s) then s.passes + [Pass(targets, false, 0, [], false, true)]
                            else s.passes)
  {
    hide Reached, Unanswered, Spaced, Dated, FewUnanswered, LogRefers, LatestRuns, Escalated;
    ReachedKeeps(actions);
  }

  // ---------------------------------------------------------------- the calls of a pass

  /** The numbers of targets of the passes of a run, in their order. */
  function Begun(actions: seq<Action>): seq<nat>
    decreases |actions|
  {
    if actions == [] then []
    else
      var n := |actions| - 1;
      var a := actions[n];
      if |Reached(actions).passes| == |Reached(actions[..n]).passes| then Begun(actions[..n])
      else Begun(actions[..n]) + [if a.WatchdogTick? || a.Rearm? then a.targets else 0]
  }

  /** A pass has one call behind or before it for each target while it runs, and all calls so far
      were good. It is over with one good call for each target, or with its first call that was
      rejected or raised. */
  predicate Accounted(pass: Pass, targets: nat) {
    && (forall k | 0 <= k < |pass.calls| - 1 :: pass.calls[k] == Good)
    && if pass.running then
         && |pass.calls| + pass.left == targets && pass.left > 0
         && !pass.authFailed && forall k | 0 <= k < |pass.calls| :: pass.calls[k] == Good
       else
         && 0 < |pass.calls| <= targets
         && (pass.calls[|pass.calls| - 1] == Good ==> |pass.calls| == targets)
  }

  lemma CallAccounted(s: State, p: nat, o: Outcome, targets: nat)
    requires p < |s.passes| && Accounted(s.passes[p], targets)
    ensures var t := CallDone(s, p, o);
            && |t.passes| == |s.passes| && Accounted(t.passes[p], targets)
            && forall q | 0 <= q < |s.passes| && q != p :: t.passes[q] == s.passes[q]
  {
    hide RunOn;
    if s.passes[p].running {
      var pass := s.passes[p].(left := s.passes[p].left - 1, calls := s.passes[p].calls + [o]);
      if o == Good {
        RunOnGood(s.(passes := s.passes[p := pass]), p);
      } else if o == AuthError {
        RejectedEnds(s.(passes := s.passes[p := pass.(authFailed := true, reauths := pass.reauths + 1)]), p);
      }
    }
  }

  lemma RunOnGood(s: State, p: nat)
    requires p < |s.passes| && !s.passes[p].authFailed
    ensures RunOn(s, p) == if s.passes[p].left == 0 then EndPass(s, p, false) else s
  {
  }

  predicate AllAccounted(s: State, begun: seq<nat>) {
    |begun| == |s.passes| && forall p | 0 <= p < |s.passes| :: Accounted(s.passes[p], begun[p])
  }

  lemma StepAccounted(s: State, a: Action, begun: seq<nat>)
    requires AllAccounted(s, begun)
    ensures var t := Step(s, a);
            AllAccounted(t, if |t.passes| == |s.passes| then begun
                            else begun + [if a.WatchdogTick? || a.Rearm? then a.targets else 0])
  {
    hide CallDone, Accounted;
    match a
    case CloudCall(p, o) =>
      if p < |s.passes| { CallAccounted(s, p, o, begun[p]); } else { NoSuchPass(s, p, o); }
    case Wait(_) =>
    case _ => FreshAccounted(a.targets, a.WatchdogTick?);
  }

  lemma NoSuchPass(s: State, p: nat, o: Outcome)
    requires p >= |s.passes|
    ensures CallDone(s, p, o) == s
  {
  }

  lemma FreshAccounted(targets: nat, byTick: bool)
    ensures targets > 0 ==> Accounted(Pass(targets, false, 0, [], byTick, true), targets)
  {
  }

  lemma {:induction false} ReachedAccounted(actions: seq<Action>)
    ensures AllAccounted(Reached(actions), Begun(actions))
    decreases |actions|
  {
    if actions != [] {
      hide Step, AllAccounted;
      var n := |actions| - 1;
      ReachedAccounted(actions[..n]);
      StepAccounted(Reached(actions[..n]), actions[n], Begun(actions[..n]));
    }
  }

  /** In every run: a pass that is over without a rejection and without an exception has made exactly
      one call for each of its targets, and no pass makes a call after one that was not good. */
  lemma PassCalls(actions: seq<Action>, p: nat)
    requires p < |Reached(actions).passes|
    ensures |Begun(actions)| == |Reached(actions).passes|
    ensures var pass, targets := Reached(actions).passes[p], Begun(actions)[p];
            && |pass.calls| <= targets
            && (forall k | 0 <= k < |pass.calls| - 1 :: pass.calls[k] == Good)
            && (!pass.running && AuthError !in pass.calls && OtherError !in pass.calls ==> |pass.calls| == targets)
            && (pass.running ==> forall k | 0 <= k < |pass.calls| :: pass.calls[k] == Good)
  {
    hide Reached, Begun;
    ReachedAccounted(actions);
    var pass := Reached(actions).passes[p];
    assert Accounted(pass, Begun(actions)[p]);
  }
}
