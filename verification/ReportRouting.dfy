/** Which handlers a report reaches, told from the registrations alone. */
module ReportRouting {
  import opened ReportBuffer

  function IndexOf(list: seq<Handler>, h: Handler): (n: nat)
    requires h in list
    ensures n < |list| && list[n] == h && h !in list[..n]
  {
    if list[0] == h then 0 else 1 + IndexOf(list[1..], h)
  }

  /** The handlers registered for a device after a run, in the order of registration; an
      unregistration takes the earliest of its handler. */
  function Registered(actions: seq<Action>, did: Did): seq<Handler>
    decreases |actions|
  {
    if actions == [] then []
    else
      var list := Registered(actions[..|actions| - 1], did);
      match actions[|actions| - 1]
      case Registration(key, h) => if key == did then list + [h] else list
      case Unregistration(key, h) =>
        if key == did && h in list then list[..IndexOf(list, h)] + list[IndexOf(list, h) + 1..] else list
      case _ => list
  }

  /** The number of reports in a run, which is the number the next one gets. */
  function Reports(actions: seq<Action>): nat
    decreases |actions|
  {
    if actions == [] then 0
    else Reports(actions[..|actions| - 1]) + if actions[|actions| - 1].Report? then 1 else 0
  }

  lemma {:induction false} RemoveAtIndex(list: seq<Handler>, h: Handler)
    requires h in list
    ensures var n := IndexOf(list, h); Remove(list, h) == list[..n] + list[n + 1..]
    decreases |list|
  {
    if list[0] != h {
      RemoveAtIndex(list[1..], h);
      var n := IndexOf(list[1..], h);
      assert list[..n + 1] == [list[0]] + list[1..][..n];
    }
  }

  function HandlersOf(s: State, did: Did): seq<Handler> {
    if did in s.handlers then s.handlers[did] else []
  }

  lemma RegisterMeets(s: State, a: Action, did: Did)
    requires Bounded(s)
    ensures var list := HandlersOf(s, did);
            HandlersOf(Step(s, a), did)
              == match a
                 case Registration(key, h) => if key == did then list + [h] else list
                 case Unregistration(key, h) =>
                   if key == did && h in list then list[..IndexOf(list, h)] + list[IndexOf(list, h) + 1..] else list
                 case _ => list
  {
    hide IndexOf, Remove, Append, Replay;
    if a.Unregistration? && a.key == did && a.handler in HandlersOf(s, did) {
      RemoveAtIndex(HandlersOf(s, did), a.handler);
    }
  }

  lemma {:induction false} HandlersAreRegistered(hub: Did, actions: seq<Action>, did: Did)
    ensures HandlersOf(Reached(hub, actions), did) == Registered(actions, did)
    decreases |actions|
  {
    if actions != [] {
      hide Step, HandlersOf, IndexOf;
      var n := |actions| - 1;
      HandlersAreRegistered(hub, actions[..n], did);
      IsBounded(hub, actions[..n]);
      RegisterMeets(Reached(hub, actions[..n]), actions[n], did);
    } else {
      NoneAtFirst(hub, did);
    }
  }

  lemma NoneAtFirst(hub: Did, did: Did)
    ensures HandlersOf(Reached(hub, []), did) == [] && Reached(hub, []).arrived == 0
  {
  }

  lemma IsBounded(hub: Did, actions: seq<Action>)
    ensures Bounded(Reached(hub, actions))
  {
    hide Reached, Bounded, Waiting, HandedOnce;
    ReachedKeeps(hub, actions);
  }

  lemma {:induction false} ArrivedCounts(hub: Did, actions: seq<Action>)
    ensures Reached(hub, actions).arrived == Reports(actions)
    decreases |actions|
  {
    if actions != [] {
      hide Step;
      var n := |actions| - 1;
      ArrivedCounts(hub, actions[..n]);
      ArrivedStep(Reached(hub, actions[..n]), actions[n]);
    } else {
      NoneAtFirst(hub, "");
    }
  }

  lemma ArrivedStep(s: State, a: Action)
    ensures Step(s, a).arrived == s.arrived + if a.Report? then 1 else 0
  {
    hide Append, Remove, Replay;
  }

  /** A report goes at once to exactly the handlers registered for its device, in the order of
      registration; the device is the sub-device, if the report names one. Without a handler nothing
      is handed on. No report changes a registration or a buffer of another device. */
  lemma ReportReaches(hub: Did, actions: seq<Action>, did: Did, sdid: Did)
    ensures var s, t := Reached(hub, actions), Step(Reached(hub, actions), Report(did, sdid));
            var key := if sdid == "" then did else sdid;
            var list := Registered(actions, key);
            && t.delivered == (if list == [] then s.delivered else s.delivered + [Delivery(Reports(actions), list)])
            && (list != [] ==> t.pending == s.pending)
            && (forall d: Did | d != key :: (d in t.pending <==> d in s.pending)
                                            && (d in s.pending ==> t.pending[d] == s.pending[d]))
            && t.handlers == s.handlers && t.topology == s.topology && t.everSeen == s.everSeen
  {
    hide Reached, Registered, Reports, Append;
    HandlersAreRegistered(hub, actions, if sdid == "" then did else sdid);
    ArrivedCounts(hub, actions);
  }
}
