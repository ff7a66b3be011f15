/** `plan_set`: one pass over the bindings, one over the distinct assignments, and re-checks of the affected ports only. */
module Planner {
  import opened Lists
  import opened Configuration
  import opened SetRequests
  import opened SetEffects
  import opened SetLaws

  // ---------------------------------------------------------------------------------------------
  // Lists that lose and gain elements in place
  // ---------------------------------------------------------------------------------------------

  lemma {:induction false} WithoutAppend(a: seq<int>, b: seq<int>, gone: set<int>)
    ensures Without(a + b, gone) == Without(a, gone) + Without(b, gone)
  {
    if b == [] {
      assert a + b == a;
    } else {
      var n := |b| - 1;
      assert (a + b)[..|a + b| - 1] == a + b[..n];
      WithoutAppend(a, b[..n], gone);
    }
  }

  lemma WithoutLast(a: seq<int>, x: int, gone: set<int>)
    ensures Without(a + [x], gone) == if x in gone then Without(a, gone) else Without(a, gone) + [x]
  {
    assert (a + [x])[..|a|] == a;
  }

  lemma {:induction false} WithoutTwice(a: seq<int>, gone: set<int>, more: set<int>)
    ensures Without(Without(a, gone), more) == Without(a, gone + more)
  {
    if a != [] {
      var before, x := a[..|a| - 1], a[|a| - 1];
      assert a == before + [x];
      WithoutTwice(before, gone, more);
      WithoutLast(before, x, gone);
      WithoutLast(before, x, gone + more);
      WithoutLast(Without(before, gone), x, more);
    }
  }

  ghost predicate GrownBy(was: seq<int>, after: seq<int>, gone: set<int>, extra: seq<int>) {
    after == Without(was, gone) + extra && forall v :: v in extra ==> v !in was
  }

  /** The list kept the order of what it kept, and whatever it gained was not there before. */
  ghost predicate Grown(was: seq<int>, after: seq<int>) {
    exists gone, extra :: GrownBy(was, after, gone, extra)
  }

  lemma GrownGains(was: seq<int>, after: seq<int>, v: int)
    requires Grown(was, after) && (v in after || v !in was)
    ensures Grown(was, With(after, v))
  {
    var gone, extra :| GrownBy(was, after, gone, extra);
    if v !in after {
      assert after + [v] == Without(was, gone) + (extra + [v]);
      assert GrownBy(was, after + [v], gone, extra + [v]);
    }
  }

  lemma GrownLoses(was: seq<int>, after: seq<int>, v: int)
    requires Grown(was, after)
    ensures Grown(was, Drop(after, v))
  {
    var gone, extra :| GrownBy(was, after, gone, extra);
    WithoutAppend(Without(was, gone), extra, {v});
    WithoutTwice(was, gone, {v});
    assert GrownBy(was, Drop(after, v), gone + {v}, Without(extra, {v}));
  }

  lemma FirstIn(kept: seq<int>, extra: seq<int>)
    ensures extra == [] || exists v :: v in extra && v in kept + extra
  {
    if extra != [] {
      assert (kept + extra)[|kept|] == extra[0];
      assert extra[0] in extra && extra[0] in kept + extra;
    }
  }

  lemma GrownBack(was: seq<int>, after: seq<int>)
    requires Grown(was, after) && forall v :: v in was <==> v in after
    ensures after == was
  {
    var gone, extra :| GrownBy(was, after, gone, extra);
    var kept := Without(was, gone);
    FirstIn(kept, extra);
    assert after == kept;
  }

  // ---------------------------------------------------------------------------------------------
  // One port through the passes
  // ---------------------------------------------------------------------------------------------

  /** Deleted VLANs leave every list, and a port that lost its PVID falls back on VLAN 1. */
  function Started(was: Policy, gone: set<VlanId>, falls: bool): Policy {
    var q := was.(admitted := Without(was.admitted, gone), untagged := Without(was.untagged, gone),
                  forbidden := Without(was.forbidden, gone));
    if !falls then q else
    q.(pvid := DEFAULT_VLAN, admitted := With(q.admitted, 1),
       untagged := if was.pvid in was.untagged then With(q.untagged, 1) else q.untagged)
  }

  function Regrouped(members: seq<int>, inside: bool, v: int): seq<int> {
    if inside then With(members, v) else Drop(members, v)
  }

  function Stepped(q: Policy, p: Id, s: Slot, v: Value): Policy {
    match s.kind
    case AdminStatus => if s.key == p && v.Number? then q.(adminUp := v.n == 1) else q
    case PaeControl =>
      if s.key == p && v.Number? then q.(authentication := q.authentication.(control := ControlOf(v.n, q.authentication.control))) else q
    case PortPvid => if s.key == p && v.Number? && 1 <= v.n <= 4094 then q.(pvid := v.n) else q
    case EgressPorts => if v.Members? then q.(admitted := Regrouped(q.admitted, p in v.ports, s.key)) else q
    case UntaggedPorts => if v.Members? then q.(untagged := Regrouped(q.untagged, p in v.ports, s.key)) else q
    case ForbiddenPorts => if v.Members? then q.(forbidden := Regrouped(q.forbidden, p in v.ports, s.key)) else q
    case _ => q
  }

  ghost predicate ListGrows(ops: Ops, gone: set<VlanId>, falls: bool, p: Id, was: Policy, k: Kind, after: seq<int>)
    requires OfMembers(k)
  {
    && NoDuplicates(after)
    && (forall v :: v in after <==> BelongsAs(ops, gone, falls, p, was, k, v))
    && Grown(Held(was, k), after)
  }

  ghost predicate ScalarsMeet(ops: Ops, falls: bool, p: Id, was: Policy, q: Policy) {
    && q == was.(adminUp := q.adminUp, pvid := q.pvid, admitted := q.admitted, untagged := q.untagged, forbidden := q.forbidden,
                 authentication := was.authentication.(control := q.authentication.control))
    && q.adminUp == (Assigns(ops, AdminStatus, p, if was.adminUp then 1 else 2) == 1)
    && q.authentication.control == ControlOf(Assigns(ops, PaeControl, p, 0), was.authentication.control)
    && q.pvid == Assigns(ops, PortPvid, p, if falls then 1 else was.pvid)
  }

  ghost predicate Growing(ops: Ops, gone: set<VlanId>, falls: bool, p: Id, was: Policy, q: Policy) {
    && ScalarsMeet(ops, falls, p, was, q)
    && ListGrows(ops, gone, falls, p, was, EgressPorts, q.admitted)
    && ListGrows(ops, gone, falls, p, was, UntaggedPorts, q.untagged)
    && ListGrows(ops, gone, falls, p, was, ForbiddenPorts, q.forbidden)
  }

  lemma GrowingMeets(ops: Ops, gone: set<VlanId>, falls: bool, p: Id, was: Policy, q: Policy)
    requires Growing(ops, gone, falls, p, was, q)
    ensures PolicyMeetsAs(ops, gone, falls, p, was, q)
  {
    if forall v :: v in was.admitted <==> v in q.admitted { GrownBack(was.admitted, q.admitted); }
    if forall v :: v in was.untagged <==> v in q.untagged { GrownBack(was.untagged, q.untagged); }
    if forall v :: v in was.forbidden <==> v in q.forbidden { GrownBack(was.forbidden, q.forbidden); }
  }

  lemma WithoutGrows(was: seq<int>, gone: set<int>)
    ensures Grown(was, Without(was, gone))
  {
    assert Without(was, gone) == Without(was, gone) + [];
    assert GrownBy(was, Without(was, gone), gone, []);
  }

  lemma StartedList(gone: set<VlanId>, falls: bool, p: Id, was: Policy, k: Kind)
    requires OfMembers(k) && NoDuplicates(Held(was, k)) && DEFAULT_VLAN !in gone
    ensures ListGrows(map[], gone, falls, p, was, k, Held(Started(was, gone, falls), k))
  {
    WithoutGrows(Held(was, k), gone);
    GrownGains(Held(was, k), Without(Held(was, k), gone), 1);
  }

  lemma StartedGrows(gone: set<VlanId>, falls: bool, p: Id, was: Policy)
    requires NoDuplicates(was.admitted) && NoDuplicates(was.untagged) && NoDuplicates(was.forbidden) && DEFAULT_VLAN !in gone
    ensures Growing(map[], gone, falls, p, was, Started(was, gone, falls))
  {
    StartedList(gone, falls, p, was, EgressPorts);
    StartedList(gone, falls, p, was, UntaggedPorts);
    StartedList(gone, falls, p, was, ForbiddenPorts);
  }

  /** Assigning another object leaves a list as it should be. */
  lemma OtherList(done: Ops, gone: set<VlanId>, falls: bool, p: Id, was: Policy, k: Kind, after: seq<int>, s: Slot, v: Value)
    requires OfMembers(k) && ListGrows(done, gone, falls, p, was, k, after) && s.kind != k
    ensures ListGrows(done[s := v], gone, falls, p, was, k, after)
  {
    forall w ensures BelongsAs(done[s := v], gone, falls, p, was, k, w) == BelongsAs(done, gone, falls, p, was, k, w) {
      assert Slot(k, w) != s;
    }
  }

  lemma SteppedBelongs(done: Ops, gone: set<VlanId>, falls: bool, p: Id, was: Policy, k: Kind, key: int, ports: set<Id>, w: int)
    requires OfMembers(k)
    ensures BelongsAs(done[Slot(k, key) := Members(ports)], gone, falls, p, was, k, w)
        == if w == key then p in ports else BelongsAs(done, gone, falls, p, was, k, w)
  {
  }

  lemma RegroupedGrows(was: seq<int>, after: seq<int>, inside: bool, v: int)
    requires Grown(was, after) && NoDuplicates(after) && (v in after || v !in was)
    ensures Grown(was, Regrouped(after, inside, v)) && NoDuplicates(Regrouped(after, inside, v))
    ensures forall w :: w in Regrouped(after, inside, v) <==> if w == v then inside else w in after
  {
    if inside { GrownGains(was, after, v); } else { GrownLoses(was, after, v); }
  }

  lemma SteppedList(done: Ops, gone: set<VlanId>, falls: bool, p: Id, was: Policy, k: Kind, after: seq<int>, key: int, ports: set<Id>)
    requires OfMembers(k) && ListGrows(done, gone, falls, p, was, k, after)
    requires Slot(k, key) !in done && key !in gone
    ensures ListGrows(done[Slot(k, key) := Members(ports)], gone, falls, p, was, k, Regrouped(after, p in ports, key))
  {
    assert key in after <==> BelongsAs(done, gone, falls, p, was, k, key);
    RegroupedGrows(Held(was, k), after, p in ports, key);
    forall w
      ensures w in Regrouped(after, p in ports, key) <==>
              BelongsAs(done[Slot(k, key) := Members(ports)], gone, falls, p, was, k, w)
    {
      SteppedBelongs(done, gone, falls, p, was, k, key, ports, w);
      assert w in after <==> BelongsAs(done, gone, falls, p, was, k, w);
    }
  }

  lemma OneAssigned(done: Ops, s: Slot, v: Value, k: Kind, p: Id, otherwise: int)
    requires s !in done
    ensures Assigns(done[s := v], k, p, otherwise) == if s == Slot(k, p) && v.Number? then v.n else Assigns(done, k, p, otherwise)
  {
  }

  lemma SteppedScalars(done: Ops, falls: bool, p: Id, was: Policy, q: Policy, s: Slot, v: Value)
    requires ScalarsMeet(done, falls, p, was, q) && s !in done
    requires s.kind.AdminStatus? || s.kind.PaeControl? ==> v.Number?
    requires s.kind.PaeControl? ==> v.n in {1, 2, 3}
    requires s.kind.PortPvid? ==> v.Number? && 1 <= v.n <= 4094
    ensures ScalarsMeet(done[s := v], falls, p, was, Stepped(q, p, s, v))
  {
    OneAssigned(done, s, v, AdminStatus, p, if was.adminUp then 1 else 2);
    OneAssigned(done, s, v, PaeControl, p, 0);
    OneAssigned(done, s, v, PortPvid, p, if falls then 1 else was.pvid);
  }

  lemma SteppedGrows(done: Ops, gone: set<VlanId>, falls: bool, p: Id, was: Policy, q: Policy, ports: set<Id>, vids: set<VlanId>,
                     ops: Ops, s: Slot, v: Value)
    requires Growing(done, gone, falls, p, was, q) && s !in done && gone == Gone(vids, ops)
    requires OpOk(ports, vids, ops, s, v)
    ensures Growing(done[s := v], gone, falls, p, was, Stepped(q, p, s, v))
  {
    SteppedScalars(done, falls, p, was, q, s, v);
    var r := Stepped(q, p, s, v);
    assert s == Slot(s.kind, s.key);
    if s.kind.EgressPorts? { SteppedList(done, gone, falls, p, was, EgressPorts, q.admitted, s.key, v.ports); }
    else { OtherList(done, gone, falls, p, was, EgressPorts, q.admitted, s, v); }
    if s.kind.UntaggedPorts? { SteppedList(done, gone, falls, p, was, UntaggedPorts, q.untagged, s.key, v.ports); }
    else { OtherList(done, gone, falls, p, was, UntaggedPorts, q.untagged, s, v); }
    if s.kind.ForbiddenPorts? { SteppedList(done, gone, falls, p, was, ForbiddenPorts, q.forbidden, s.key, v.ports); }
    else { OtherList(done, gone, falls, p, was, ForbiddenPorts, q.forbidden, s, v); }
  }

  // ---------------------------------------------------------------------------------------------
  // All ports through the passes
  // ---------------------------------------------------------------------------------------------

  /** Which ports fall back, given which of them are assigned a PVID. */
  predicate FallsBack(seen: Ops, gone: set<VlanId>, p: Id, was: Policy) {
    was.pvid in gone && Slot(PortPvid, p) !in seen
  }

  ghost function PortGrows(done: Ops, ops: Ops, gone: set<VlanId>): (Id, Port, Port) -> bool {
    (p: Id, was: Port, q: Port) => q.hw == was.hw && Growing(done, gone, Falls(ops, gone, p, was.policy), p, was.policy, q.policy)
  }

  ghost predicate PortsGrow(done: Ops, ops: Ops, gone: set<VlanId>, before: map<Id, Port>, after: map<Id, Port>) {
    after.Keys == before.Keys && forall p :: p in before ==> PortGrows(done, ops, gone)(p, before[p], after[p])
  }

  function StartedPorts(ports: map<Id, Port>, seen: Ops, gone: set<VlanId>): map<Id, Port> {
    map p | p in ports :: ports[p].(policy := Started(ports[p].policy, gone, FallsBack(seen, gone, p, ports[p].policy)))
  }

  function SteppedPorts(ports: map<Id, Port>, s: Slot, v: Value): map<Id, Port> {
    map p | p in ports :: ports[p].(policy := Stepped(ports[p].policy, p, s, v))
  }

  ghost predicate DistinctLists(was: Policy) {
    NoDuplicates(was.admitted) && NoDuplicates(was.untagged) && NoDuplicates(was.forbidden)
  }

  lemma ListsDistinct(ports: map<Id, Port>, vids: set<VlanId>)
    requires PortsOk(ports, vids)
    ensures forall p :: p in ports ==> DistinctLists(ports[p].policy)
  {
  }

  lemma StartedPortGrows(ops: Ops, gone: set<VlanId>, p: Id, was: Port)
    requires DistinctLists(was.policy) && DEFAULT_VLAN !in gone
    ensures PortGrows(map[], ops, gone)(p, was, was.(policy := Started(was.policy, gone, FallsBack(ops, gone, p, was.policy))))
  {
    StartedGrows(gone, Falls(ops, gone, p, was.policy), p, was.policy);
  }

  lemma StartedPortsGrow(ops: Ops, gone: set<VlanId>, ports: map<Id, Port>, vids: set<VlanId>)
    requires PortsOk(ports, vids) && DEFAULT_VLAN !in gone
    ensures PortsGrow(map[], ops, gone, ports, StartedPorts(ports, ops, gone))
  {
    ListsDistinct(ports, vids);
    var none: Ops := map[];
    var grows := PortGrows(none, ops, gone);
    forall p | p in ports ensures grows(p, ports[p], StartedPorts(ports, ops, gone)[p]) { StartedPortGrows(ops, gone, p, ports[p]); }
  }

  lemma SteppedPortsGrow(done: Ops, ops: Ops, gone: set<VlanId>, before: map<Id, Port>, after: map<Id, Port>, vids: set<VlanId>,
                         s: Slot, v: Value)
    requires PortsGrow(done, ops, gone, before, after) && s !in done && gone == Gone(vids, ops)
    requires OpOk(before.Keys, vids, ops, s, v)
    ensures PortsGrow(done[s := v], ops, gone, before, SteppedPorts(after, s, v))
  {
    forall p | p in before ensures PortGrows(done[s := v], ops, gone)(p, before[p], SteppedPorts(after, s, v)[p]) {
      assert PortGrows(done, ops, gone)(p, before[p], after[p]);
      SteppedGrows(done, gone, Falls(ops, gone, p, before[p].policy), p, before[p].policy, after[p].policy, before.Keys, vids,
                   ops, s, v);
    }
  }

  lemma GrownPortsMeet(ops: Ops, gone: set<VlanId>, before: map<Id, Port>, after: map<Id, Port>)
    requires PortsGrow(ops, ops, gone, before, after)
    ensures PortsMeet(ops, gone, before, after)
  {
    forall p | p in before ensures PolicyMeets(ops, gone, p, before[p].policy, after[p].policy) {
      GrowingMeets(ops, gone, Falls(ops, gone, p, before[p].policy), p, before[p].policy, after[p].policy);
    }
  }

  // ---------------------------------------------------------------------------------------------
  // The VLANs through the passes
  // ---------------------------------------------------------------------------------------------

  function StartedVlans(vlans: map<VlanId, Vlan>, gone: set<VlanId>, created: set<VlanId>): map<VlanId, Vlan> {
    map v | v in vlans.Keys + created && (v in created || v !in gone) :: if v in created then Vlan(v, [], FDB_BASE + v) else vlans[v]
  }

  function SteppedVlans(vlans: map<VlanId, Vlan>, s: Slot, v: Value): map<VlanId, Vlan> {
    if s.kind.StaticName? && v.Label? && s.key in vlans then vlans[s.key := vlans[s.key].(name := v.name)] else vlans
  }

  function Renamed(start: map<VlanId, Vlan>, done: Ops): map<VlanId, Vlan> {
    map v | v in start :: start[v].(name := Named(done, v, start[v].name))
  }

  lemma NoneRenamed(start: map<VlanId, Vlan>)
    ensures Renamed(start, map[]) == start
  {
  }

  lemma NamedOnce(done: Ops, s: Slot, v: Value, w: VlanId, otherwise: VlanName)
    requires s.kind.StaticName? ==> v.Label?
    ensures Named(done[s := v], w, otherwise) == if s == Slot(StaticName, w) then v.name else Named(done, w, otherwise)
  {
  }

  lemma SteppedRenamed(start: map<VlanId, Vlan>, done: Ops, s: Slot, v: Value)
    requires s !in done && (s.kind.StaticName? ==> v.Label? && s.key in start)
    ensures SteppedVlans(Renamed(start, done), s, v) == Renamed(start, done[s := v])
  {
    forall w | w in start { NamedOnce(done, s, v, w, start[w].name); }
  }

  lemma NamedAre(vlans: map<VlanId, Vlan>, ops: Ops, ports: set<Id>)
    requires OpsOk(ports, vlans.Keys, ops)
    ensures Renamed(StartedVlans(vlans, Gone(vlans.Keys, ops), Created(ops)), ops) == NextVlans(vlans, ops)
  {
    forall v ensures v in StartedVlans(vlans, Gone(vlans.Keys, ops), Created(ops)) <==> v in NextVlans(vlans, ops) {
      NextVids(ops, vlans, v);
      if v in Created(ops) { var s :| s in ops && s.kind.RowStatus? && ops[s] == Number(4) && s.key == v; assert s == Slot(RowStatus, v); }
    }
  }

  // ---------------------------------------------------------------------------------------------
  // PAE actions
  // ---------------------------------------------------------------------------------------------

  function SteppedActions(actions: map<int, PaeAction>, s: Slot, v: Value): map<int, PaeAction> {
    if IsAsk(s, v) && (s.kind.PaeInitialize? || s.key !in actions)
    then actions[s.key := if s.kind.PaeInitialize? then InitializePort else ReauthenticatePort] else actions
  }

  lemma ActionsAre(ops: Ops, k: int)
    ensures k in PaeActions(ops) <==> Asks(ops, PaeInitialize, k) || Asks(ops, PaeReauthenticate, k)
    ensures k in PaeActions(ops) ==> PaeActions(ops)[k] == if Asks(ops, PaeInitialize, k) then InitializePort else ReauthenticatePort
  {
    if k in PaeActions(ops) {
      var s :| s in ops && IsAsk(s, ops[s]) && s.key == k;
      assert s == Slot(PaeInitialize, k) || s == Slot(PaeReauthenticate, k);
    }
    if Asks(ops, PaeInitialize, k) { assert IsAsk(Slot(PaeInitialize, k), ops[Slot(PaeInitialize, k)]); }
    if Asks(ops, PaeReauthenticate, k) { assert IsAsk(Slot(PaeReauthenticate, k), ops[Slot(PaeReauthenticate, k)]); }
  }

  /** Whichever of the two requests comes first, initializing wins. */
  lemma SteppedActionsAre(done: Ops, s: Slot, v: Value)
    requires s !in done
    ensures SteppedActions(PaeActions(done), s, v) == PaeActions(done[s := v])
  {
    var a, b := SteppedActions(PaeActions(done), s, v), PaeActions(done[s := v]);
    forall k ensures (k in a <==> k in b) && (k in a ==> a[k] == b[k]) {
      ActionsAre(done, k);
      ActionsAre(done[s := v], k);
      assert s.key == k && s.kind.PaeInitialize? ==> s == Slot(PaeInitialize, k);
      assert s.key == k && s.kind.PaeReauthenticate? ==> s == Slot(PaeReauthenticate, k);
      ActionsAre(done, s.key);
    }
  }
}
