/**
 * What a SET request means: the configuration it denotes as a function of the objects it assigns, when that configuration is
 * valid, and which assignments are charged with a broken relation.
 */
module SetEffects {
  import opened Outcomes
  import opened Lists
  import opened Configuration
  import opened SetRequests

  type Ops = map<Slot, Value>

  // ---------------------------------------------------------------------------------------------
  // What checked assignments look like
  // ---------------------------------------------------------------------------------------------

  ghost predicate OpOk(ports: set<Id>, vids: set<VlanId>, ops: Ops, s: Slot, v: Value) {
    match s.kind
    case AdminStatus | PaeInitialize | PaeReauthenticate => s.key in ports && v.Number? && v.n in {1, 2}
    case PaeControl => s.key in ports && v.Number? && v.n in {1, 2, 3}
    case PortPvid => s.key in ports && v.Number? && 1 <= v.n <= 4094
    case StaticName => v.Label? && Lasts(vids, ops, s.key)
    case EgressPorts | ForbiddenPorts | UntaggedPorts => v.Members? && v.ports <= ports && Lasts(vids, ops, s.key)
    case RowStatus => 1 <= s.key <= 4094 && v.Number? && if s.key in vids then v.n == 1 || (v.n == 6 && s.key != 1) else v.n == 4 || v.n == 6
  }

  /** The VLAN exists or is created, and is not destroyed. */
  predicate Lasts(vids: set<VlanId>, ops: Ops, v: int) {
    1 <= v <= 4094 && (v in vids || Commanded(ops, v, 4)) && !Commanded(ops, v, 6)
  }

  ghost predicate OpsOk(ports: set<Id>, vids: set<VlanId>, ops: Ops) {
    forall s :: s in ops ==> OpOk(ports, vids, ops, s, ops[s])
  }

  lemma PortsOfWithin(d: Directory, ports: map<Id, Port>, octets: Bytes)
    requires Indexes(d, ports) && PortsOf(d.byBridge, octets).Some?
    ensures PortsOf(d.byBridge, octets).value <= ports.Keys
  {
  }

  lemma CheckedOpOk(ports: map<Id, Port>, vids: set<VlanId>, d: Directory, includes: seq<Oid>, ops: Ops, b: Binding)
    requires Indexes(d, ports) && DEFAULT_VLAN in vids
    requires Checked(vids, d, includes, Intent(RowsAt(ops, 4), RowsAt(ops, 6)), b).Ok?
    ensures var c := Checked(vids, d, includes, Intent(RowsAt(ops, 4), RowsAt(ops, 6)), b).value;
            OpOk(ports.Keys, vids, ops, c.0, c.1)
  {
    var c := Checked(vids, d, includes, Intent(RowsAt(ops, 4), RowsAt(ops, 6)), b).value;
    RowsAtAre(ops, 4, c.0.key);
    RowsAtAre(ops, 6, c.0.key);
    if OfMembers(c.0.kind) { PortsOfWithin(d, ports, b.wire.octets); }
  }

  /** Everything an accepted request assigns is well-formed. */
  lemma AcceptedOpsOk(ports: map<Id, Port>, vids: set<VlanId>, d: Directory, includes: seq<Oid>, bindings: seq<Binding>)
    requires Indexes(d, ports) && DEFAULT_VLAN in vids && Request(vids, d, includes, bindings).Ok?
    ensures var made := Request(vids, d, includes, bindings).value;
            && Consistent(made) && Says(made, OpsOf(made)) && OpsOk(ports.Keys, vids, OpsOf(made))
            && (forall i :: 0 <= i < |made| ==> made[i].index == i + 1)
            && |made| == |bindings|
            && IntentOf(Row(), bindings) == Intent(RowsAt(OpsOf(made), 4), RowsAt(OpsOf(made), 6))
  {
    var intent := IntentOf(Row(), bindings);
    var check := Checker(vids, d, includes, intent);
    var made := Request(vids, d, includes, bindings).value;
    var ops := OpsOf(made);
    forall x ensures RowFaithful(check, Row(), x) { CheckerFaithful(vids, d, includes, intent, x); }
    AssignedIsMirror(check, bindings);
    OpsSay(made);
    IntentIsSaid(check, Row(), bindings, made);
    forall s | s in ops ensures OpOk(ports.Keys, vids, ops, s, ops[s]) {
      var i :| 0 <= i < |made| && made[i].slot == s;
      assert check(bindings[i]) == Checked(vids, d, includes, intent, bindings[i]);
      CheckedOpOk(ports, vids, d, includes, ops, bindings[i]);
    }
  }

  // ---------------------------------------------------------------------------------------------
  // The simultaneous assignment
  // ---------------------------------------------------------------------------------------------

  /** The VLANs a request deletes, and those it creates. */
  function Gone(vids: set<VlanId>, ops: Ops): set<VlanId> {
    set v | v in vids && Commanded(ops, v, 6)
  }

  function Created(ops: Ops): set<VlanId> {
    set s | s in ops && s.kind.RowStatus? && ops[s] == Number(4) && 1 <= s.key <= 4094 :: s.key
  }

  /** Losing its PVID without being given another, a port falls back on VLAN 1. */
  predicate Falls(ops: Ops, gone: set<VlanId>, p: Id, was: Policy) {
    was.pvid in gone && Slot(PortPvid, p) !in ops
  }

  function Held(was: Policy, k: Kind): seq<int>
    requires OfMembers(k)
  {
    match k
    case EgressPorts => was.admitted
    case UntaggedPorts => was.untagged
    case ForbiddenPorts => was.forbidden
  }

  /** Membership after the assignments in `ops`, for a port that does or does not fall back on VLAN 1. */
  predicate BelongsAs(ops: Ops, gone: set<VlanId>, falls: bool, p: Id, was: Policy, k: Kind, v: int)
    requires OfMembers(k)
  {
    if Slot(k, v) in ops then ops[Slot(k, v)].Members? && p in ops[Slot(k, v)].ports
    else v !in gone && (v in Held(was, k) || (v == 1 && falls && (k.EgressPorts? || (k.UntaggedPorts? && was.pvid in was.untagged))))
  }

  /** Whether the port belongs to the VLAN's egress, untagged or forbidden ports after the request. */
  predicate Belongs(ops: Ops, gone: set<VlanId>, p: Id, was: Policy, k: Kind, v: int)
    requires OfMembers(k)
  {
    BelongsAs(ops, gone, Falls(ops, gone, p, was), p, was, k, v)
  }

  function Assigns(ops: Ops, k: Kind, p: Id, otherwise: int): int {
    if Slot(k, p) in ops && ops[Slot(k, p)].Number? then ops[Slot(k, p)].n else otherwise
  }

  function ControlOf(n: int, otherwise: Control): Control {
    match n
    case 1 => ForceUnauthorized
    case 2 => Auto
    case 3 => ForceAuthorized
    case _ => otherwise
  }

  function NumberOf(c: Control): int {
    match c
    case ForceUnauthorized => 1
    case Auto => 2
    case ForceAuthorized => 3
  }

  ghost predicate ListMeets(ops: Ops, gone: set<VlanId>, falls: bool, p: Id, was: Policy, k: Kind, after: seq<int>)
    requires OfMembers(k)
  {
    && NoDuplicates(after)
    && (forall v :: v in after <==> BelongsAs(ops, gone, falls, p, was, k, v))
    && ((forall v :: v in Held(was, k) <==> v in after) ==> after == Held(was, k))
  }

  ghost predicate PolicyMeetsAs(ops: Ops, gone: set<VlanId>, falls: bool, p: Id, was: Policy, q: Policy) {
    && q == was.(adminUp := q.adminUp, pvid := q.pvid, admitted := q.admitted, untagged := q.untagged, forbidden := q.forbidden,
                 authentication := was.authentication.(control := q.authentication.control))
    && q.adminUp == (Assigns(ops, AdminStatus, p, if was.adminUp then 1 else 2) == 1)
    && q.authentication.control == ControlOf(Assigns(ops, PaeControl, p, 0), was.authentication.control)
    && q.pvid == Assigns(ops, PortPvid, p, if falls then 1 else was.pvid)
    && ListMeets(ops, gone, falls, p, was, EgressPorts, q.admitted)
    && ListMeets(ops, gone, falls, p, was, UntaggedPorts, q.untagged)
    && ListMeets(ops, gone, falls, p, was, ForbiddenPorts, q.forbidden)
  }

  /** The policy `q` is what the request makes of the policy `was` of port `p`, up to the order of its lists. */
  ghost predicate PolicyMeets(ops: Ops, gone: set<VlanId>, p: Id, was: Policy, q: Policy) {
    PolicyMeetsAs(ops, gone, Falls(ops, gone, p, was), p, was, q)
  }

  function Named(ops: Ops, v: VlanId, otherwise: VlanName): VlanName {
    if Slot(StaticName, v) in ops && ops[Slot(StaticName, v)].Label? then ops[Slot(StaticName, v)].name else otherwise
  }

  function NextVlans(vlans: map<VlanId, Vlan>, ops: Ops): map<VlanId, Vlan> {
    map v | v in vlans.Keys + Created(ops) && !Commanded(ops, v, 6) ::
      if v in Created(ops) then Vlan(v, Named(ops, v, []), FDB_BASE + v)
      else vlans[v].(name := Named(ops, v, vlans[v].name))
  }

  function NextLegacy(vids: set<VlanId>, ops: Ops, legacy: VlanId): VlanId {
    if legacy in Gone(vids, ops) then DEFAULT_VLAN else legacy
  }

  ghost predicate PortsMeet(ops: Ops, gone: set<VlanId>, before: map<Id, Port>, after: map<Id, Port>) {
    && after.Keys == before.Keys
    && forall p :: p in before ==> after[p].hw == before[p].hw && PolicyMeets(ops, gone, p, before[p].policy, after[p].policy)
  }

  /** The configuration `c` is what the request makes of `cfg`. */
  ghost predicate Meets(cfg: Configuration, ops: Ops, c: Configuration) {
    && c == cfg.(ports := c.ports, vlans := NextVlans(cfg.vlans, ops),
                 switch := cfg.switch.(legacyVlan := NextLegacy(cfg.vlans.Keys, ops, cfg.switch.legacyVlan)))
    && PortsMeet(ops, Gone(cfg.vlans.Keys, ops), cfg.ports, c.ports)
  }

  // ---------------------------------------------------------------------------------------------
  // Broken relations and who is charged with them
  // ---------------------------------------------------------------------------------------------

  predicate Overlaps(q: Policy, v: int) {
    v in q.admitted && v in q.forbidden
  }

  predicate Stray(q: Policy, v: int) {
    v in q.untagged && v !in q.admitted
  }

  predicate Missing(q: Policy) {
    q.pvid !in q.admitted
  }

  ghost predicate Broken(q: Policy) {
    Missing(q) || exists v :: Overlaps(q, v) || Stray(q, v)
  }

  /** An assignment that takes part in a broken relation of the port, or the deletion that made the port fall back into one. */
  predicate Charged(pvidGiven: bool, gone: set<VlanId>, p: Id, was: Policy, q: Policy, a: Assignment) {
    var key := a.slot.key;
    match a.slot.kind
    case PortPvid => key == p && Missing(q)
    case EgressPorts => Overlaps(q, key) || Stray(q, key) || (key == q.pvid && Missing(q))
    case ForbiddenPorts => Overlaps(q, key)
    case UntaggedPorts => Stray(q, key)
    case RowStatus =>
      && a.value == Number(6) && key == was.pvid && key in gone && !pvidGiven
      && (Overlaps(q, 1) || Stray(q, 1) || (q.pvid == 1 && Missing(q)))
    case _ => false
  }

  lemma SlotIsMade(made: seq<Assignment>, ops: Ops, s: Slot) returns (i: nat)
    requires Says(made, ops) && s in ops
    ensures i < |made| && made[i].slot == s && made[i].value == ops[s]
  {
    i :| 0 <= i < |made| && made[i].slot == s;
  }

  ghost predicate SomeCharged(made: seq<Assignment>, ops: Ops, gone: set<VlanId>, p: Id, was: Policy, q: Policy) {
    exists i :: 0 <= i < |made| && Charged(Slot(PortPvid, p) in ops, gone, p, was, q, made[i])
  }

  lemma MissingIsCharged(made: seq<Assignment>, ops: Ops, vids: set<VlanId>, p: Id, was: Policy, q: Policy)
    requires Says(made, ops) && PolicyOk(was, vids) && DEFAULT_VLAN in vids && PolicyMeets(ops, Gone(vids, ops), p, was, q) && Missing(q)
    requires !Commanded(ops, 1, 6)
    ensures SomeCharged(made, ops, Gone(vids, ops), p, was, q)
  {
    if Slot(PortPvid, p) in ops {
      var i := SlotIsMade(made, ops, Slot(PortPvid, p));
      assert Charged(true, Gone(vids, ops), p, was, q, made[i]);
    } else {
      assert !Belongs(ops, Gone(vids, ops), p, was, EgressPorts, q.pvid);
      var i := SlotIsMade(made, ops, Slot(EgressPorts, q.pvid));
      assert Charged(false, Gone(vids, ops), p, was, q, made[i]);
    }
  }

  /** The deletion of its PVID is charged when falling back on VLAN 1 breaks a relation of the port. */
  lemma FallIsCharged(made: seq<Assignment>, ops: Ops, vids: set<VlanId>, p: Id, was: Policy, q: Policy)
    requires Says(made, ops) && Falls(ops, Gone(vids, ops), p, was)
    requires Overlaps(q, 1) || Stray(q, 1)
    ensures SomeCharged(made, ops, Gone(vids, ops), p, was, q)
  {
    var i := SlotIsMade(made, ops, Slot(RowStatus, was.pvid));
    assert Charged(false, Gone(vids, ops), p, was, q, made[i]);
  }

  lemma OverlapIsCharged(made: seq<Assignment>, ops: Ops, vids: set<VlanId>, p: Id, was: Policy, q: Policy, v: int)
    requires Says(made, ops) && PolicyOk(was, vids) && PolicyMeets(ops, Gone(vids, ops), p, was, q) && Overlaps(q, v)
    ensures SomeCharged(made, ops, Gone(vids, ops), p, was, q)
  {
    var gone := Gone(vids, ops);
    assert Belongs(ops, gone, p, was, EgressPorts, v) && Belongs(ops, gone, p, was, ForbiddenPorts, v);
    if Slot(EgressPorts, v) in ops {
      var i := SlotIsMade(made, ops, Slot(EgressPorts, v));
      assert Charged(Slot(PortPvid, p) in ops, gone, p, was, q, made[i]);
    } else if Slot(ForbiddenPorts, v) in ops {
      var i := SlotIsMade(made, ops, Slot(ForbiddenPorts, v));
      assert Charged(Slot(PortPvid, p) in ops, gone, p, was, q, made[i]);
    } else {
      FallIsCharged(made, ops, vids, p, was, q);
    }
  }

  lemma StrayIsCharged(made: seq<Assignment>, ops: Ops, vids: set<VlanId>, p: Id, was: Policy, q: Policy, v: int)
    requires Says(made, ops) && PolicyOk(was, vids) && PolicyMeets(ops, Gone(vids, ops), p, was, q) && Stray(q, v)
    ensures SomeCharged(made, ops, Gone(vids, ops), p, was, q)
  {
    var gone := Gone(vids, ops);
    assert Belongs(ops, gone, p, was, UntaggedPorts, v) && !Belongs(ops, gone, p, was, EgressPorts, v);
    if Slot(EgressPorts, v) in ops {
      var i := SlotIsMade(made, ops, Slot(EgressPorts, v));
      assert Charged(Slot(PortPvid, p) in ops, gone, p, was, q, made[i]);
    } else {
      var i := SlotIsMade(made, ops, Slot(UntaggedPorts, v));
      assert Charged(Slot(PortPvid, p) in ops, gone, p, was, q, made[i]);
    }
  }

  /** Every relation that a request breaks is charged to one of its assignments. */
  lemma BrokenIsCharged(made: seq<Assignment>, ops: Ops, vids: set<VlanId>, p: Id, was: Policy, q: Policy)
    requires Says(made, ops) && PolicyOk(was, vids) && DEFAULT_VLAN in vids && PolicyMeets(ops, Gone(vids, ops), p, was, q) && Broken(q)
    requires !Commanded(ops, 1, 6)
    ensures SomeCharged(made, ops, Gone(vids, ops), p, was, q)
  {
    if Missing(q) {
      MissingIsCharged(made, ops, vids, p, was, q);
    } else {
      var v :| Overlaps(q, v) || Stray(q, v);
      if Overlaps(q, v) { OverlapIsCharged(made, ops, vids, p, was, q, v); } else { StrayIsCharged(made, ops, vids, p, was, q, v); }
    }
  }

  /** Only broken ports charge anyone. */
  lemma ChargedIsBroken(pvidGiven: bool, gone: set<VlanId>, p: Id, was: Policy, q: Policy, a: Assignment)
    requires Charged(pvidGiven, gone, p, was, q, a)
    ensures Broken(q)
  {
  }

  // ---------------------------------------------------------------------------------------------
  // When the configuration a request denotes is valid
  // ---------------------------------------------------------------------------------------------

  lemma MembersLast(ops: Ops, ports: set<Id>, vlans: map<VlanId, Vlan>, p: Id, was: Policy, k: Kind, v: int)
    requires OpsOk(ports, vlans.Keys, ops) && PolicyOk(was, vlans.Keys) && DEFAULT_VLAN in vlans && OfMembers(k)
    requires Belongs(ops, Gone(vlans.Keys, ops), p, was, k, v)
    ensures v in NextVlans(vlans, ops)
  {
    NextVids(ops, vlans, v);
    if Slot(k, v) in ops {
      assert OpOk(ports, vlans.Keys, ops, Slot(k, v), ops[Slot(k, v)]);
    } else {
      OneStays(ops, ports, vlans.Keys);
    }
  }

  lemma OneStays(ops: Ops, ports: set<Id>, vids: set<VlanId>)
    requires OpsOk(ports, vids, ops) && DEFAULT_VLAN in vids
    ensures !Commanded(ops, 1, 6)
  {
    if Slot(RowStatus, 1) in ops {
      assert OpOk(ports, vids, ops, Slot(RowStatus, 1), ops[Slot(RowStatus, 1)]);
    }
  }

  lemma CreatedAre(ops: Ops, v: int)
    ensures v in Created(ops) <==> 1 <= v <= 4094 && Commanded(ops, v, 4)
  {
    if v in Created(ops) {
      var s :| s in ops && s.kind.RowStatus? && ops[s] == Number(4) && s.key == v;
      assert s == Slot(RowStatus, v);
    } else if 1 <= v <= 4094 && Slot(RowStatus, v) in ops {
      assert ops[Slot(RowStatus, v)] != Number(4);
    }
  }

  lemma NextVids(ops: Ops, vlans: map<VlanId, Vlan>, v: int)
    ensures v in NextVlans(vlans, ops) <==> 1 <= v <= 4094 && (v in vlans || Commanded(ops, v, 4)) && !Commanded(ops, v, 6)
  {
    CreatedAre(ops, v);
  }

  /** The policy of a port that ends unbroken satisfies the validator, and only such a policy does. */
  lemma UnbrokenIsOk(ops: Ops, ports: set<Id>, vlans: map<VlanId, Vlan>, p: Id, was: Policy, q: Policy)
    requires OpsOk(ports, vlans.Keys, ops) && PolicyOk(was, vlans.Keys) && DEFAULT_VLAN in vlans
    requires PolicyMeets(ops, Gone(vlans.Keys, ops), p, was, q)
    ensures PolicyOk(q, NextVlans(vlans, ops).Keys) <==> !Broken(q)
  {
    var gone := Gone(vlans.Keys, ops);
    forall v | v in q.admitted ensures v in NextVlans(vlans, ops) { MembersLast(ops, ports, vlans, p, was, EgressPorts, v); }
    forall v | v in q.untagged ensures v in NextVlans(vlans, ops) { MembersLast(ops, ports, vlans, p, was, UntaggedPorts, v); }
    forall v | v in q.forbidden ensures v in NextVlans(vlans, ops) { MembersLast(ops, ports, vlans, p, was, ForbiddenPorts, v); }
    BrokenMeans(q);
  }

  lemma BrokenMeans(q: Policy)
    ensures Broken(q) <==> !(q.pvid in q.admitted && (forall v :: v in q.untagged ==> v in q.admitted)
                             && (forall v :: v in q.forbidden ==> v !in q.admitted))
  {
    if v :| v in q.untagged && v !in q.admitted { assert Stray(q, v); }
    if v :| v in q.forbidden && v in q.admitted { assert Overlaps(q, v); }
  }

  predicate Collides(vlans: map<VlanId, Vlan>, v: VlanId)
    requires v in vlans
  {
    exists w :: w in vlans && w != v && vlans[w].fdbId == vlans[v].fdbId
  }

  ghost predicate NoneCollides(vlans: map<VlanId, Vlan>, created: set<VlanId>) {
    forall v :: v in created && v in vlans ==> !Collides(vlans, v)
  }

  lemma NextVlanAt(ops: Ops, ports: set<Id>, vlans: map<VlanId, Vlan>, v: VlanId)
    requires OpsOk(ports, vlans.Keys, ops) && v in NextVlans(vlans, ops)
    ensures v in Created(ops) <==> v !in vlans
    ensures v in vlans ==> NextVlans(vlans, ops)[v].fdbId == vlans[v].fdbId && NextVlans(vlans, ops)[v].vid == vlans[v].vid
  {
    if v in Created(ops) {
      var s :| s in ops && s.kind.RowStatus? && ops[s] == Number(4) && s.key == v;
      assert OpOk(ports, vlans.Keys, ops, s, ops[s]);
    }
  }

  lemma VlansDecide(ops: Ops, ports: set<Id>, vlans: map<VlanId, Vlan>, legacy: VlanId)
    requires OpsOk(ports, vlans.Keys, ops) && VlansOk(vlans, legacy)
    ensures var next := NextVlans(vlans, ops);
            VlansOk(next, NextLegacy(vlans.Keys, ops, legacy)) <==> NoneCollides(next, Created(ops))
  {
    var next := NextVlans(vlans, ops);
    OneStays(ops, ports, vlans.Keys);
    NextVids(ops, vlans, 1);
    NextVids(ops, vlans, legacy);
    forall v | v in next ensures (v in Created(ops) <==> v !in vlans) && next[v].vid == v {
      NextVlanAt(ops, ports, vlans, v);
    }
    CollisionsDecide(vlans, next, Created(ops), ops, ports);
  }

  lemma CollisionsDecide(vlans: map<VlanId, Vlan>, next: map<VlanId, Vlan>, created: set<VlanId>, ops: Ops, ports: set<Id>)
    requires OpsOk(ports, vlans.Keys, ops) && next == NextVlans(vlans, ops) && created == Created(ops)
    requires forall v, w :: v in vlans && w in vlans && v != w ==> vlans[v].fdbId != vlans[w].fdbId
    ensures (forall v, w :: v in next && w in next && v != w ==> next[v].fdbId != next[w].fdbId) <==> NoneCollides(next, created)
  {
    if NoneCollides(next, created) {
      forall v, w | v in next && w in next && v != w ensures next[v].fdbId != next[w].fdbId {
        NextVlanAt(ops, ports, vlans, v);
        NextVlanAt(ops, ports, vlans, w);
        assert v in created ==> !Collides(next, v);
        assert w in created ==> !Collides(next, w);
      }
    }
  }

  ghost predicate NoneBroken(ports: map<Id, Port>) {
    forall p :: p in ports ==> !Broken(ports[p].policy)
  }

  lemma PortDecides(ops: Ops, before: map<Id, Port>, after: map<Id, Port>, vlans: map<VlanId, Vlan>, p: Id)
    requires OpsOk(before.Keys, vlans.Keys, ops) && PortsOk(before, vlans.Keys) && DEFAULT_VLAN in vlans
    requires PortsMeet(ops, Gone(vlans.Keys, ops), before, after) && p in before
    ensures after[p].hw.id == p && (PolicyOk(after[p].policy, NextVlans(vlans, ops).Keys) <==> !Broken(after[p].policy))
  {
    assert PolicyMeets(ops, Gone(vlans.Keys, ops), p, before[p].policy, after[p].policy);
    UnbrokenIsOk(ops, before.Keys, vlans, p, before[p].policy, after[p].policy);
  }

  lemma AllDecide(after: map<Id, Port>, vids: set<VlanId>)
    requires forall p :: p in after ==> after[p].hw.id == p && (PolicyOk(after[p].policy, vids) <==> !Broken(after[p].policy))
    ensures PortsOk(after, vids) <==> NoneBroken(after)
  {
  }

  lemma PortsDecide(ops: Ops, before: map<Id, Port>, after: map<Id, Port>, vlans: map<VlanId, Vlan>)
    requires OpsOk(before.Keys, vlans.Keys, ops) && PortsOk(before, vlans.Keys) && DEFAULT_VLAN in vlans
    requires PortsMeet(ops, Gone(vlans.Keys, ops), before, after)
    ensures PortsOk(after, NextVlans(vlans, ops).Keys) <==> NoneBroken(after)
  {
    forall p | p in after
      ensures after[p].hw.id == p && (PolicyOk(after[p].policy, NextVlans(vlans, ops).Keys) <==> !Broken(after[p].policy))
    {
      PortDecides(ops, before, after, vlans, p);
    }
    AllDecide(after, NextVlans(vlans, ops).Keys);
  }

  /**
   * What a request makes of a valid configuration satisfies the whole validator exactly when no port ends broken and no created
   * VLAN collides: the relations that the planner re-checks are the only ones that can fail.
   */
  lemma MeetsDecides(cfg: Configuration, ops: Ops, c: Configuration)
    requires Valid(cfg) && OpsOk(cfg.ports.Keys, cfg.vlans.Keys, ops) && Meets(cfg, ops, c)
    ensures Valid(c) <==> NoneBroken(c.ports) && NoneCollides(c.vlans, Created(ops))
  {
    VlansDecide(ops, cfg.ports.Keys, cfg.vlans, cfg.switch.legacyVlan);
    PortsDecide(ops, cfg.ports, c.ports, cfg.vlans);
    SameHardware(cfg.ports, c.ports, cfg.chassis, cfg.attachments, cfg.endpoints.Keys);
    Decided(cfg, c, NoneBroken(c.ports), NoneCollides(c.vlans, Created(ops)));
  }

  lemma Decided(cfg: Configuration, c: Configuration, unbroken: bool, distinct: bool)
    requires Valid(cfg) && c == cfg.(ports := c.ports, vlans := c.vlans, switch := c.switch)
    requires VlansOk(c.vlans, c.switch.legacyVlan) <==> distinct
    requires PortsOk(c.ports, c.vlans.Keys) <==> unbroken
    requires InventoryOk(c.ports, c.chassis) && AttachmentsOk(c.attachments, c.endpoints.Keys, c.ports)
    ensures Valid(c) <==> unbroken && distinct
  {
  }
}
