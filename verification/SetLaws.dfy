/** Which assignments change anything, and the laws of simultaneous requests: order, repetition and reading back. */
module SetLaws {
  import opened Configuration
  import opened SetRequests
  import opened SetEffects

  datatype PaeAction = InitializePort | ReauthenticatePort

  predicate Asks(ops: Ops, k: Kind, p: int) {
    Slot(k, p) in ops && ops[Slot(k, p)] == Number(1)
  }

  predicate IsAsk(s: Slot, v: Value) {
    (s.kind.PaeInitialize? || s.kind.PaeReauthenticate?) && v == Number(1)
  }

  /** One action for each port asked for one; initializing beats reauthenticating. */
  function PaeActions(ops: Ops): map<int, PaeAction> {
    map s | s in ops && IsAsk(s, ops[s]) :: s.key := if Asks(ops, PaeInitialize, s.key) then InitializePort else ReauthenticatePort
  }

  /** The assignment asks for something that is not already so. */
  predicate Effective(cfg: Configuration, s: Slot, v: Value) {
    match s.kind
    case AdminStatus => s.key in cfg.ports && v.Number? && (v.n == 1) != cfg.ports[s.key].policy.adminUp
    case PaeControl => s.key in cfg.ports && v.Number? && NumberOf(cfg.ports[s.key].policy.authentication.control) != v.n
    case PaeInitialize | PaeReauthenticate => v == Number(1)
    case PortPvid => s.key in cfg.ports && v.Number? && v.n != cfg.ports[s.key].policy.pvid
    case StaticName => s.key !in cfg.vlans || (v.Label? && v.name != cfg.vlans[s.key].name)
    case RowStatus => v == Number(4) || (v == Number(6) && s.key in cfg.vlans)
    case EgressPorts | ForbiddenPorts | UntaggedPorts =>
      v.Members? && v.ports != MembersAt(cfg.ports, s.kind, s.key)
  }

  function MembersAt(ports: map<Id, Port>, k: Kind, v: int): set<Id>
    requires OfMembers(k)
  {
    set p | p in ports && v in Held(ports[p].policy, k)
  }

  ghost predicate NoneEffective(cfg: Configuration, ops: Ops) {
    forall s :: s in ops ==> !Effective(cfg, s, ops[s])
  }

  // ---------------------------------------------------------------------------------------------
  // A plan changes something exactly when an assignment is effective
  // ---------------------------------------------------------------------------------------------

  lemma NothingGone(cfg: Configuration, ops: Ops)
    requires NoneEffective(cfg, ops)
    ensures Gone(cfg.vlans.Keys, ops) == {} && Created(ops) == {} && PaeActions(ops) == map[]
  {
    forall v | v in cfg.vlans ensures !Commanded(ops, v, 6) {
      assert Slot(RowStatus, v) in ops ==> !Effective(cfg, Slot(RowStatus, v), ops[Slot(RowStatus, v)]);
    }
    forall s | s in ops ensures !(s.kind.RowStatus? && ops[s] == Number(4)) && !IsAsk(s, ops[s]) {
      assert !Effective(cfg, s, ops[s]);
    }
    assert PaeActions(ops).Keys == {};
  }

  lemma ListUnchanged(cfg: Configuration, ops: Ops, p: Id, k: Kind, after: seq<int>)
    requires NoneEffective(cfg, ops) && OpsOk(cfg.ports.Keys, cfg.vlans.Keys, ops) && p in cfg.ports && OfMembers(k)
    requires ListMeets(ops, {}, false, p, cfg.ports[p].policy, k, after)
    ensures after == Held(cfg.ports[p].policy, k)
  {
    forall v ensures v in Held(cfg.ports[p].policy, k) <==> v in after {
      if Slot(k, v) in ops {
        assert OpOk(cfg.ports.Keys, cfg.vlans.Keys, ops, Slot(k, v), ops[Slot(k, v)]);
        assert !Effective(cfg, Slot(k, v), ops[Slot(k, v)]);
        assert p in ops[Slot(k, v)].ports <==> p in MembersAt(cfg.ports, k, v);
      }
      assert v in after <==> Belongs(ops, {}, p, cfg.ports[p].policy, k, v);
    }
  }

  lemma PolicyUnchanged(cfg: Configuration, ops: Ops, p: Id, q: Policy)
    requires NoneEffective(cfg, ops) && OpsOk(cfg.ports.Keys, cfg.vlans.Keys, ops) && p in cfg.ports
    requires PolicyMeets(ops, {}, p, cfg.ports[p].policy, q)
    ensures q == cfg.ports[p].policy
  {
    ListUnchanged(cfg, ops, p, EgressPorts, q.admitted);
    ListUnchanged(cfg, ops, p, UntaggedPorts, q.untagged);
    ListUnchanged(cfg, ops, p, ForbiddenPorts, q.forbidden);
    ScalarsUnchanged(cfg, ops, p, q);
  }

  lemma ScalarsUnchanged(cfg: Configuration, ops: Ops, p: Id, q: Policy)
    requires NoneEffective(cfg, ops) && OpsOk(cfg.ports.Keys, cfg.vlans.Keys, ops) && p in cfg.ports
    requires PolicyMeets(ops, {}, p, cfg.ports[p].policy, q)
    ensures q.adminUp == cfg.ports[p].policy.adminUp && q.pvid == cfg.ports[p].policy.pvid
    ensures q.authentication.control == cfg.ports[p].policy.authentication.control
  {
    assert Slot(AdminStatus, p) in ops ==> !Effective(cfg, Slot(AdminStatus, p), ops[Slot(AdminStatus, p)])
                                           && OpOk(cfg.ports.Keys, cfg.vlans.Keys, ops, Slot(AdminStatus, p), ops[Slot(AdminStatus, p)]);
    assert Slot(PaeControl, p) in ops ==> !Effective(cfg, Slot(PaeControl, p), ops[Slot(PaeControl, p)])
                                          && OpOk(cfg.ports.Keys, cfg.vlans.Keys, ops, Slot(PaeControl, p), ops[Slot(PaeControl, p)]);
    assert Slot(PortPvid, p) in ops ==> !Effective(cfg, Slot(PortPvid, p), ops[Slot(PortPvid, p)]);
  }

  lemma VlansUnchanged(cfg: Configuration, ops: Ops)
    requires NoneEffective(cfg, ops) && VlansOk(cfg.vlans, cfg.switch.legacyVlan)
    ensures NextVlans(cfg.vlans, ops) == cfg.vlans && NextLegacy(cfg.vlans.Keys, ops, cfg.switch.legacyVlan) == cfg.switch.legacyVlan
  {
    NothingGone(cfg, ops);
    forall v | v in cfg.vlans ensures v in NextVlans(cfg.vlans, ops) && NextVlans(cfg.vlans, ops)[v] == cfg.vlans[v] {
      assert v !in Gone(cfg.vlans.Keys, ops);
      if Slot(StaticName, v) in ops { assert !Effective(cfg, Slot(StaticName, v), ops[Slot(StaticName, v)]); }
    }
  }

  lemma PortsUnchanged(cfg: Configuration, ops: Ops, after: map<Id, Port>)
    requires NoneEffective(cfg, ops) && OpsOk(cfg.ports.Keys, cfg.vlans.Keys, ops) && PortsMeet(ops, {}, cfg.ports, after)
    ensures after == cfg.ports
  {
    forall p | p in cfg.ports ensures after[p] == cfg.ports[p] {
      assert PolicyMeets(ops, {}, p, cfg.ports[p].policy, after[p].policy);
      PolicyUnchanged(cfg, ops, p, after[p].policy);
    }
  }

  /** Assignments that change nothing leave the configuration exactly as it was. */
  lemma NoneEffectiveChangesNothing(cfg: Configuration, ops: Ops, c: Configuration)
    requires NoneEffective(cfg, ops) && OpsOk(cfg.ports.Keys, cfg.vlans.Keys, ops) && VlansOk(cfg.vlans, cfg.switch.legacyVlan)
    requires Meets(cfg, ops, c)
    ensures c == cfg && PaeActions(ops) == map[]
  {
    NothingGone(cfg, ops);
    VlansUnchanged(cfg, ops);
    PortsUnchanged(cfg, ops, c.ports);
  }

  /** What an accepted assignment of a port's own object says of its port. */
  lemma PortFacts(ops: Ops, vids: set<VlanId>, before: map<Id, Port>, after: map<Id, Port>, s: Slot)
    requires OpsOk(before.Keys, vids, ops) && PortsMeet(ops, Gone(vids, ops), before, after)
    requires s in ops && (s.kind.AdminStatus? || s.kind.PaeControl? || s.kind.PortPvid?)
    ensures s.key in before && s.key in after && ops[s].Number? && s == Slot(s.kind, s.key)
    ensures s.kind.PaeControl? ==> ops[s].n in {1, 2, 3}
    ensures PolicyMeets(ops, Gone(vids, ops), s.key, before[s.key].policy, after[s.key].policy)
  {
    assert OpOk(before.Keys, vids, ops, s, ops[s]);
  }

  lemma ScalarDiffers(ops: Ops, gone: set<VlanId>, p: Id, was: Policy, q: Policy, k: Kind)
    requires PolicyMeets(ops, gone, p, was, q) && Slot(k, p) in ops && ops[Slot(k, p)].Number?
    requires match k
             case AdminStatus => (ops[Slot(k, p)].n == 1) != was.adminUp
             case PaeControl => ops[Slot(k, p)].n in {1, 2, 3} && NumberOf(was.authentication.control) != ops[Slot(k, p)].n
             case PortPvid => ops[Slot(k, p)].n != was.pvid
             case _ => false
    ensures q != was
  {
  }

  lemma EffectiveChangesPort(cfg: Configuration, ops: Ops, c: Configuration, s: Slot)
    requires OpsOk(cfg.ports.Keys, cfg.vlans.Keys, ops) && PortsMeet(ops, Gone(cfg.vlans.Keys, ops), cfg.ports, c.ports)
    requires s in ops && Effective(cfg, s, ops[s]) && (s.kind.AdminStatus? || s.kind.PaeControl? || s.kind.PortPvid?)
    ensures c.ports != cfg.ports
  {
    PortFacts(ops, cfg.vlans.Keys, cfg.ports, c.ports, s);
    ScalarDiffers(ops, Gone(cfg.vlans.Keys, ops), s.key, cfg.ports[s.key].policy, c.ports[s.key].policy, s.kind);
  }

  lemma MembersDiffer(ops: Ops, gone: set<VlanId>, p: Id, was: Policy, q: Policy, k: Kind, v: int)
    requires PolicyMeets(ops, gone, p, was, q) && OfMembers(k) && Slot(k, v) in ops && ops[Slot(k, v)].Members?
    requires (p in ops[Slot(k, v)].ports) != (v in Held(was, k))
    ensures q != was
  {
    assert ListMeets(ops, gone, Falls(ops, gone, p, was), p, was, k, Held(q, k));
    assert v in Held(q, k) <==> Belongs(ops, gone, p, was, k, v);
  }

  lemma MembersChange(ops: Ops, vids: set<VlanId>, before: map<Id, Port>, after: map<Id, Port>, s: Slot, p: Id)
    requires PortsMeet(ops, Gone(vids, ops), before, after) && p in before
    requires s in ops && OfMembers(s.kind) && ops[s].Members? && (p in ops[s].ports) != (s.key in Held(before[p].policy, s.kind))
    ensures after != before
  {
    assert s == Slot(s.kind, s.key);
    MembersDiffer(ops, Gone(vids, ops), p, before[p].policy, after[p].policy, s.kind, s.key);
  }

  lemma SomeMemberDiffers(ports: map<Id, Port>, k: Kind, v: int, members: set<Id>)
    requires OfMembers(k) && members <= ports.Keys && members != MembersAt(ports, k, v)
    ensures exists p :: p in ports && (p in members) != (v in Held(ports[p].policy, k))
  {
    var was := MembersAt(ports, k, v);
    if forall p :: p in members ==> p in was {
      var p :| p in was && p !in members;
    } else {
      var p :| p in members && p !in was;
      assert p in ports;
    }
  }

  lemma EffectiveChangesMembers(cfg: Configuration, ops: Ops, c: Configuration, s: Slot)
    requires OpsOk(cfg.ports.Keys, cfg.vlans.Keys, ops) && PortsMeet(ops, Gone(cfg.vlans.Keys, ops), cfg.ports, c.ports)
    requires s in ops && OfMembers(s.kind) && Effective(cfg, s, ops[s])
    ensures c.ports != cfg.ports
  {
    assert OpOk(cfg.ports.Keys, cfg.vlans.Keys, ops, s, ops[s]);
    SomeMemberDiffers(cfg.ports, s.kind, s.key, ops[s].ports);
    var p :| p in cfg.ports && (p in ops[s].ports) != (s.key in Held(cfg.ports[p].policy, s.kind));
    MembersChange(ops, cfg.vlans.Keys, cfg.ports, c.ports, s, p);
  }

  lemma EffectiveChangesVlans(cfg: Configuration, ops: Ops, s: Slot)
    requires OpsOk(cfg.ports.Keys, cfg.vlans.Keys, ops)
    requires s in ops && Effective(cfg, s, ops[s]) && (s.kind.RowStatus? || s.kind.StaticName?)
    ensures NextVlans(cfg.vlans, ops) != cfg.vlans
  {
    var v := s.key;
    assert OpOk(cfg.ports.Keys, cfg.vlans.Keys, ops, s, ops[s]) && s == Slot(s.kind, v);
    NextVids(ops, cfg.vlans, v);
    if s.kind.StaticName? && v in cfg.vlans {
      NextVlanAt(ops, cfg.ports.Keys, cfg.vlans, v);
      assert NextVlans(cfg.vlans, ops)[v].name == ops[s].name;
    }
  }

  lemma EffectiveAsks(ops: Ops, s: Slot)
    requires s in ops && IsAsk(s, ops[s])
    ensures PaeActions(ops) != map[]
  {
    assert s.key in PaeActions(ops);
  }

  /** A plan changes the configuration or asks for a PAE action exactly when one of its assignments is effective. */
  lemma ChangedIffEffective(cfg: Configuration, ops: Ops, c: Configuration)
    requires OpsOk(cfg.ports.Keys, cfg.vlans.Keys, ops) && VlansOk(cfg.vlans, cfg.switch.legacyVlan) && Meets(cfg, ops, c)
    ensures c != cfg || PaeActions(ops) != map[] <==> !NoneEffective(cfg, ops)
  {
    if NoneEffective(cfg, ops) {
      NoneEffectiveChangesNothing(cfg, ops, c);
    } else {
      var s :| s in ops && Effective(cfg, s, ops[s]);
      match s.kind
      case AdminStatus | PaeControl | PortPvid => EffectiveChangesPort(cfg, ops, c, s);
      case EgressPorts | ForbiddenPorts | UntaggedPorts => EffectiveChangesMembers(cfg, ops, c, s);
      case StaticName | RowStatus => EffectiveChangesVlans(cfg, ops, s);
      case PaeInitialize | PaeReauthenticate => EffectiveAsks(ops, s);
    }
  }

  // ---------------------------------------------------------------------------------------------
  // Order
  // ---------------------------------------------------------------------------------------------

  predicate SameElements(a: seq<int>, b: seq<int>) {
    (forall v :: v in a ==> v in b) && (forall v :: v in b ==> v in a)
  }

  /** Equal but for the order of the membership lists. */
  predicate SamePolicy(a: Policy, b: Policy) {
    && a == b.(admitted := a.admitted, untagged := a.untagged, forbidden := a.forbidden)
    && SameElements(a.admitted, b.admitted) && SameElements(a.untagged, b.untagged) && SameElements(a.forbidden, b.forbidden)
  }

  ghost predicate SameConfiguration(a: Configuration, b: Configuration) {
    && a == b.(ports := a.ports) && a.ports.Keys == b.ports.Keys
    && forall p :: p in a.ports ==> a.ports[p].hw == b.ports[p].hw && SamePolicy(a.ports[p].policy, b.ports[p].policy)
  }

  lemma PolicyDetermined(ops: Ops, gone: set<VlanId>, p: Id, was: Policy, a: Policy, b: Policy)
    requires PolicyMeets(ops, gone, p, was, a) && PolicyMeets(ops, gone, p, was, b)
    ensures SamePolicy(a, b) && (a == was <==> b == was)
  {
    assert forall v :: v in a.admitted <==> v in b.admitted;
    assert forall v :: v in a.untagged <==> v in b.untagged;
    assert forall v :: v in a.forbidden <==> v in b.forbidden;
  }

  ghost predicate SamePort(was: Port, a: Port, b: Port) {
    a.hw == b.hw && SamePolicy(a.policy, b.policy) && (a == was <==> b == was)
  }

  lemma PortDetermined(ops: Ops, gone: set<VlanId>, before: map<Id, Port>, a: map<Id, Port>, b: map<Id, Port>, p: Id)
    requires PortsMeet(ops, gone, before, a) && PortsMeet(ops, gone, before, b) && p in before
    ensures SamePort(before[p], a[p], b[p])
  {
    assert PolicyMeets(ops, gone, p, before[p].policy, a[p].policy) && PolicyMeets(ops, gone, p, before[p].policy, b[p].policy);
    PolicyDetermined(ops, gone, p, before[p].policy, a[p].policy, b[p].policy);
  }

  /** A request denotes one configuration, up to the order of membership lists. */
  lemma MeetsDetermined(cfg: Configuration, ops: Ops, a: Configuration, b: Configuration)
    requires Meets(cfg, ops, a) && Meets(cfg, ops, b)
    ensures SameConfiguration(a, b)
    ensures forall p :: p in cfg.ports ==> SamePort(cfg.ports[p], a.ports[p], b.ports[p])
  {
    forall p | p in cfg.ports ensures SamePort(cfg.ports[p], a.ports[p], b.ports[p]) {
      PortDetermined(ops, Gone(cfg.vlans.Keys, ops), cfg.ports, a.ports, b.ports, p);
    }
  }

  lemma SameBroken(a: Policy, b: Policy)
    requires SamePolicy(a, b)
    ensures Broken(a) == Broken(b)
  {
    BrokenMeans(a);
    BrokenMeans(b);
  }

  lemma SameValidity(cfg: Configuration, ops: Ops, a: Configuration, b: Configuration)
    requires Valid(cfg) && OpsOk(cfg.ports.Keys, cfg.vlans.Keys, ops) && Meets(cfg, ops, a) && Meets(cfg, ops, b)
    ensures Valid(a) == Valid(b)
  {
    MeetsDetermined(cfg, ops, a, b);
    MeetsDecides(cfg, ops, a);
    MeetsDecides(cfg, ops, b);
    forall p | p in cfg.ports ensures Broken(a.ports[p].policy) == Broken(b.ports[p].policy) {
      SameBroken(a.ports[p].policy, b.ports[p].policy);
    }
  }
}
