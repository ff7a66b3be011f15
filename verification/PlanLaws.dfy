/** The laws of the planner's answers: order, repetition, reading back, and what publishing a plan relies on. */
module PlanLaws {
  import opened Outcomes
  import opened Configuration
  import opened SetRequests
  import opened SetEffects
  import opened SetLaws
  import opened PlanSet

  // ---------------------------------------------------------------------------------------------
  // Order
  // ---------------------------------------------------------------------------------------------

  /** The same VLANs, PVIDs, states, membership sets, created and deleted rows, affected ports and PAE actions. */
  ghost predicate Alike(a: Plan, b: Plan) {
    && a.before == b.before && SameConfiguration(a.candidate, b.candidate)
    && a.creates == b.creates && a.deletes == b.deletes && a.affected == b.affected && a.actions == b.actions
  }

  lemma SameAffected(cfg: Configuration, ops: Ops, a: Configuration, b: Configuration)
    requires Meets(cfg, ops, a) && Meets(cfg, ops, b)
    ensures Affected(cfg, a.ports) == Affected(cfg, b.ports)
  {
    MeetsDetermined(cfg, ops, a, b);
    forall p | p in cfg.ports ensures a.ports[p].policy != cfg.ports[p].policy <==> b.ports[p].policy != cfg.ports[p].policy {
      assert SamePort(cfg.ports[p], a.ports[p], b.ports[p]);
    }
  }

  lemma SamePlans(cfg: Configuration, made: seq<Assignment>, again: seq<Assignment>, a: Plan, b: Plan)
    requires OpsOf(made) == OpsOf(again) && IsPlan(cfg, made, a) && IsPlan(cfg, again, b)
    ensures Alike(a, b)
  {
    MeetsDetermined(cfg, OpsOf(made), a.candidate, b.candidate);
    SameAffected(cfg, OpsOf(made), a.candidate, b.candidate);
  }

  /** A request that succeeds succeeds with its bindings in any order, or repeated, and with the same plan. */
  lemma PlanOrderIrrelevant(cfg: Configuration, d: Directory, includes: seq<Oid>, a: seq<Binding>, b: seq<Binding>,
                            c: Configuration, e: Configuration, r: Result<Plan, SetFailure>, q: Result<Plan, SetFailure>)
    requires forall x :: x in a <==> x in b
    requires Answers(cfg, d, includes, a, c, r) && Answers(cfg, d, includes, b, e, q) && r.Ok?
    ensures q.Ok? && Alike(r.value, q.value)
  {
    OrderIrrelevant(cfg.vlans.Keys, d, includes, a, b);
    var made, again := Request(cfg.vlans.Keys, d, includes, a).value, Request(cfg.vlans.Keys, d, includes, b).value;
    assert Meets(cfg, OpsOf(again), r.value.candidate);
    SamePlans(cfg, made, again, r.value, q.value);
  }

  // ---------------------------------------------------------------------------------------------
  // Change
  // ---------------------------------------------------------------------------------------------

  lemma FirstIsEffective(cfg: Configuration, made: seq<Assignment>, first: nat)
    requires Says(made, OpsOf(made)) && IsFirst(cfg, made, first)
    ensures first == 0 <==> NoneEffective(cfg, OpsOf(made))
  {
    var ops := OpsOf(made);
    if first == 0 {
      forall s | s in ops ensures !Effective(cfg, s, ops[s]) {
        var i :| 0 <= i < |made| && made[i].slot == s;
        assert !EffectiveAt(cfg, made[i]);
      }
    }
  }

  lemma ValidVlans(cfg: Configuration)
    requires Valid(cfg)
    ensures VlansOk(cfg.vlans, cfg.switch.legacyVlan) && DEFAULT_VLAN in cfg.vlans
  {
  }

  /** `changed` holds of a plan exactly when its first effective index is not zero. */
  lemma ChangedIffFirst(cfg: Configuration, d: Directory, includes: seq<Oid>, bindings: seq<Binding>, c: Configuration, plan: Plan)
    requires Valid(cfg) && Indexes(d, cfg.ports) && Answers(cfg, d, includes, bindings, c, Ok(plan))
    ensures plan.candidate != plan.before || plan.actions != map[] <==> plan.firstEffective != 0
  {
    AcceptedParts(cfg, d, includes, bindings);
    ValidVlans(cfg);
    var made := Request(cfg.vlans.Keys, d, includes, bindings).value;
    FirstIsEffective(cfg, made, plan.firstEffective);
    ChangedIffEffective(cfg, OpsOf(made), plan.candidate);
  }

  /** A plan none of whose assignments is effective is the configuration itself. */
  lemma IneffectivePlan(cfg: Configuration, d: Directory, includes: seq<Oid>, bindings: seq<Binding>, c: Configuration,
                        r: Result<Plan, SetFailure>)
    requires Valid(cfg) && Indexes(d, cfg.ports) && Answers(cfg, d, includes, bindings, c, r)
    requires Request(cfg.vlans.Keys, d, includes, bindings).Ok?
    requires NoneEffective(cfg, OpsOf(Request(cfg.vlans.Keys, d, includes, bindings).value))
    ensures r.Ok? && r.value.candidate == cfg && r.value.actions == map[] && r.value.firstEffective == 0
  {
    AcceptedParts(cfg, d, includes, bindings);
    ValidVlans(cfg);
    var made := Request(cfg.vlans.Keys, d, includes, bindings).value;
    NoneEffectiveChangesNothing(cfg, OpsOf(made), c);
    assert !Hopeless(cfg, made);
    NoneEffectiveChangesNothing(cfg, OpsOf(made), r.value.candidate);
    FirstIsEffective(cfg, made, r.value.firstEffective);
  }

  // ---------------------------------------------------------------------------------------------
  // Repetition
  // ---------------------------------------------------------------------------------------------

  lemma {:induction false} AssignedSame(check: Check, again: Check, bindings: seq<Binding>)
    requires Assigned(check, bindings).Ok?
    requires forall i :: 0 <= i < |bindings| ==> again(bindings[i]) == check(bindings[i])
    ensures Assigned(again, bindings) == Assigned(check, bindings)
  {
    if bindings != [] {
      AssignedSame(check, again, bindings[..|bindings| - 1]);
    }
  }

  /** A binding that passed passes again in the configuration the request made, unless it creates a row. */
  lemma CheckedAgain(ports: map<Id, Port>, vlans: map<VlanId, Vlan>, d: Directory, includes: seq<Oid>, ops: Ops, b: Binding)
    requires Indexes(d, ports) && DEFAULT_VLAN in vlans && OpsOk(ports.Keys, vlans.Keys, ops) && Created(ops) == {}
    requires Checked(vlans.Keys, d, includes, Intent(RowsAt(ops, 4), RowsAt(ops, 6)), b).Ok?
    requires var x := Checked(vlans.Keys, d, includes, Intent(RowsAt(ops, 4), RowsAt(ops, 6)), b).value; x.0 in ops && ops[x.0] == x.1
    ensures Checked(NextVlans(vlans, ops).Keys, d, includes, Intent(RowsAt(ops, 4), RowsAt(ops, 6)), b)
         == Checked(vlans.Keys, d, includes, Intent(RowsAt(ops, 4), RowsAt(ops, 6)), b)
  {
    var (s, v) := Checked(vlans.Keys, d, includes, Intent(RowsAt(ops, 4), RowsAt(ops, 6)), b).value;
    CheckedOpOk(ports, vlans.Keys, d, includes, ops, b);
    NextVids(ops, vlans, s.key);
    RowsAtAre(ops, 4, s.key);
    RowsAtAre(ops, 6, s.key);
    CreatedAre(ops, s.key);
    assert s == Slot(s.kind, s.key);
  }

  lemma RequestAgain(cfg: Configuration, d: Directory, includes: seq<Oid>, bindings: seq<Binding>)
    requires Valid(cfg) && Indexes(d, cfg.ports) && Request(cfg.vlans.Keys, d, includes, bindings).Ok?
    requires Created(OpsOf(Request(cfg.vlans.Keys, d, includes, bindings).value)) == {}
    ensures var r := Request(cfg.vlans.Keys, d, includes, bindings);
            Request(NextVlans(cfg.vlans, OpsOf(r.value)).Keys, d, includes, bindings) == r
  {
    ValidVlans(cfg);
    AcceptedOpsOk(cfg.ports, cfg.vlans.Keys, d, includes, bindings);
    var made := Request(cfg.vlans.Keys, d, includes, bindings).value;
    var ops, intent := OpsOf(made), IntentOf(Row(), bindings);
    var check, again := Checker(cfg.vlans.Keys, d, includes, intent), Checker(NextVlans(cfg.vlans, ops).Keys, d, includes, intent);
    AssignedIsMirror(check, bindings);
    forall i | 0 <= i < |bindings| ensures again(bindings[i]) == check(bindings[i]) {
      assert check(bindings[i]) == Checked(cfg.vlans.Keys, d, includes, intent, bindings[i]);
      assert made[i].slot in ops && ops[made[i].slot] == made[i].value;
      CheckedAgain(cfg.ports, cfg.vlans, d, includes, ops, bindings[i]);
    }
    AssignedSame(check, again, bindings);
  }

  lemma ListNowSo(ops: Ops, gone: set<VlanId>, p: Id, was: Policy, q: Policy, k: Kind, v: int)
    requires PolicyMeets(ops, gone, p, was, q) && OfMembers(k) && Slot(k, v) in ops && ops[Slot(k, v)].Members?
    ensures v in Held(q, k) <==> p in ops[Slot(k, v)].ports
  {
    assert ListMeets(ops, gone, Falls(ops, gone, p, was), p, was, k, Held(q, k));
    assert v in Held(q, k) <==> BelongsAs(ops, gone, Falls(ops, gone, p, was), p, was, k, v);
  }

  lemma MemberNowSo(ops: Ops, gone: set<VlanId>, before: map<Id, Port>, after: map<Id, Port>, s: Slot, p: Id)
    requires PortsMeet(ops, gone, before, after) && p in before
    requires OfMembers(s.kind) && s in ops && ops[s].Members?
    ensures s.key in Held(after[p].policy, s.kind) <==> p in ops[s].ports
  {
    assert s == Slot(s.kind, s.key) && PolicyMeets(ops, gone, p, before[p].policy, after[p].policy);
    ListNowSo(ops, gone, p, before[p].policy, after[p].policy, s.kind, s.key);
  }

  lemma MembersAre(ports: map<Id, Port>, k: Kind, v: int, members: set<Id>)
    requires OfMembers(k) && members <= ports.Keys && forall p :: p in ports ==> (v in Held(ports[p].policy, k) <==> p in members)
    ensures members == MembersAt(ports, k, v)
  {
  }

  lemma MembersNowSo(cfg: Configuration, ops: Ops, ports: map<Id, Port>, s: Slot)
    requires OpsOk(cfg.ports.Keys, cfg.vlans.Keys, ops) && PortsMeet(ops, Gone(cfg.vlans.Keys, ops), cfg.ports, ports)
    requires s in ops && OfMembers(s.kind)
    ensures ops[s].Members? && ops[s].ports == MembersAt(ports, s.kind, s.key)
  {
    assert OpOk(cfg.ports.Keys, cfg.vlans.Keys, ops, s, ops[s]);
    forall p | p in ports { MemberNowSo(ops, Gone(cfg.vlans.Keys, ops), cfg.ports, ports, s, p); }
    MembersAre(ports, s.kind, s.key, ops[s].ports);
  }

  lemma ScalarNowSo(ops: Ops, gone: set<VlanId>, p: Id, was: Policy, q: Policy, k: Kind)
    requires PolicyMeets(ops, gone, p, was, q) && Slot(k, p) in ops && ops[Slot(k, p)].Number?
    ensures k.AdminStatus? ==> q.adminUp == (ops[Slot(k, p)].n == 1)
    ensures k.PortPvid? ==> q.pvid == ops[Slot(k, p)].n
    ensures k.PaeControl? && ops[Slot(k, p)].n in {1, 2, 3} ==> NumberOf(q.authentication.control) == ops[Slot(k, p)].n
  {
  }

  lemma PortNowSo(cfg: Configuration, ops: Ops, c: Configuration, s: Slot)
    requires OpsOk(cfg.ports.Keys, cfg.vlans.Keys, ops) && PortsMeet(ops, Gone(cfg.vlans.Keys, ops), cfg.ports, c.ports)
    requires s in ops && (s.kind.AdminStatus? || s.kind.PaeControl? || s.kind.PortPvid?)
    ensures !Effective(c, s, ops[s])
  {
    PortFacts(ops, cfg.vlans.Keys, cfg.ports, c.ports, s);
    ScalarNowSo(ops, Gone(cfg.vlans.Keys, ops), s.key, cfg.ports[s.key].policy, c.ports[s.key].policy, s.kind);
  }

  lemma VlanNowSo(cfg: Configuration, ops: Ops, c: Configuration, s: Slot)
    requires OpsOk(cfg.ports.Keys, cfg.vlans.Keys, ops) && c.vlans == NextVlans(cfg.vlans, ops) && Created(ops) == {}
    requires s in ops && (s.kind.StaticName? || s.kind.RowStatus?)
    ensures !Effective(c, s, ops[s])
  {
    assert OpOk(cfg.ports.Keys, cfg.vlans.Keys, ops, s, ops[s]) && s == Slot(s.kind, s.key);
    NextVids(ops, cfg.vlans, s.key);
    CreatedAre(ops, s.key);
  }

  /** Once done, nothing that was asked for is still to do. */
  lemma NowSo(cfg: Configuration, ops: Ops, c: Configuration)
    requires OpsOk(cfg.ports.Keys, cfg.vlans.Keys, ops) && Meets(cfg, ops, c) && Created(ops) == {} && PaeActions(ops) == map[]
    ensures NoneEffective(c, ops)
  {
    forall s | s in ops ensures !Effective(c, s, ops[s]) {
      match s.kind
      case AdminStatus | PaeControl | PortPvid => PortNowSo(cfg, ops, c, s);
      case EgressPorts | ForbiddenPorts | UntaggedPorts => MembersNowSo(cfg, ops, c.ports, s);
      case StaticName | RowStatus => VlanNowSo(cfg, ops, c, s);
      case PaeInitialize | PaeReauthenticate => assert IsAsk(s, ops[s]) ==> s.key in PaeActions(ops);
    }
  }

  lemma SameIndexes(d: Directory, e: Directory, ports: map<Id, Port>, after: map<Id, Port>)
    requires Indexes(d, ports) && Indexes(e, after) && after.Keys == ports.Keys
    requires forall p :: p in ports ==> after[p].hw == ports[p].hw
    ensures d == e
  {
    assert Indexes(e, ports);
    OneDirectory(d, e, ports);
  }

  lemma SetAgain(cfg: Configuration, d: Directory, includes: seq<Oid>, bindings: seq<Binding>, plan: Plan)
    requires Valid(cfg) && Indexes(d, cfg.ports) && Request(cfg.vlans.Keys, d, includes, bindings).Ok?
    requires IsPlan(cfg, Request(cfg.vlans.Keys, d, includes, bindings).value, plan) && plan.creates == {} && plan.actions == map[]
    ensures Request(plan.candidate.vlans.Keys, d, includes, bindings) == Request(cfg.vlans.Keys, d, includes, bindings)
    ensures NoneEffective(plan.candidate, OpsOf(Request(cfg.vlans.Keys, d, includes, bindings).value))
  {
    AcceptedParts(cfg, d, includes, bindings);
    RequestAgain(cfg, d, includes, bindings);
    NowSo(cfg, OpsOf(Request(cfg.vlans.Keys, d, includes, bindings).value), plan.candidate);
  }

  lemma PlanHardware(cfg: Configuration, made: seq<Assignment>, plan: Plan, d: Directory, e: Directory)
    requires IsPlan(cfg, made, plan) && Indexes(d, cfg.ports) && Indexes(e, plan.candidate.ports)
    ensures d == e
  {
    SameIndexes(d, e, cfg.ports, plan.candidate.ports);
  }

  /** Repeating a success that creates no row and asks for no PAE action succeeds and changes nothing at all. */
  lemma RepeatChangesNothing(cfg: Configuration, d: Directory, e: Directory, includes: seq<Oid>, bindings: seq<Binding>,
                             c: Configuration, b: Configuration, plan: Plan, r: Result<Plan, SetFailure>)
    requires Valid(cfg) && Indexes(d, cfg.ports) && Answers(cfg, d, includes, bindings, c, Ok(plan))
    requires plan.creates == {} && plan.actions == map[]
    requires Indexes(e, plan.candidate.ports) && Answers(plan.candidate, e, includes, bindings, b, r)
    ensures r.Ok? && r.value.candidate == plan.candidate && r.value.actions == map[] && r.value.firstEffective == 0
  {
    PlanHardware(cfg, Request(cfg.vlans.Keys, d, includes, bindings).value, plan, d, e);
    SetAgain(cfg, d, includes, bindings, plan);
    IneffectivePlan(plan.candidate, e, includes, bindings, b, r);
  }
}
