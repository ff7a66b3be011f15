/** Setting writable objects to what GET returned for them succeeds and changes nothing. */
module ReadBack {
  import opened Outcomes
  import opened Configuration
  import opened SetRequests
  import opened SetEffects
  import opened SetLaws
  import opened PlanSet
  import opened PlanLaws
  import opened PortLists
  import opened WritableTables
  import MibView
  import MibWalk

  function At(name: seq<nat>, i: int): nat {
    if 0 <= i < |name| then name[i] else 0
  }

  lemma Beneath(k: Kind, j: Kind, x: nat)
    ensures Under(Base(k) + [x], Base(j)) <==> k == j
  {
    var name, base := Base(k) + [x], Base(j);
    var last := |base| - 1;
    assert name[..|Base(k)|] == Base(k);
    assert k != j && |base| <= |name| ==>
             At(name, last) != At(base, last) || At(name, 1) != At(base, 1) || At(name, 6) != At(base, 6) || At(name, 7) != At(base, 7)
             || At(name, 8) != At(base, 8) || At(name, 10) != At(base, 10) || At(name, last - 1) != At(base, last - 1);
    assert Under(name, base) ==> forall i :: At(name[..|base|], i) == At(base, i);
    assert |base| <= |name| ==> forall i :: i < |base| ==> At(name[..|base|], i) == At(name, i);
  }

  /** The name of an instance is taken for an object of its own kind. */
  lemma WritableInstance(k: Kind, x: nat)
    ensures Writable(Base(k) + [x]) == Some(k) && (Base(k) + [x])[|Base(k)|..] == [x]
  {
    forall j: Kind ensures Under(Base(k) + [x], Base(j)) <==> k == j { Beneath(k, j, x); }
  }

  /** The binding that sends back what is shown of an object. */
  function Reading(cfg: Configuration, s: Slot): Binding
    requires Exists(cfg, s)
  {
    Binding(NameOf(cfg, s), Returned(MibView.Built(ShownOf(cfg, s))))
  }

  ghost predicate SelfKeyed(vlans: map<VlanId, Vlan>) {
    forall v :: v in vlans ==> vlans[v].vid == v
  }

  /** The value that decoding the reading gives. */
  function Current(cfg: Configuration, s: Slot): Value
    requires Exists(cfg, s)
  {
    match s.kind
    case AdminStatus => Number(if cfg.ports[s.key].policy.adminUp then 1 else 2)
    case PaeInitialize | PaeReauthenticate => Number(2)
    case PaeControl => Number(NumberOf(cfg.ports[s.key].policy.authentication.control))
    case PortPvid => Number(cfg.ports[s.key].policy.pvid)
    case StaticName => Label(cfg.vlans[s.key].name)
    case RowStatus => Number(1)
    case EgressPorts | ForbiddenPorts | UntaggedPorts => Members(MembersAt(cfg.ports, s.kind, s.key))
  }

  lemma MembersDecode(ports: map<Id, Port>, d: Directory, k: Kind, vid: int)
    requires Indexes(d, ports) && OfMembers(k)
    ensures Decoded(d, k, Returned(MibView.Built(ChosenPorts(ports, k, vid)))) == Ok(Members(MembersAt(ports, k, vid)))
  {
    SizeFits(ports);
    BitmapRoundTrip(ports, d, MembersAt(ports, k, vid), MapSize(ports));
  }

  lemma ReadDecodes(cfg: Configuration, d: Directory, s: Slot)
    requires Indexes(d, cfg.ports) && SelfKeyed(cfg.vlans) && Exists(cfg, s)
    ensures Decoded(d, s.kind, Reading(cfg, s).wire) == Ok(Current(cfg, s))
  {
    if OfMembers(s.kind) { MembersDecode(cfg.ports, d, s.kind, s.key); }
  }

  lemma InstanceFound(cfg: Configuration, d: Directory, s: Slot)
    requires Indexes(d, cfg.ports) && Exists(cfg, s)
    ensures Instance(d, s.kind, [InstanceOf(cfg, s)]) == Ok(s.key)
  {
  }

  lemma ReadingChecks(cfg: Configuration, d: Directory, includes: seq<Oid>, s: Slot)
    requires Indexes(d, cfg.ports) && SelfKeyed(cfg.vlans) && Exists(cfg, s) && Allowed(Reading(cfg, s).name, includes)
    ensures Checked(cfg.vlans.Keys, d, includes, Intent({}, {}), Reading(cfg, s)) == Ok((s, Current(cfg, s)))
  {
    WritableInstance(s.kind, InstanceOf(cfg, s));
    ReadDecodes(cfg, d, s);
    InstanceFound(cfg, d, s);
  }

  lemma CurrentIneffective(cfg: Configuration, s: Slot)
    requires Exists(cfg, s)
    ensures !Effective(cfg, s, Current(cfg, s))
  {
  }

  /** Every binding carries the reading of some writable object that the view shows. */
  ghost predicate AreReadings(cfg: Configuration, includes: seq<Oid>, bindings: seq<Binding>, slots: seq<Slot>) {
    && |slots| == |bindings|
    && forall i :: 0 <= i < |bindings| ==>
         Exists(cfg, slots[i]) && bindings[i] == Reading(cfg, slots[i]) && Allowed(bindings[i].name, includes)
  }

  lemma ReadingIntent(cfg: Configuration, s: Slot)
    requires Exists(cfg, s)
    ensures Row()(Reading(cfg, s)).Some? ==> RowCommand(Reading(cfg, s)) == Some(1)
  {
    WritableInstance(s.kind, InstanceOf(cfg, s));
  }

  lemma ReadingsIntend(cfg: Configuration, includes: seq<Oid>, bindings: seq<Binding>, slots: seq<Slot>)
    requires AreReadings(cfg, includes, bindings, slots)
    ensures IntentOf(Row(), bindings) == Intent({}, {})
  {
    forall v ensures v in Commands(Row(), bindings) ==> Commands(Row(), bindings)[v] == Some(1) {
      CommandsCover(Row(), bindings, v);
      if v in Commands(Row(), bindings) {
        var i :| CommandAt(Row(), bindings, i, v) && RowCommand(bindings[i]) == Commands(Row(), bindings)[v];
        ReadingIntent(cfg, slots[i]);
      }
    }
  }

  lemma ReadingsAgree(cfg: Configuration, d: Directory, includes: seq<Oid>, bindings: seq<Binding>, slots: seq<Slot>)
    requires Indexes(d, cfg.ports) && SelfKeyed(cfg.vlans) && AreReadings(cfg, includes, bindings, slots)
    ensures Agreeable(Checker(cfg.vlans.Keys, d, includes, Intent({}, {})), bindings)
    ensures forall i :: 0 <= i < |bindings| ==>
              Checker(cfg.vlans.Keys, d, includes, Intent({}, {}))(bindings[i]) == Ok((slots[i], Current(cfg, slots[i])))
  {
    var check := Checker(cfg.vlans.Keys, d, includes, Intent({}, {}));
    forall i | 0 <= i < |bindings| ensures check(bindings[i]) == Ok((slots[i], Current(cfg, slots[i]))) {
      ReadingChecks(cfg, d, includes, slots[i]);
    }
    forall b, c | b in bindings && c in bindings ensures Agree(check, b, c) {
      var i :| 0 <= i < |bindings| && bindings[i] == b;
      var j :| 0 <= j < |bindings| && bindings[j] == c;
    }
  }

  lemma ReadingsRequest(cfg: Configuration, d: Directory, includes: seq<Oid>, bindings: seq<Binding>, slots: seq<Slot>)
    requires Indexes(d, cfg.ports) && SelfKeyed(cfg.vlans) && AreReadings(cfg, includes, bindings, slots)
    ensures var request := Request(cfg.vlans.Keys, d, includes, bindings);
            request.Ok? && NoneEffective(cfg, OpsOf(request.value))
  {
    ReadingsIntend(cfg, includes, bindings, slots);
    ReadingsAgree(cfg, d, includes, bindings, slots);
    var check := Checker(cfg.vlans.Keys, d, includes, Intent({}, {}));
    AgreeableIsAssigned(check, bindings);
    AssignedIsMirror(check, bindings);
    var made := Assigned(check, bindings).value;
    OpsSay(made);
    forall s | s in OpsOf(made) ensures !Effective(cfg, s, OpsOf(made)[s]) {
      var i :| 0 <= i < |made| && made[i].slot == s;
      CurrentIneffective(cfg, slots[i]);
    }
  }

  /** The binding carries back the value that GET returned for its name. */
  ghost predicate Got(v: MibView.View, b: Binding) {
    MibWalk.Lookup(v, b.name).Found? && b.wire == Returned(MibWalk.Lookup(v, b.name).value)
  }

  ghost predicate Describes(cfg: Configuration, b: Binding, s: Slot) {
    Exists(cfg, s) && b == Reading(cfg, s)
  }

  ghost predicate Described(cfg: Configuration, b: Binding) {
    exists s :: Describes(cfg, b, s)
  }

  /** A value that GET returned under a writable column is the reading of an existing object. */
  lemma GotIsReading(v: MibView.View, cfg: Configuration, walk: Orders, o: Surroundings, b: Binding)
    requires Valid(cfg) && Projects(v, cfg, walk, o) && Writable(b.name).Some? && Got(v, b)
    ensures Described(cfg, b)
  {
    var k := Writable(b.name).value;
    FoundIsSlot(v, cfg, walk, o, k, b.name);
    var key :| Exists(cfg, Slot(k, key)) && b.name == NameOf(cfg, Slot(k, key));
    LookupFinds(v, cfg, walk, o, Slot(k, key));
    assert Describes(cfg, b, Slot(k, key));
  }

  ghost function SlotOf(cfg: Configuration, b: Binding): (s: Slot)
    requires Described(cfg, b)
    ensures Describes(cfg, b, s)
  {
    var s :| Describes(cfg, b, s);
    s
  }

  ghost function SlotsOf(cfg: Configuration, bindings: seq<Binding>): (slots: seq<Slot>)
    requires forall i :: 0 <= i < |bindings| ==> Described(cfg, bindings[i])
    ensures |slots| == |bindings| && forall i :: 0 <= i < |bindings| ==> Describes(cfg, bindings[i], slots[i])
  {
    seq(|bindings|, i requires 0 <= i < |bindings| => SlotOf(cfg, bindings[i]))
  }

  lemma GotAreReadings(v: MibView.View, cfg: Configuration, walk: Orders, o: Surroundings, includes: seq<Oid>, bindings: seq<Binding>)
    returns (slots: seq<Slot>)
    requires Valid(cfg) && Projects(v, cfg, walk, o)
    requires forall b :: b in bindings ==> Writable(b.name).Some? && Allowed(b.name, includes) && Got(v, b)
    ensures AreReadings(cfg, includes, bindings, slots)
  {
    forall i | 0 <= i < |bindings| ensures Described(cfg, bindings[i]) {
      GotIsReading(v, cfg, walk, o, bindings[i]);
    }
    slots := SlotsOf(cfg, bindings);
  }

  lemma ReadingsChangeNothing(cfg: Configuration, d: Directory, includes: seq<Oid>, bindings: seq<Binding>, slots: seq<Slot>,
                              c: Configuration, r: Result<Plan, SetFailure>)
    requires Valid(cfg) && Indexes(d, cfg.ports) && AreReadings(cfg, includes, bindings, slots)
    requires Answers(cfg, d, includes, bindings, c, r)
    ensures r.Ok? && r.value.candidate == cfg && r.value.actions == map[] && r.value.firstEffective == 0
  {
    ReadingsRequest(cfg, d, includes, bindings, slots);
    IneffectivePlan(cfg, d, includes, bindings, c, r);
  }

  /**
   * Writing back what GET returned, for any writable objects in any number and order, succeeds and changes nothing.  The
   * views of the GET and of the SET may differ.
   */
  lemma ReadBackChangesNothing(v: MibView.View, walk: Orders, o: Surroundings,
                               cfg: Configuration, d: Directory, includes: seq<Oid>, bindings: seq<Binding>,
                               c: Configuration, r: Result<Plan, SetFailure>)
    requires Valid(cfg) && Projects(v, cfg, walk, o) && Indexes(d, cfg.ports)
    requires forall b :: b in bindings ==> Writable(b.name).Some? && Allowed(b.name, includes) && Got(v, b)
    requires Answers(cfg, d, includes, bindings, c, r)
    ensures r.Ok? && r.value.candidate == cfg && r.value.actions == map[] && r.value.firstEffective == 0
  {
    var slots := GotAreReadings(v, cfg, walk, o, includes, bindings);
    ReadingsChangeNothing(cfg, d, includes, bindings, slots, c, r);
  }
}
