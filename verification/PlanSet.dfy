/** The planner as a method: its loops, and what the plan or the failure it returns says about the request. */
module PlanSet {
  import opened Outcomes
  import opened Lists
  import opened Configuration
  import opened SetRequests
  import opened SetEffects
  import opened SetLaws
  import opened Planner

  datatype Plan = Plan(before: Configuration, candidate: Configuration, assignments: seq<Assignment>, creates: set<VlanId>,
                       deletes: set<VlanId>, affected: set<Id>, firstEffective: nat, actions: map<int, PaeAction>)

  // ---------------------------------------------------------------------------------------------
  // Dictionaries, bitmaps and row intent
  // ---------------------------------------------------------------------------------------------

  ghost predicate Distinguished(ports: map<Id, Port>) {
    forall p, q :: p in ports && q in ports && p != q ==>
      ports[p].hw.ifIndex != ports[q].hw.ifIndex && ports[p].hw.bridgePort != ports[q].hw.bridgePort
  }

  method ByIndex(ports: map<Id, Port>) returns (d: Directory)
    requires Distinguished(ports)
    ensures Indexes(d, ports)
  {
    var rest := ports.Keys;
    var byIf, byBridge := map[], map[];
    while rest != {}
      invariant rest <= ports.Keys
      invariant forall p :: p in ports && p !in rest ==> ports[p].hw.ifIndex in byIf && byIf[ports[p].hw.ifIndex] == p
      invariant forall p :: p in ports && p !in rest ==> ports[p].hw.bridgePort in byBridge && byBridge[ports[p].hw.bridgePort] == p
      invariant forall i :: i in byIf ==> byIf[i] in ports && ports[byIf[i]].hw.ifIndex == i
      invariant forall i :: i in byBridge ==> byBridge[i] in ports && ports[byBridge[i]].hw.bridgePort == i
      decreases |rest|
    {
      var p :| p in rest;
      byIf := byIf[ports[p].hw.ifIndex := p];
      byBridge := byBridge[ports[p].hw.bridgePort := p];
      rest := rest - {p};
    }
    d := Directory(byIf, byBridge);
  }

  lemma OneDirectory(d: Directory, e: Directory, ports: map<Id, Port>)
    requires Indexes(d, ports) && Indexes(e, ports)
    ensures d == e
  {
    forall i ensures i in d.byIf <==> i in e.byIf {
      if i in d.byIf { assert e.byIf[ports[d.byIf[i]].hw.ifIndex] == d.byIf[i]; }
      if i in e.byIf { assert d.byIf[ports[e.byIf[i]].hw.ifIndex] == e.byIf[i]; }
    }
    forall i ensures i in d.byBridge <==> i in e.byBridge {
      if i in d.byBridge { assert e.byBridge[ports[d.byBridge[i]].hw.bridgePort] == d.byBridge[i]; }
      if i in e.byBridge { assert d.byBridge[ports[e.byBridge[i]].hw.bridgePort] == e.byBridge[i]; }
    }
    assert d.byIf == e.byIf && d.byBridge == e.byBridge;
  }

  lemma OneMoreBit(byBridge: map<Number, Id>, octets: Bytes, n: nat)
    requires n < 8 * |octets| && AllNamed(byBridge, octets, n) && (Bit(octets, n) ==> n + 1 in byBridge)
    ensures AllNamed(byBridge, octets, n + 1)
    ensures MembersUpTo(byBridge, octets, n + 1) == MembersUpTo(byBridge, octets, n) + if Bit(octets, n) then {byBridge[n + 1]} else {}
  {
    forall p ensures p in MembersUpTo(byBridge, octets, n + 1) <==>
                     p in MembersUpTo(byBridge, octets, n) || (Bit(octets, n) && p == byBridge[n + 1])
    {
      if p in MembersUpTo(byBridge, octets, n) {
        var k :| 0 <= k < n && Bit(octets, k) && byBridge[k + 1] == p;
      } else if p in MembersUpTo(byBridge, octets, n + 1) {
        var k :| 0 <= k < n + 1 && Bit(octets, k) && byBridge[k + 1] == p;
      }
    }
  }

  lemma BitAt(octets: Bytes, offset: nat, bit: nat)
    requires offset < |octets| && bit < 8
    ensures 8 * offset + bit < 8 * |octets| && Bit(octets, 8 * offset + bit) == (octets[offset] & Mask(bit) != 0)
  {
    assert (8 * offset + bit) / 8 == offset && (8 * offset + bit) % 8 == bit;
  }

  /** The ports named by a bitmap, octet by octet and bit by bit. */
  method DecodePorts(byBridge: map<Number, Id>, octets: Bytes) returns (r: Option<set<Id>>)
    ensures r == PortsOf(byBridge, octets)
  {
    var members: set<Id> := {};
    for offset := 0 to |octets|
      invariant AllNamed(byBridge, octets, 8 * offset) && members == MembersUpTo(byBridge, octets, 8 * offset)
    {
      for bit := 0 to 8
        invariant AllNamed(byBridge, octets, 8 * offset + bit) && members == MembersUpTo(byBridge, octets, 8 * offset + bit)
      {
        var n := 8 * offset + bit;
        BitAt(octets, offset, bit);
        if octets[offset] & Mask(bit) != 0 {
          if n + 1 !in byBridge {
            return None;
          }
          members := members + {byBridge[n + 1]};
        }
        OneMoreBit(byBridge, octets, n);
      }
    }
    r := Some(members);
  }

  method ReadCommands(bindings: seq<Binding>) returns (intent: Intent)
    ensures intent == IntentOf(Row(), bindings)
  {
    var row := Row();
    var c: map<int, Option<int>> := map[];
    for i := 0 to |bindings|
      invariant c == Commands(row, bindings[..i])
    {
      assert bindings[..i + 1][..i] == bindings[..i];
      var v := row(bindings[i]);
      if v.Some? && v.value !in c {
        c := c[v.value := RowCommand(bindings[i])];
      }
    }
    assert bindings[..|bindings|] == bindings;
    intent := Intent(set v | v in c && c[v] == Some(4), set v | v in c && c[v] == Some(6));
  }

  // ---------------------------------------------------------------------------------------------
  // Checking every binding
  // ---------------------------------------------------------------------------------------------

  lemma SeenDiffers(made: seq<Assignment>, seen: Ops, slot: Slot, v: Value)
    requires Says(made, seen)
    ensures (exists i :: 0 <= i < |made| && Differs(made[i], slot, v)) <==> slot in seen && seen[slot] != v
  {
    if slot in seen && seen[slot] != v {
      var i :| 0 <= i < |made| && made[i].slot == slot;
      assert Differs(made[i], slot, v);
    }
  }

  lemma SeenMore(made: seq<Assignment>, a: Assignment)
    ensures OpsOf(made + [a]) == OpsOf(made)[a.slot := a.value]
  {
    assert (made + [a])[..|made|] == made;
  }

  lemma AssignedOnce(check: Check, bindings: seq<Binding>, i: nat)
    requires i < |bindings| && Assigned(check, bindings[..i]).Ok?
    ensures var made := Assigned(check, bindings[..i]).value;
            var c := check(bindings[i]);
            Assigned(check, bindings[..i + 1]) ==
              if c.Err? then Err(SetFailure(c.error, i + 1))
              else if c.value.0 in OpsOf(made) && OpsOf(made)[c.value.0] != c.value.1 then Err(SetFailure(InconsistentValue, i + 1))
              else Ok(made + [Assignment(i + 1, c.value.0, c.value.1)])
  {
    assert bindings[..i + 1][..i] == bindings[..i];
    var made := Assigned(check, bindings[..i]).value;
    AssignedIsMirror(check, bindings[..i]);
    OpsSay(made);
    var c := check(bindings[i]);
    if c.Ok? { SeenDiffers(made, OpsOf(made), c.value.0, c.value.1); }
  }

  lemma {:induction false} AssignedFails(check: Check, bindings: seq<Binding>, i: nat)
    requires i <= |bindings| && Assigned(check, bindings[..i]).Err?
    ensures Assigned(check, bindings) == Assigned(check, bindings[..i])
    decreases |bindings| - i
  {
    if i == |bindings| {
      assert bindings[..i] == bindings;
    } else {
      assert bindings[..i + 1][..i] == bindings[..i];
      AssignedFails(check, bindings, i + 1);
    }
  }

  method CheckAll(check: Check, bindings: seq<Binding>) returns (r: Result<seq<Assignment>, SetFailure>, seen: Ops)
    ensures r == Assigned(check, bindings)
    ensures r.Ok? ==> seen == OpsOf(r.value)
  {
    var made: seq<Assignment> := [];
    seen := map[];
    for i := 0 to |bindings|
      invariant Assigned(check, bindings[..i]) == Ok(made) && seen == OpsOf(made)
    {
      AssignedOnce(check, bindings, i);
      var c := check(bindings[i]);
      if c.Err? {
        AssignedFails(check, bindings, i + 1);
        return Err(SetFailure(c.error, i + 1)), seen;
      }
      var (slot, v) := c.value;
      if slot in seen && seen[slot] != v {
        AssignedFails(check, bindings, i + 1);
        return Err(SetFailure(InconsistentValue, i + 1)), seen;
      }
      SeenMore(made, Assignment(i + 1, slot, v));
      made := made + [Assignment(i + 1, slot, v)];
      seen := seen[slot := v];
    }
    assert bindings[..|bindings|] == bindings;
    r := Ok(made);
  }

  // ---------------------------------------------------------------------------------------------
  // Applying every distinct assignment
  // ---------------------------------------------------------------------------------------------

  predicate EffectiveAt(cfg: Configuration, a: Assignment) {
    Effective(cfg, a.slot, a.value)
  }

  /** The index of the first effective assignment, or zero. */
  ghost predicate IsFirst(cfg: Configuration, made: seq<Assignment>, first: nat) {
    if first == 0 then forall i :: 0 <= i < |made| ==> !EffectiveAt(cfg, made[i])
    else first <= |made| && EffectiveAt(cfg, made[first - 1]) && forall i :: 0 <= i < first - 1 ==> !EffectiveAt(cfg, made[i])
  }

  ghost predicate Numbered(made: seq<Assignment>) {
    forall i :: 0 <= i < |made| ==> made[i].index == i + 1
  }

  lemma FirstMore(cfg: Configuration, made: seq<Assignment>, i: nat, first: nat)
    requires i < |made| && IsFirst(cfg, made[..i], first)
    ensures IsFirst(cfg, made[..i + 1], if first == 0 && EffectiveAt(cfg, made[i]) then i + 1 else first)
  {
    assert made[..i + 1][..i] == made[..i];
  }

  /** What has been done of the first assignments. */
  ghost predicate Doing(made: seq<Assignment>, i: nat, ops: Ops, done: Ops) {
    && i <= |made|
    && (forall s :: s in done ==> s in ops && done[s] == ops[s])
    && (forall j :: 0 <= j < i ==> made[j].slot in done)
  }

  lemma Done(made: seq<Assignment>, ops: Ops, done: Ops)
    requires Says(made, ops) && Doing(made, |made|, ops, done)
    ensures done == ops
  {
    forall s | s in ops ensures s in done {
      var i :| 0 <= i < |made| && made[i].slot == s;
    }
  }

  lemma DoMore(made: seq<Assignment>, i: nat, ops: Ops, done: Ops)
    requires Says(made, ops) && Doing(made, i, ops, done) && i < |made|
    ensures Doing(made, i + 1, ops, done[made[i].slot := made[i].value])
    ensures made[i].slot in done ==> done[made[i].slot := made[i].value] == done
  {
  }

  lemma LastingName(cfg: Configuration, ops: Ops, s: Slot, v: Value)
    requires OpOk(cfg.ports.Keys, cfg.vlans.Keys, ops, s, v) && s.kind.StaticName?
    ensures s.key in StartedVlans(cfg.vlans, Gone(cfg.vlans.Keys, ops), Created(ops))
  {
    if Commanded(ops, s.key, 4) { assert Slot(RowStatus, s.key) in ops; }
  }

  /** One assignment takes effect on every port, on the VLANs and on the PAE actions. */
  lemma Step(cfg: Configuration, ops: Ops, done: Ops, ports: map<Id, Port>, s: Slot, v: Value)
    requires OpOk(cfg.ports.Keys, cfg.vlans.Keys, ops, s, v) && s !in done
    requires PortsGrow(done, ops, Gone(cfg.vlans.Keys, ops), cfg.ports, ports)
    ensures PortsGrow(done[s := v], ops, Gone(cfg.vlans.Keys, ops), cfg.ports, SteppedPorts(ports, s, v))
    ensures var start := StartedVlans(cfg.vlans, Gone(cfg.vlans.Keys, ops), Created(ops));
            SteppedVlans(Renamed(start, done), s, v) == Renamed(start, done[s := v])
    ensures SteppedActions(PaeActions(done), s, v) == PaeActions(done[s := v])
  {
    SteppedPortsGrow(done, ops, Gone(cfg.vlans.Keys, ops), cfg.ports, ports, cfg.vlans.Keys, s, v);
    if s.kind.StaticName? { LastingName(cfg, ops, s, v); }
    SteppedRenamed(StartedVlans(cfg.vlans, Gone(cfg.vlans.Keys, ops), Created(ops)), done, s, v);
    SteppedActionsAre(done, s, v);
  }

  /** Which ports the applied assignments lead to. */
  ghost function GrownPorts(ops: Ops, gone: set<VlanId>, before: map<Id, Port>): (Ops, map<Id, Port>) -> bool {
    (done: Ops, after: map<Id, Port>) => PortsGrow(done, ops, gone, before, after)
  }

  /** One assignment, unless an earlier one of the same object has been applied. */
  method ApplyOne(cfg: Configuration, ops: Ops, done: Ops, a: Assignment, ports: map<Id, Port>, vlans: map<VlanId, Vlan>,
                  actions: map<int, PaeAction>)
    returns (after: Ops, newPorts: map<Id, Port>, newVlans: map<VlanId, Vlan>, newActions: map<int, PaeAction>)
    requires OpsOk(cfg.ports.Keys, cfg.vlans.Keys, ops) && a.slot in ops && ops[a.slot] == a.value
    requires a.slot in done ==> done[a.slot := a.value] == done
    requires GrownPorts(ops, Gone(cfg.vlans.Keys, ops), cfg.ports)(done, ports) && actions == PaeActions(done)
    requires vlans == Renamed(StartedVlans(cfg.vlans, Gone(cfg.vlans.Keys, ops), Created(ops)), done)
    ensures after == done[a.slot := a.value] && newActions == PaeActions(after)
    ensures GrownPorts(ops, Gone(cfg.vlans.Keys, ops), cfg.ports)(after, newPorts)
    ensures newVlans == Renamed(StartedVlans(cfg.vlans, Gone(cfg.vlans.Keys, ops), Created(ops)), after)
  {
    after, newPorts, newVlans, newActions := done, ports, vlans, actions;
    if a.slot !in done {
      Step(cfg, ops, done, ports, a.slot, a.value);
      newPorts := SteppedPorts(ports, a.slot, a.value);
      newVlans := SteppedVlans(vlans, a.slot, a.value);
      newActions := SteppedActions(actions, a.slot, a.value);
      after := done[a.slot := a.value];
    }
  }

  /** Nothing is applied yet. */
  lemma Starting(cfg: Configuration, ops: Ops)
    requires OpsOk(cfg.ports.Keys, cfg.vlans.Keys, ops) && PortsOk(cfg.ports, cfg.vlans.Keys) && DEFAULT_VLAN in cfg.vlans
    ensures var gone := Gone(cfg.vlans.Keys, ops); GrownPorts(ops, gone, cfg.ports)(map[], StartedPorts(cfg.ports, ops, gone))
    ensures var vlans := StartedVlans(cfg.vlans, Gone(cfg.vlans.Keys, ops), Created(ops)); vlans == Renamed(vlans, map[])
  {
    OneStays(ops, cfg.ports.Keys, cfg.vlans.Keys);
    StartedPortsGrow(ops, Gone(cfg.vlans.Keys, ops), cfg.ports, cfg.vlans.Keys);
    NoneRenamed(StartedVlans(cfg.vlans, Gone(cfg.vlans.Keys, ops), Created(ops)));
  }

  /** How far the walk over the assignments has come, and which of them was the first effective one. */
  ghost function Walked(cfg: Configuration, made: seq<Assignment>, ops: Ops): (nat, Ops, nat) -> bool {
    (i: nat, done: Ops, first: nat) => Doing(made, i, ops, done) && IsFirst(cfg, made[..i], first)
  }

  lemma WalkStarts(cfg: Configuration, made: seq<Assignment>, ops: Ops)
    ensures Walked(cfg, made, ops)(0, map[], 0)
  {
    var none: Ops := map[];
    assert Doing(made, 0, ops, none) && IsFirst(cfg, made[..0], 0);
  }

  lemma WalkOn(cfg: Configuration, made: seq<Assignment>, ops: Ops, i: nat, done: Ops, first: nat)
    requires Walked(cfg, made, ops)(i, done, first) && i < |made| && Says(made, ops) && Numbered(made)
    ensures Walked(cfg, made, ops)(i + 1, done[made[i].slot := made[i].value],
                                   if first == 0 && EffectiveAt(cfg, made[i]) then made[i].index else first)
    ensures made[i].slot in done ==> done[made[i].slot := made[i].value] == done
  {
    FirstMore(cfg, made, i, first);
    DoMore(made, i, ops, done);
  }

  lemma WalkEnds(cfg: Configuration, made: seq<Assignment>, ops: Ops, done: Ops, first: nat)
    requires Walked(cfg, made, ops)(|made|, done, first) && Says(made, ops)
    ensures done == ops && IsFirst(cfg, made, first)
  {
    assert made[..|made|] == made;
    Done(made, ops, done);
  }

  /** Later assignments of an object agree with its first one, which alone is applied. */
  method ApplyAll(cfg: Configuration, made: seq<Assignment>, ops: Ops)
    returns (ports: map<Id, Port>, vlans: map<VlanId, Vlan>, first: nat, actions: map<int, PaeAction>)
    requires Says(made, ops) && OpsOk(cfg.ports.Keys, cfg.vlans.Keys, ops) && Numbered(made)
    requires PortsOk(cfg.ports, cfg.vlans.Keys) && DEFAULT_VLAN in cfg.vlans
    ensures GrownPorts(ops, Gone(cfg.vlans.Keys, ops), cfg.ports)(ops, ports)
    ensures vlans == Renamed(StartedVlans(cfg.vlans, Gone(cfg.vlans.Keys, ops), Created(ops)), ops)
    ensures IsFirst(cfg, made, first) && actions == PaeActions(ops)
  {
    var gone, created := Gone(cfg.vlans.Keys, ops), Created(ops);
    ports, vlans := StartedPorts(cfg.ports, ops, gone), StartedVlans(cfg.vlans, gone, created);
    first, actions := 0, map[];
    var done: Ops := map[];
    Starting(cfg, ops);
    WalkStarts(cfg, made, ops);
    ghost var start := vlans;
    for i := 0 to |made|
      invariant Walked(cfg, made, ops)(i, done, first)
      invariant GrownPorts(ops, gone, cfg.ports)(done, ports)
      invariant vlans == Renamed(start, done) && actions == PaeActions(done)
    {
      var a := made[i];
      WalkOn(cfg, made, ops, i, done, first);
      done, ports, vlans, actions := ApplyOne(cfg, ops, done, a, ports, vlans, actions);
      if first == 0 && EffectiveAt(cfg, a) {
        first := a.index;
      }
    }
    WalkEnds(cfg, made, ops, done, first);
  }

  // ---------------------------------------------------------------------------------------------
  // Re-checking the affected ports and the created VLANs
  // ---------------------------------------------------------------------------------------------

  predicate BlamedAt(cfg: Configuration, ports: map<Id, Port>, ops: Ops, gone: set<VlanId>, p: Id, a: Assignment)
    requires p in cfg.ports && p in ports
  {
    Charged(Slot(PortPvid, p) in ops, gone, p, cfg.ports[p].policy, ports[p].policy, a)
  }

  function Blamed(cfg: Configuration, ports: map<Id, Port>, ops: Ops, gone: set<VlanId>, made: seq<Assignment>, p: Id): set<nat>
    requires p in cfg.ports && p in ports
  {
    set i | 0 <= i < |made| && BlamedAt(cfg, ports, ops, gone, p, made[i]) :: made[i].index
  }

  method Conflicts(cfg: Configuration, ports: map<Id, Port>, affected: set<Id>, ops: Ops, gone: set<VlanId>, made: seq<Assignment>)
    returns (conflicts: set<nat>)
    requires affected <= cfg.ports.Keys && affected <= ports.Keys
    ensures forall n :: n in conflicts <==> exists p :: p in affected && n in Blamed(cfg, ports, ops, gone, made, p)
  {
    conflicts := {};
    var rest := affected;
    while rest != {}
      invariant rest <= affected
      invariant forall n :: n in conflicts <==> exists p :: p in affected && p !in rest && n in Blamed(cfg, ports, ops, gone, made, p)
      decreases |rest|
    {
      var p :| p in rest;
      ghost var before := conflicts;
      conflicts := conflicts + Blamed(cfg, ports, ops, gone, made, p);
      rest := rest - {p};
      forall n ensures n in conflicts <==> exists q :: q in affected && q !in rest && n in Blamed(cfg, ports, ops, gone, made, q) {
        if n in conflicts && n !in before { assert p in affected && p !in rest && n in Blamed(cfg, ports, ops, gone, made, p); }
      }
    }
  }

  predicate Occupied(vlans: map<VlanId, Vlan>, a: Assignment) {
    a.slot.kind.RowStatus? && a.value == Number(4) && a.slot.key in vlans && Collides(vlans, a.slot.key)
  }

  /** The first created row whose FDB identifier is taken. */
  method FirstOccupied(vlans: map<VlanId, Vlan>, made: seq<Assignment>) returns (r: Option<nat>)
    requires Numbered(made)
    ensures r.None? <==> forall i :: 0 <= i < |made| ==> !Occupied(vlans, made[i])
    ensures r.Some? ==> 1 <= r.value <= |made| && Occupied(vlans, made[r.value - 1])
                        && forall i :: 0 <= i < r.value - 1 ==> !Occupied(vlans, made[i])
  {
    for i := 0 to |made|
      invariant forall j :: 0 <= j < i ==> !Occupied(vlans, made[j])
    {
      if Occupied(vlans, made[i]) {
        return Some(made[i].index);
      }
    }
    r := None;
  }

  // ---------------------------------------------------------------------------------------------
  // The plan
  // ---------------------------------------------------------------------------------------------

  function Affected(cfg: Configuration, ports: map<Id, Port>): set<Id> {
    set p | p in cfg.ports && p in ports && ports[p].policy != cfg.ports[p].policy
  }

  /** A broken port is affected, so one of the assignments is in conflict. */
  lemma BrokenConflicts(cfg: Configuration, ports: map<Id, Port>, ops: Ops, made: seq<Assignment>, p: Id)
    requires Says(made, ops) && OpsOk(cfg.ports.Keys, cfg.vlans.Keys, ops) && PortsOk(cfg.ports, cfg.vlans.Keys) && DEFAULT_VLAN in cfg.vlans
    requires PortsMeet(ops, Gone(cfg.vlans.Keys, ops), cfg.ports, ports) && p in cfg.ports && Broken(ports[p].policy)
    ensures p in Affected(cfg, ports) && Blamed(cfg, ports, ops, Gone(cfg.vlans.Keys, ops), made, p) != {}
  {
    var was, q, gone := cfg.ports[p].policy, ports[p].policy, Gone(cfg.vlans.Keys, ops);
    OneStays(ops, cfg.ports.Keys, cfg.vlans.Keys);
    BrokenIsCharged(made, ops, cfg.vlans.Keys, p, was, q);
    var i :| 0 <= i < |made| && Charged(Slot(PortPvid, p) in ops, gone, p, was, q, made[i]);
    assert BlamedAt(cfg, ports, ops, gone, p, made[i]);
    assert made[i].index in Blamed(cfg, ports, ops, gone, made, p);
    BrokenMeans(q);
    BrokenMeans(was);
  }

  lemma UnbrokenAgrees(cfg: Configuration, ports: map<Id, Port>, ops: Ops, made: seq<Assignment>, conflicts: set<nat>)
    requires Says(made, ops) && OpsOk(cfg.ports.Keys, cfg.vlans.Keys, ops) && PortsOk(cfg.ports, cfg.vlans.Keys) && DEFAULT_VLAN in cfg.vlans
    requires PortsMeet(ops, Gone(cfg.vlans.Keys, ops), cfg.ports, ports)
    requires forall n :: n in conflicts <==>
      exists p :: p in Affected(cfg, ports) && n in Blamed(cfg, ports, ops, Gone(cfg.vlans.Keys, ops), made, p)
    ensures conflicts == {} <==> NoneBroken(ports)
  {
    var gone := Gone(cfg.vlans.Keys, ops);
    if p :| p in ports && Broken(ports[p].policy) {
      BrokenConflicts(cfg, ports, ops, made, p);
      var n :| n in Blamed(cfg, ports, ops, gone, made, p);
      assert n in conflicts;
    }
    if n :| n in conflicts {
      var p :| p in Affected(cfg, ports) && n in Blamed(cfg, ports, ops, gone, made, p);
      var i :| 0 <= i < |made| && BlamedAt(cfg, ports, ops, gone, p, made[i]);
      ChargedIsBroken(Slot(PortPvid, p) in ops, gone, p, cfg.ports[p].policy, ports[p].policy, made[i]);
      assert Broken(ports[p].policy);
    }
  }

  lemma OccupiedAgrees(vlans: map<VlanId, Vlan>, ops: Ops, made: seq<Assignment>)
    requires Says(made, ops)
    ensures (forall i :: 0 <= i < |made| ==> !Occupied(vlans, made[i])) <==> NoneCollides(vlans, Created(ops))
  {
    if NoneCollides(vlans, Created(ops)) {
      forall i | 0 <= i < |made| ensures !Occupied(vlans, made[i]) {
        if made[i].slot.kind.RowStatus? && made[i].value == Number(4) && made[i].slot.key in vlans {
          assert made[i].slot.key in Created(ops);
        }
      }
    }
    if forall i :: 0 <= i < |made| ==> !Occupied(vlans, made[i]) {
      forall v | v in Created(ops) && v in vlans ensures !Collides(vlans, v) {
        var s :| s in ops && s.kind.RowStatus? && ops[s] == Number(4) && s.key == v;
        var i :| 0 <= i < |made| && made[i].slot == s;
        assert !Occupied(vlans, made[i]);
      }
    }
  }

  /** A plan is the simultaneous outcome of its assignments, and nothing else. */
  ghost predicate IsPlan(cfg: Configuration, made: seq<Assignment>, plan: Plan) {
    var ops := OpsOf(made);
    && plan.before == cfg && plan.assignments == made
    && Meets(cfg, ops, plan.candidate) && Valid(plan.candidate)
    && plan.creates == Created(ops) && plan.deletes == Gone(cfg.vlans.Keys, ops)
    && plan.affected == Affected(cfg, plan.candidate.ports)
    && plan.actions == PaeActions(ops)
    && IsFirst(cfg, made, plan.firstEffective)
  }

  /** No configuration that the assignments denote would be valid. */
  ghost predicate Hopeless(cfg: Configuration, made: seq<Assignment>) {
    forall c :: Meets(cfg, OpsOf(made), c) ==> !Valid(c)
  }

  ghost predicate SomeBlamed(cfg: Configuration, ports: map<Id, Port>, ops: Ops, gone: set<VlanId>, a: Assignment)
    requires ports.Keys == cfg.ports.Keys
  {
    exists p :: p in cfg.ports && BlamedAt(cfg, ports, ops, gone, p, a)
  }

  /** The indices of all created rows that cannot be allocated. */
  function Unallocated(vlans: map<VlanId, Vlan>, made: seq<Assignment>): set<nat> {
    set i | 0 <= i < |made| && Occupied(vlans, made[i]) :: made[i].index
  }

  /** The indices of all assignments charged with a broken relation of some port. */
  ghost function InConflict(cfg: Configuration, ports: map<Id, Port>, ops: Ops, gone: set<VlanId>, made: seq<Assignment>): set<nat>
    requires ports.Keys == cfg.ports.Keys
  {
    set i | 0 <= i < |made| && SomeBlamed(cfg, ports, ops, gone, made[i]) :: made[i].index
  }

  /**
   * The failure names the least index of an assignment charged with a broken relation of `c` or, when none is, the least one
   * of a created row that cannot be allocated.
   */
  ghost function Blame(cfg: Configuration, made: seq<Assignment>, c: Configuration): Option<SetFailure>
    requires c.ports.Keys == cfg.ports.Keys
  {
    var conflicts := InConflict(cfg, c.ports, OpsOf(made), Gone(cfg.vlans.Keys, OpsOf(made)), made);
    var rows := Unallocated(c.vlans, made);
    if conflicts != {} then Some(SetFailure(InconsistentValue, Least(conflicts)))
    else if rows != {} then Some(SetFailure(ResourceUnavailable, Least(rows)))
    else None
  }

  /** The verdict on the configuration the assignments denote. */
  lemma Verdict(cfg: Configuration, made: seq<Assignment>, c: Configuration, occupied: Option<nat>)
    requires Valid(cfg) && Says(made, OpsOf(made)) && OpsOk(cfg.ports.Keys, cfg.vlans.Keys, OpsOf(made))
    requires Meets(cfg, OpsOf(made), c)
    requires occupied.None? <==> forall i :: 0 <= i < |made| ==> !Occupied(c.vlans, made[i])
    ensures Valid(c) <==> NoneBroken(c.ports) && occupied.None?
    ensures !Valid(c) ==> Hopeless(cfg, made)
  {
    OccupiedAgrees(c.vlans, OpsOf(made), made);
    MeetsDecides(cfg, OpsOf(made), c);
    if !Valid(c) {
      forall b | Meets(cfg, OpsOf(made), b) ensures !Valid(b) { SameValidity(cfg, OpsOf(made), c, b); }
    }
  }

  lemma Candidate(cfg: Configuration, ops: Ops, ports: map<Id, Port>, vlans: map<VlanId, Vlan>)
    requires OpsOk(cfg.ports.Keys, cfg.vlans.Keys, ops) && PortsGrow(ops, ops, Gone(cfg.vlans.Keys, ops), cfg.ports, ports)
    requires vlans == Renamed(StartedVlans(cfg.vlans, Gone(cfg.vlans.Keys, ops), Created(ops)), ops)
    ensures Meets(cfg, ops, cfg.(ports := ports, vlans := vlans,
                                 switch := cfg.switch.(legacyVlan := NextLegacy(cfg.vlans.Keys, ops, cfg.switch.legacyVlan))))
  {
    NamedAre(cfg.vlans, ops, cfg.ports.Keys);
    GrownPortsMeet(ops, Gone(cfg.vlans.Keys, ops), cfg.ports, ports);
  }

  /** Every assignment charged with some port's relation is charged with that of an affected port. */
  lemma BlamedIsConflict(cfg: Configuration, ports: map<Id, Port>, ops: Ops, made: seq<Assignment>, n: nat)
    requires Says(made, ops) && OpsOk(cfg.ports.Keys, cfg.vlans.Keys, ops) && PortsOk(cfg.ports, cfg.vlans.Keys) && DEFAULT_VLAN in cfg.vlans
    requires PortsMeet(ops, Gone(cfg.vlans.Keys, ops), cfg.ports, ports) && Numbered(made)
    requires n in InConflict(cfg, ports, ops, Gone(cfg.vlans.Keys, ops), made)
    ensures exists p :: p in Affected(cfg, ports) && n in Blamed(cfg, ports, ops, Gone(cfg.vlans.Keys, ops), made, p)
  {
    var gone := Gone(cfg.vlans.Keys, ops);
    var p :| p in cfg.ports && BlamedAt(cfg, ports, ops, gone, p, made[n - 1]);
    ChargedIsBroken(Slot(PortPvid, p) in ops, gone, p, cfg.ports[p].policy, ports[p].policy, made[n - 1]);
    BrokenConflicts(cfg, ports, ops, made, p);
    assert made[n - 1].index == n;
    assert n in Blamed(cfg, ports, ops, gone, made, p);
  }

  lemma ConflictIsBlamed(cfg: Configuration, ports: map<Id, Port>, ops: Ops, gone: set<VlanId>, made: seq<Assignment>, p: Id, n: nat)
    requires Numbered(made) && ports.Keys == cfg.ports.Keys && p in cfg.ports && n in Blamed(cfg, ports, ops, gone, made, p)
    ensures n in InConflict(cfg, ports, ops, gone, made)
  {
    assert BlamedAt(cfg, ports, ops, gone, p, made[n - 1]);
  }

  lemma ConflictsAre(cfg: Configuration, ports: map<Id, Port>, ops: Ops, made: seq<Assignment>, conflicts: set<nat>)
    requires Says(made, ops) && OpsOk(cfg.ports.Keys, cfg.vlans.Keys, ops) && PortsOk(cfg.ports, cfg.vlans.Keys) && DEFAULT_VLAN in cfg.vlans
    requires PortsMeet(ops, Gone(cfg.vlans.Keys, ops), cfg.ports, ports) && Numbered(made)
    requires forall n :: n in conflicts <==>
      exists p :: p in Affected(cfg, ports) && n in Blamed(cfg, ports, ops, Gone(cfg.vlans.Keys, ops), made, p)
    ensures conflicts == InConflict(cfg, ports, ops, Gone(cfg.vlans.Keys, ops), made)
  {
    var gone := Gone(cfg.vlans.Keys, ops);
    forall n: nat ensures n in conflicts <==> n in InConflict(cfg, ports, ops, gone, made) {
      if n in conflicts {
        var p :| p in Affected(cfg, ports) && n in Blamed(cfg, ports, ops, gone, made, p);
        ConflictIsBlamed(cfg, ports, ops, gone, made, p, n);
      }
      if n in InConflict(cfg, ports, ops, gone, made) { BlamedIsConflict(cfg, ports, ops, made, n); }
    }
  }

  lemma ValidParts(cfg: Configuration)
    requires Valid(cfg)
    ensures Distinguished(cfg.ports) && PortsOk(cfg.ports, cfg.vlans.Keys) && DEFAULT_VLAN in cfg.vlans
  {
  }

  /** What is known of the assignments of an accepted request. */
  lemma AcceptedParts(cfg: Configuration, d: Directory, includes: seq<Oid>, bindings: seq<Binding>)
    requires Valid(cfg) && Indexes(d, cfg.ports) && Request(cfg.vlans.Keys, d, includes, bindings).Ok?
    ensures var made := Request(cfg.vlans.Keys, d, includes, bindings).value;
            && |made| == |bindings| && Numbered(made) && Says(made, OpsOf(made)) && OpsOk(cfg.ports.Keys, cfg.vlans.Keys, OpsOf(made))
  {
    ValidParts(cfg);
    AcceptedOpsOk(cfg.ports, cfg.vlans.Keys, d, includes, bindings);
  }

  method Outcome(cfg: Configuration, made: seq<Assignment>, ops: Ops)
    returns (c: Configuration, first: nat, actions: map<int, PaeAction>)
    requires Valid(cfg) && Numbered(made) && Says(made, ops) && OpsOk(cfg.ports.Keys, cfg.vlans.Keys, ops)
    ensures Meets(cfg, ops, c) && IsFirst(cfg, made, first) && actions == PaeActions(ops)
  {
    ValidParts(cfg);
    var ports, vlans;
    ports, vlans, first, actions := ApplyAll(cfg, made, ops);
    Candidate(cfg, ops, ports, vlans);
    c := cfg.(ports := ports, vlans := vlans,
              switch := cfg.switch.(legacyVlan := NextLegacy(cfg.vlans.Keys, ops, cfg.switch.legacyVlan)));
  }

  /** The first assignment charged with a broken relation, found among the relations of the affected ports. */
  method FindConflict(cfg: Configuration, made: seq<Assignment>, ops: Ops, ports: map<Id, Port>) returns (conflict: Option<nat>)
    requires Says(made, ops) && OpsOk(cfg.ports.Keys, cfg.vlans.Keys, ops) && PortsOk(cfg.ports, cfg.vlans.Keys) && DEFAULT_VLAN in cfg.vlans
    requires PortsMeet(ops, Gone(cfg.vlans.Keys, ops), cfg.ports, ports) && Numbered(made)
    ensures conflict.None? <==> NoneBroken(ports)
    ensures var conflicts := InConflict(cfg, ports, ops, Gone(cfg.vlans.Keys, ops), made);
            conflict == if conflicts == {} then None else Some(Least(conflicts))
  {
    var conflicts := Conflicts(cfg, ports, Affected(cfg, ports), ops, Gone(cfg.vlans.Keys, ops), made);
    UnbrokenAgrees(cfg, ports, ops, made, conflicts);
    ConflictsAre(cfg, ports, ops, made, conflicts);
    conflict := if conflicts == {} then None else Some(Least(conflicts));
  }

  lemma BlameIsIndex(cfg: Configuration, made: seq<Assignment>, c: Configuration)
    requires Numbered(made) && c.ports.Keys == cfg.ports.Keys
    ensures Blame(cfg, made, c).Some? ==> 1 <= Blame(cfg, made, c).value.index <= |made|
  {
  }

  lemma FirstIsLeast(vlans: map<VlanId, Vlan>, made: seq<Assignment>, occupied: Option<nat>)
    requires Numbered(made)
    requires occupied.None? <==> forall i :: 0 <= i < |made| ==> !Occupied(vlans, made[i])
    requires occupied.Some? ==> 1 <= occupied.value <= |made| && Occupied(vlans, made[occupied.value - 1])
                                && forall i :: 0 <= i < occupied.value - 1 ==> !Occupied(vlans, made[i])
    ensures occupied == if Unallocated(vlans, made) == {} then None else Some(Least(Unallocated(vlans, made)))
  {
    if occupied.Some? {
      assert made[occupied.value - 1].index == occupied.value;
      assert occupied.value in Unallocated(vlans, made);
    }
  }

  function Failure(conflict: Option<nat>, occupied: Option<nat>): Option<SetFailure> {
    if conflict.Some? then Some(SetFailure(InconsistentValue, conflict.value))
    else if occupied.Some? then Some(SetFailure(ResourceUnavailable, occupied.value))
    else None
  }

  /** What the two searches find is the blame, and there is none exactly when the outcome is valid. */
  lemma SearchesJudge(cfg: Configuration, made: seq<Assignment>, c: Configuration, conflict: Option<nat>, occupied: Option<nat>)
    requires Valid(cfg) && Numbered(made) && Says(made, OpsOf(made)) && OpsOk(cfg.ports.Keys, cfg.vlans.Keys, OpsOf(made))
    requires Meets(cfg, OpsOf(made), c)
    requires conflict.None? <==> NoneBroken(c.ports)
    requires occupied.None? <==> forall i :: 0 <= i < |made| ==> !Occupied(c.vlans, made[i])
    ensures (Failure(conflict, occupied) == None) == Valid(c)
    ensures Failure(conflict, occupied).Some? ==> Hopeless(cfg, made)
  {
    Verdict(cfg, made, c, occupied);
  }

  lemma SearchesBlame(cfg: Configuration, made: seq<Assignment>, c: Configuration, conflict: Option<nat>, occupied: Option<nat>)
    requires Numbered(made) && c.ports.Keys == cfg.ports.Keys
    requires var conflicts := InConflict(cfg, c.ports, OpsOf(made), Gone(cfg.vlans.Keys, OpsOf(made)), made);
             conflict == if conflicts == {} then None else Some(Least(conflicts))
    requires occupied.None? <==> forall i :: 0 <= i < |made| ==> !Occupied(c.vlans, made[i])
    requires occupied.Some? ==> 1 <= occupied.value <= |made| && Occupied(c.vlans, made[occupied.value - 1])
                                && forall i :: 0 <= i < occupied.value - 1 ==> !Occupied(c.vlans, made[i])
    ensures Failure(conflict, occupied) == Blame(cfg, made, c)
  {
    FirstIsLeast(c.vlans, made, occupied);
  }

  /** The relations of the affected ports, then the FDB identifiers of the created rows. */
  method Recheck(cfg: Configuration, made: seq<Assignment>, ops: Ops, c: Configuration) returns (failure: Option<SetFailure>)
    requires Valid(cfg) && ops == OpsOf(made) && Numbered(made) && Says(made, ops) && OpsOk(cfg.ports.Keys, cfg.vlans.Keys, ops)
    requires Meets(cfg, ops, c)
    ensures failure == Blame(cfg, made, c)
    ensures (failure == None) == Valid(c)
    ensures failure.Some? ==> Hopeless(cfg, made)
  {
    ValidParts(cfg);
    var conflict := FindConflict(cfg, made, ops, c.ports);
    var occupied := FirstOccupied(c.vlans, made);
    SearchesJudge(cfg, made, c, conflict, occupied);
    SearchesBlame(cfg, made, c, conflict, occupied);
    failure := Failure(conflict, occupied);
  }

  /** The second half of the planner, once every binding has passed on its own. */
  method Settle(cfg: Configuration, made: seq<Assignment>, ops: Ops) returns (r: Result<Plan, SetFailure>, ghost c: Configuration)
    requires Valid(cfg) && ops == OpsOf(made) && Numbered(made) && Says(made, ops) && OpsOk(cfg.ports.Keys, cfg.vlans.Keys, ops)
    ensures Meets(cfg, ops, c)
    ensures r.Ok? ==> IsPlan(cfg, made, r.value)
    ensures r.Err? ==> Hopeless(cfg, made) && 1 <= r.error.index <= |made|
    ensures Blame(cfg, made, c) == if r.Ok? then None else Some(r.error)
  {
    var candidate, first, actions := Outcome(cfg, made, ops);
    c := candidate;
    var failure := Recheck(cfg, made, ops, candidate);
    if failure.Some? {
      BlameIsIndex(cfg, made, c);
      r := Err(failure.value);
    } else {
      r := Ok(Plan(cfg, candidate, made, Created(ops), Gone(cfg.vlans.Keys, ops), Affected(cfg, candidate.ports), first, actions));
    }
  }

  /** What the planner may answer: the first failure of a binding, the simultaneous outcome, or a blame when there is no valid one. */
  ghost predicate Answers(cfg: Configuration, d: Directory, includes: seq<Oid>, bindings: seq<Binding>, c: Configuration,
                          r: Result<Plan, SetFailure>)
  {
    var request := Request(cfg.vlans.Keys, d, includes, bindings);
    if request.Err? then r == Err(request.error) else
    && Meets(cfg, OpsOf(request.value), c)
    && (r.Ok? ==> IsPlan(cfg, request.value, r.value))
    && (r.Err? ==> Hopeless(cfg, request.value))
    && Blame(cfg, request.value, c) == if r.Ok? then None else Some(r.error)
  }

  /**
   * From any valid configuration the planner fails on a binding of the request, with the first failure of its own or a charged
   * relation, or returns the simultaneous outcome, which satisfies the whole validator.
   */
  method PlanSet(cfg: Configuration, bindings: seq<Binding>, includes: seq<Oid>)
    returns (r: Result<Plan, SetFailure>, ghost d: Directory, ghost c: Configuration)
    requires Valid(cfg)
    ensures Indexes(d, cfg.ports) && Answers(cfg, d, includes, bindings, c, r)
    ensures r.Ok? ==> Valid(r.value.candidate)
    ensures r.Err? ==> 1 <= r.error.index <= |bindings|
  {
    ValidParts(cfg);
    var directory := ByIndex(cfg.ports);
    d, c := directory, cfg;
    var intent := ReadCommands(bindings);
    var check := Checker(cfg.vlans.Keys, directory, includes, intent);
    AssignedIsMirror(check, bindings);
    var checked, seen := CheckAll(check, bindings);
    if checked.Err? {
      return Err(checked.error), d, c;
    }
    AcceptedParts(cfg, directory, includes, bindings);
    r, c := Settle(cfg, checked.value, seen);
  }
}
