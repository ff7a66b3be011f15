/**
 * SNMP SET requests: the writable objects, what each variable binding must satisfy on its own, and the simultaneous
 * assignment that a request denotes (section 4.2.5 of RFC 3416).
 */
module SetRequests {
  import opened Outcomes
  import opened Configuration

  type Oid = seq<nat>

  datatype Kind =
    | AdminStatus | PaeInitialize | PaeReauthenticate | PaeControl | PortPvid
    | StaticName | EgressPorts | ForbiddenPorts | UntaggedPorts | RowStatus

  datatype Wire = Integer(n: int) | Gauge(n: int) | OctetString(octets: Bytes) | OtherSyntax

  datatype Binding = Binding(name: Oid, wire: Wire)

  /** One writable object: the key is a port or a VLAN number. */
  datatype Slot = Slot(kind: Kind, key: int)
  datatype Value = Number(n: int) | Label(name: VlanName) | Members(ports: set<Id>)
  datatype Assignment = Assignment(index: nat, slot: Slot, value: Value)

  datatype Status =
    | NoAccess | NotWritable | WrongType | WrongValue | WrongLength | NoCreation
    | InconsistentName | InconsistentValue | ResourceUnavailable
  datatype SetFailure = SetFailure(status: Status, index: nat)

  /** The ports by interface index and by bridge port number. */
  datatype Directory = Directory(byIf: map<Number, Id>, byBridge: map<Number, Id>)

  ghost predicate Indexes(d: Directory, ports: map<Id, Port>) {
    && (forall p :: p in ports ==> ports[p].hw.ifIndex in d.byIf && d.byIf[ports[p].hw.ifIndex] == p)
    && (forall p :: p in ports ==> ports[p].hw.bridgePort in d.byBridge && d.byBridge[ports[p].hw.bridgePort] == p)
    && (forall i :: i in d.byIf ==> d.byIf[i] in ports && ports[d.byIf[i]].hw.ifIndex == i)
    && (forall i :: i in d.byBridge ==> d.byBridge[i] in ports && ports[d.byBridge[i]].hw.bridgePort == i)
  }

  // ---------------------------------------------------------------------------------------------
  // Names
  // ---------------------------------------------------------------------------------------------

  function Base(k: Kind): Oid {
    match k
    case AdminStatus => [1, 3, 6, 1, 2, 1, 2, 2, 1, 7]
    case PaeInitialize => [1, 0, 8802, 1, 1, 1, 1, 1, 2, 1, 4]
    case PaeReauthenticate => [1, 0, 8802, 1, 1, 1, 1, 1, 2, 1, 5]
    case PaeControl => [1, 0, 8802, 1, 1, 1, 1, 2, 1, 1, 6]
    case PortPvid => [1, 3, 6, 1, 2, 1, 17, 7, 1, 4, 5, 1, 1]
    case StaticName => [1, 3, 6, 1, 2, 1, 17, 7, 1, 4, 3, 1, 1]
    case EgressPorts => [1, 3, 6, 1, 2, 1, 17, 7, 1, 4, 3, 1, 2]
    case ForbiddenPorts => [1, 3, 6, 1, 2, 1, 17, 7, 1, 4, 3, 1, 3]
    case UntaggedPorts => [1, 3, 6, 1, 2, 1, 17, 7, 1, 4, 3, 1, 4]
    case RowStatus => [1, 3, 6, 1, 2, 1, 17, 7, 1, 4, 3, 1, 5]
  }

  predicate Under(name: Oid, prefix: Oid) {
    |prefix| <= |name| && name[..|prefix|] == prefix
  }

  predicate Allowed(name: Oid, includes: seq<Oid>) {
    exists i :: 0 <= i < |includes| && Under(name, includes[i])
  }

  /** `_write_object` */
  function Writable(name: Oid): (r: Option<Kind>)
    ensures r.Some? ==> Under(name, Base(r.value))
  {
    if Under(name, Base(AdminStatus)) then Some(AdminStatus)
    else if Under(name, Base(PaeInitialize)) then Some(PaeInitialize)
    else if Under(name, Base(PaeReauthenticate)) then Some(PaeReauthenticate)
    else if Under(name, Base(PaeControl)) then Some(PaeControl)
    else if Under(name, Base(PortPvid)) then Some(PortPvid)
    else if Under(name, Base(StaticName)) then Some(StaticName)
    else if Under(name, Base(EgressPorts)) then Some(EgressPorts)
    else if Under(name, Base(ForbiddenPorts)) then Some(ForbiddenPorts)
    else if Under(name, Base(UntaggedPorts)) then Some(UntaggedPorts)
    else if Under(name, Base(RowStatus)) then Some(RowStatus)
    else None
  }

  // ---------------------------------------------------------------------------------------------
  // Port bitmaps
  // ---------------------------------------------------------------------------------------------

  /** The mask of the i-th bit, counted from the most significant one. */
  function Mask(i: nat): Byte
    requires i < 8
  {
    match i
    case 0 => 0x80
    case 1 => 0x40
    case 2 => 0x20
    case 3 => 0x10
    case 4 => 0x08
    case 5 => 0x04
    case 6 => 0x02
    case _ => 0x01
  }

  predicate Bit(octets: Bytes, n: nat)
    requires n < 8 * |octets|
  {
    octets[n / 8] & Mask(n % 8) != 0
  }

  predicate AllNamed(byBridge: map<Number, Id>, octets: Bytes, n: nat)
    requires n <= 8 * |octets|
  {
    forall k :: 0 <= k < n && Bit(octets, k) ==> k + 1 in byBridge
  }

  function MembersUpTo(byBridge: map<Number, Id>, octets: Bytes, n: nat): set<Id>
    requires n <= 8 * |octets| && AllNamed(byBridge, octets, n)
  {
    set k | 0 <= k < n && Bit(octets, k) :: byBridge[k + 1]
  }

  /** The ports of the bits that are set, if each such bit is the number of a port. */
  function PortsOf(byBridge: map<Number, Id>, octets: Bytes): Option<set<Id>> {
    if AllNamed(byBridge, octets, 8 * |octets|) then Some(MembersUpTo(byBridge, octets, 8 * |octets|)) else None
  }

  // ---------------------------------------------------------------------------------------------
  // One binding
  // ---------------------------------------------------------------------------------------------

  predicate OfPort(k: Kind) {
    k.AdminStatus? || k.PaeInitialize? || k.PaeReauthenticate? || k.PaeControl? || k.PortPvid?
  }

  predicate OfMembers(k: Kind) {
    k.EgressPorts? || k.ForbiddenPorts? || k.UntaggedPorts?
  }

  predicate Ranged(k: Kind, n: int) {
    match k
    case PaeControl => n in {1, 2, 3}
    case RowStatus => n in {1, 2, 4, 5, 6}
    case _ => n in {1, 2}
  }

  function Decoded(d: Directory, k: Kind, wire: Wire): Result<Value, Status> {
    match k
    case PortPvid =>
      if !wire.Gauge? then Err(WrongType) else if !(1 <= wire.n <= 4094) then Err(WrongValue) else Ok(Number(wire.n))
    case StaticName =>
      if !wire.OctetString? then Err(WrongType)
      else if |wire.octets| > 32 then Err(WrongLength)
      else if !Utf8(wire.octets) then Err(WrongValue)
      else Ok(Label(wire.octets))
    case AdminStatus | PaeInitialize | PaeReauthenticate | PaeControl | RowStatus =>
      if !wire.Integer? then Err(WrongType) else if !Ranged(k, wire.n) then Err(WrongValue) else Ok(Number(wire.n))
    case EgressPorts | ForbiddenPorts | UntaggedPorts =>
      if !wire.OctetString? then Err(WrongType) else
      var ports := PortsOf(d.byBridge, wire.octets);
      if ports.None? then Err(WrongValue) else Ok(Members(ports.value))
  }

  /** The instance a name denotes. */
  function Instance(d: Directory, k: Kind, suffix: Oid): Result<int, Status> {
    if |suffix| != 1 then Err(NoCreation)
    else if OfPort(k) then
      var index := if k.PortPvid? then d.byBridge else d.byIf;
      if suffix[0] >= 1 && suffix[0] in index then Ok(index[suffix[0]]) else Err(NoCreation)
    else if 1 <= suffix[0] <= 4094 then Ok(suffix[0]) else Err(NoCreation)
  }

  /** `_row_error` */
  function RowError(present: bool, vid: int, n: int): Option<Status> {
    if n !in {1, 2, 4, 5, 6} then Some(WrongValue)
    else if (present && n in {4, 5}) || (!present && n in {1, 2}) then Some(InconsistentValue)
    else if n in {2, 5} then Some(WrongValue)
    else if vid == 1 && n == 6 then Some(InconsistentValue)
    else None
  }

  /** Whether the instance exists or is created, and is not destroyed, by this very request. */
  function Settles(vids: set<VlanId>, creates: set<int>, destroys: set<int>, k: Kind, key: int, v: Value): Option<Status> {
    if k.RowStatus? then if v.Number? then RowError(key in vids, key, v.n) else Some(WrongValue)
    else if OfPort(k) then None
    else if key !in vids && key !in creates then Some(InconsistentName)
    else if key in destroys then Some(InconsistentValue)
    else None
  }

  /** The row commands a request intends, which its other bindings may rely on whatever their position. */
  datatype Intent = Intent(creates: set<int>, destroys: set<int>)

  /** All the checks on one binding, in their order; only what it shares with equal objects elsewhere is left. */
  function Checked(vids: set<VlanId>, d: Directory, includes: seq<Oid>, intent: Intent, b: Binding): Result<(Slot, Value), Status> {
    if !Allowed(b.name, includes) then Err(NoAccess) else
    var k := Writable(b.name);
    if k.None? then Err(NotWritable) else
    var v := Decoded(d, k.value, b.wire);
    if v.Err? then Err(v.error) else
    var key := Instance(d, k.value, b.name[|Base(k.value)|..]);
    if key.Err? then Err(key.error) else
    var error := Settles(vids, intent.creates, intent.destroys, k.value, key.value, v.value);
    if error.Some? then Err(error.value) else Ok((Slot(k.value, key.value), v.value))
  }

  // ---------------------------------------------------------------------------------------------
  // All bindings
  // ---------------------------------------------------------------------------------------------

  /** The row command of a binding that names a row, if it has the right type. */
  function RowCommand(b: Binding): Option<int> {
    if b.wire.Integer? then Some(b.wire.n) else None
  }

  type RowReader = Binding -> Option<int>

  /** The row a binding names, valid or not. */
  function Row(): RowReader {
    (b: Binding) => if Writable(b.name) == Some(RowStatus) && |b.name| == |Base(RowStatus)| + 1 then Some(b.name[|b.name| - 1]) else None
  }

  /** The first binding of a row supplies its command, even one that will be refused. */
  function Commands(row: RowReader, bindings: seq<Binding>): map<int, Option<int>> {
    if bindings == [] then map[] else
    var n := |bindings| - 1;
    var v, rest := row(bindings[n]), Commands(row, bindings[..n]);
    if v.Some? && v.value !in rest then rest[v.value := RowCommand(bindings[n])] else rest
  }

  function IntentOf(row: RowReader, bindings: seq<Binding>): Intent {
    var c := Commands(row, bindings);
    Intent(set v | v in c && c[v] == Some(4), set v | v in c && c[v] == Some(6))
  }

  type Check = Binding -> Result<(Slot, Value), Status>

  /** `Checked` against the state and the intent of one request */
  function Checker(vids: set<VlanId>, d: Directory, includes: seq<Oid>, intent: Intent): Check {
    b => Checked(vids, d, includes, intent, b)
  }

  predicate Differs(a: Assignment, slot: Slot, v: Value) {
    a.slot == slot && a.value != v
  }

  /** The checked assignments in their original positions, or the first failure. */
  function Assigned(check: Check, bindings: seq<Binding>): Result<seq<Assignment>, SetFailure> {
    if bindings == [] then Ok([]) else
    var n := |bindings| - 1;
    var before := Assigned(check, bindings[..n]);
    if before.Err? then before else
    var c := check(bindings[n]);
    if c.Err? then Err(SetFailure(c.error, n + 1))
    else if exists i :: 0 <= i < |before.value| && Differs(before.value[i], c.value.0, c.value.1)
    then Err(SetFailure(InconsistentValue, n + 1))
    else Ok(before.value + [Assignment(n + 1, c.value.0, c.value.1)])
  }

  predicate Agree(check: Check, b: Binding, c: Binding) {
    check(b).Ok? && check(c).Ok? && (check(b).value.0 == check(c).value.0 ==> check(b).value.1 == check(c).value.1)
  }

  /** Every binding passes on its own and no two disagree. */
  ghost predicate Agreeable(check: Check, bindings: seq<Binding>) {
    forall b, c :: b in bindings && c in bindings ==> Agree(check, b, c)
  }

  /** The i-th assignment is the i-th binding's. */
  ghost predicate Mirrors(check: Check, bindings: seq<Binding>, made: seq<Assignment>) {
    && |made| == |bindings|
    && forall i :: 0 <= i < |made| ==> made[i].index == i + 1 && check(bindings[i]) == Ok((made[i].slot, made[i].value))
  }

  /** Assignments of the same object agree. */
  ghost predicate Consistent(made: seq<Assignment>) {
    forall i, j :: 0 <= i < |made| && 0 <= j < |made| && made[i].slot == made[j].slot ==> made[i].value == made[j].value
  }

  lemma OneMore(made: seq<Assignment>, a: Assignment)
    requires Consistent(made)
    ensures Consistent(made + [a]) <==> forall i :: 0 <= i < |made| ==> !Differs(made[i], a.slot, a.value)
  {
    var more := made + [a];
    assert more[|made|] == a;
    assert forall i :: 0 <= i < |made| ==> more[i] == made[i];
  }

  /** A failure names a binding of the request; without one, each assignment mirrors its binding and all agree. */
  lemma {:induction false} AssignedIsMirror(check: Check, bindings: seq<Binding>)
    ensures var r := Assigned(check, bindings);
            && (r.Ok? ==> Mirrors(check, bindings, r.value) && Consistent(r.value))
            && (r.Err? ==> 1 <= r.error.index <= |bindings|)
  {
    if bindings != [] {
      var n := |bindings| - 1;
      AssignedIsMirror(check, bindings[..n]);
      var r := Assigned(check, bindings);
      if r.Ok? {
        OneMore(r.value[..n], r.value[n]);
        assert r.value == r.value[..n] + [r.value[n]];
      }
    }
  }

  lemma MirrorAgrees(check: Check, bindings: seq<Binding>, made: seq<Assignment>)
    requires Mirrors(check, bindings, made) && Consistent(made)
    ensures Agreeable(check, bindings)
  {
    forall b, c | b in bindings && c in bindings ensures Agree(check, b, c) {
      var i :| 0 <= i < |bindings| && bindings[i] == b;
      var j :| 0 <= j < |bindings| && bindings[j] == c;
      assert made[i].slot == made[j].slot ==> made[i].value == made[j].value;
    }
  }

  lemma {:induction false} AgreeableIsAssigned(check: Check, bindings: seq<Binding>)
    requires Agreeable(check, bindings)
    ensures Assigned(check, bindings).Ok?
  {
    if bindings != [] {
      var n := |bindings| - 1;
      AgreeableIsAssigned(check, bindings[..n]);
      AssignedIsMirror(check, bindings[..n]);
      var before := Assigned(check, bindings[..n]).value;
      assert Agree(check, bindings[n], bindings[n]);
      var c := check(bindings[n]).value;
      forall i | 0 <= i < n ensures !Differs(before[i], c.0, c.1) {
        assert Agree(check, bindings[i], bindings[n]);
      }
    }
  }

  // ---------------------------------------------------------------------------------------------
  // The request as a map from objects to values
  // ---------------------------------------------------------------------------------------------

  /** What the assignments say, whatever their order. */
  ghost predicate Says(made: seq<Assignment>, ops: map<Slot, Value>) {
    && (forall i :: 0 <= i < |made| ==> made[i].slot in ops && ops[made[i].slot] == made[i].value)
    && (forall s :: s in ops ==> exists i :: 0 <= i < |made| && made[i].slot == s)
  }

  function OpsOf(made: seq<Assignment>): map<Slot, Value> {
    if made == [] then map[] else OpsOf(made[..|made| - 1])[made[|made| - 1].slot := made[|made| - 1].value]
  }

  lemma {:induction false} OpsSay(made: seq<Assignment>)
    requires Consistent(made)
    ensures Says(made, OpsOf(made))
  {
    if made != [] {
      var n := |made| - 1;
      OpsSay(made[..n]);
      var ops := OpsOf(made);
      forall i | 0 <= i < |made| ensures made[i].slot in ops && ops[made[i].slot] == made[i].value {
        if i < n { assert made[..n][i] == made[i]; }
      }
      forall s | s in ops ensures exists i :: 0 <= i < |made| && made[i].slot == s {
        if s != made[n].slot {
          var i :| 0 <= i < n && made[..n][i].slot == s;
          assert made[i].slot == s;
        }
      }
    }
  }

  lemma SaidIn(check: Check, a: seq<Binding>, b: seq<Binding>, made: seq<Assignment>, again: seq<Assignment>)
    requires forall x :: x in a ==> x in b
    requires Mirrors(check, a, made) && Says(made, OpsOf(made))
    requires Mirrors(check, b, again) && Says(again, OpsOf(again))
    ensures forall s :: s in OpsOf(made) ==> s in OpsOf(again) && OpsOf(again)[s] == OpsOf(made)[s]
  {
    forall s | s in OpsOf(made) ensures s in OpsOf(again) && OpsOf(again)[s] == OpsOf(made)[s] {
      var i :| 0 <= i < |made| && made[i].slot == s;
      assert a[i] in b;
      var j :| 0 <= j < |b| && b[j] == a[i];
      assert again[j].slot == s && again[j].value == made[i].value;
    }
  }

  /** The same bindings in another order, or repeated, say the same. */
  lemma SameBindingsSaySame(check: Check, a: seq<Binding>, b: seq<Binding>, made: seq<Assignment>, again: seq<Assignment>)
    requires forall x :: x in a <==> x in b
    requires Mirrors(check, a, made) && Consistent(made)
    requires Mirrors(check, b, again) && Consistent(again)
    ensures OpsOf(made) == OpsOf(again)
  {
    OpsSay(made);
    OpsSay(again);
    SaidIn(check, a, b, made, again);
    SaidIn(check, b, a, again, made);
  }

  // ---------------------------------------------------------------------------------------------
  // Row intent
  // ---------------------------------------------------------------------------------------------

  predicate CommandAt(row: RowReader, bindings: seq<Binding>, i: int, v: int) {
    0 <= i < |bindings| && row(bindings[i]) == Some(v)
  }

  lemma {:induction false} CommandsCover(row: RowReader, bindings: seq<Binding>, v: int)
    ensures v in Commands(row, bindings) <==> exists i :: CommandAt(row, bindings, i, v)
    ensures v in Commands(row, bindings) ==>
              exists i :: CommandAt(row, bindings, i, v) && RowCommand(bindings[i]) == Commands(row, bindings)[v]
  {
    if bindings != [] {
      var n := |bindings| - 1;
      var rest := bindings[..n];
      CommandsCover(row, rest, v);
      if v in Commands(row, rest) {
        var i :| CommandAt(row, rest, i, v) && RowCommand(rest[i]) == Commands(row, rest)[v];
        assert CommandAt(row, bindings, i, v) && bindings[i] == rest[i];
      } else if row(bindings[n]) == Some(v) {
        assert CommandAt(row, bindings, n, v);
      } else {
        forall i ensures !CommandAt(row, bindings, i, v) {
          if 0 <= i < n { assert !CommandAt(row, rest, i, v); }
        }
      }
    }
  }

  /** A row binding that passes assigns its command to its row, and nothing else assigns rows. */
  predicate RowFaithful(check: Check, row: RowReader, b: Binding) {
    check(b).Ok? ==>
      var (slot, v) := check(b).value;
      && (slot.kind.RowStatus? <==> row(b).Some?)
      && (row(b).Some? ==> slot.key == row(b).value && v.Number? && RowCommand(b) == Some(v.n))
  }

  lemma CheckerFaithful(vids: set<VlanId>, d: Directory, includes: seq<Oid>, intent: Intent, b: Binding)
    ensures RowFaithful(Checker(vids, d, includes, intent), Row(), b)
  {
    if Checked(vids, d, includes, intent, b).Ok? {
      var k := Writable(b.name).value;
      assert b.name[|Base(k)|..][0] == b.name[|Base(k)|];
    }
  }

  function RowsAt(ops: map<Slot, Value>, n: int): set<int> {
    set s | s in ops && s.kind.RowStatus? && ops[s] == Number(n) :: s.key
  }

  predicate Commanded(ops: map<Slot, Value>, v: int, n: int) {
    Slot(RowStatus, v) in ops && ops[Slot(RowStatus, v)] == Number(n)
  }

  lemma RowsAtAre(ops: map<Slot, Value>, n: int, v: int)
    ensures v in RowsAt(ops, n) <==> Commanded(ops, v, n)
  {
    if v in RowsAt(ops, n) {
      var s :| s in ops && s.kind.RowStatus? && ops[s] == Number(n) && s.key == v;
      assert s == Slot(RowStatus, v);
    }
  }

  lemma RowsAre(ops: map<Slot, Value>, c: map<int, Option<int>>, n: int)
    requires forall v: int :: v in c && c[v] == Some(n) <==> Commanded(ops, v, n)
    ensures (set v | v in c && c[v] == Some(n)) == RowsAt(ops, n)
  {
    forall v: int ensures v in RowsAt(ops, n) <==> v in c && c[v] == Some(n) {
      RowsAtAre(ops, n, v);
      assert v in c && c[v] == Some(n) <==> Commanded(ops, v, n);
    }
  }

  lemma CommandIsSaid(check: Check, row: RowReader, bindings: seq<Binding>, made: seq<Assignment>, v: int, n: int)
    requires forall b :: RowFaithful(check, row, b)
    requires Mirrors(check, bindings, made) && Consistent(made) && Says(made, OpsOf(made))
    ensures v in Commands(row, bindings) && Commands(row, bindings)[v] == Some(n) <==> Commanded(OpsOf(made), v, n)
  {
    if Commanded(OpsOf(made), v, n) {
      var i :| 0 <= i < |made| && made[i].slot == Slot(RowStatus, v);
      assert RowFaithful(check, row, bindings[i]);
      assert CommandAt(row, bindings, i, v);
    }
    CommandsCover(row, bindings, v);
    if v in Commands(row, bindings) {
      var i :| CommandAt(row, bindings, i, v) && RowCommand(bindings[i]) == Commands(row, bindings)[v];
      assert RowFaithful(check, row, bindings[i]);
      assert made[i].slot == Slot(RowStatus, v);
    }
  }

  /** For an accepted request the intent taken from first occurrences is what all of its row bindings say. */
  lemma IntentIsSaid(check: Check, row: RowReader, bindings: seq<Binding>, made: seq<Assignment>)
    requires forall b :: RowFaithful(check, row, b)
    requires Mirrors(check, bindings, made) && Consistent(made)
    ensures IntentOf(row, bindings) == Intent(RowsAt(OpsOf(made), 4), RowsAt(OpsOf(made), 6))
  {
    OpsSay(made);
    var c := Commands(row, bindings);
    forall v: int, n: int ensures v in c && c[v] == Some(n) <==> Commanded(OpsOf(made), v, n) {
      CommandIsSaid(check, row, bindings, made, v, n);
    }
    RowsAre(OpsOf(made), c, 4);
    RowsAre(OpsOf(made), c, 6);
  }

  lemma SomeCommandAt(row: RowReader, a: seq<Binding>, b: seq<Binding>, i: int, v: int) returns (j: int)
    requires (forall x :: x in a ==> x in b) && CommandAt(row, a, i, v)
    ensures CommandAt(row, b, j, v) && b[j] == a[i]
  {
    assert a[i] in b;
    j :| 0 <= j < |b| && b[j] == a[i];
  }

  lemma SameCommand(check: Check, row: RowReader, a: seq<Binding>, b: seq<Binding>, made: seq<Assignment>, v: int)
    requires forall x :: RowFaithful(check, row, x)
    requires forall x :: x in a <==> x in b
    requires Mirrors(check, a, made) && Consistent(made)
    ensures v in Commands(row, a) <==> v in Commands(row, b)
    ensures v in Commands(row, a) ==> Commands(row, a)[v] == Commands(row, b)[v]
  {
    CommandsCover(row, a, v);
    CommandsCover(row, b, v);
    if v in Commands(row, a) {
      var i :| CommandAt(row, a, i, v) && RowCommand(a[i]) == Commands(row, a)[v];
      var m := SomeCommandAt(row, a, b, i, v);
      var j :| CommandAt(row, b, j, v) && RowCommand(b[j]) == Commands(row, b)[v];
      var k := SomeCommandAt(row, b, a, j, v);
      assert RowFaithful(check, row, a[i]) && RowFaithful(check, row, a[k]);
      assert made[i].slot == made[k].slot;
    } else if v in Commands(row, b) {
      var j :| CommandAt(row, b, j, v) && RowCommand(b[j]) == Commands(row, b)[v];
      var k := SomeCommandAt(row, b, a, j, v);
    }
  }

  /** The intent of a request depends on its bindings only, when all of its row bindings agree. */
  lemma SameBindingsSameIntent(check: Check, row: RowReader, a: seq<Binding>, b: seq<Binding>, made: seq<Assignment>)
    requires forall x :: RowFaithful(check, row, x)
    requires forall x :: x in a <==> x in b
    requires Mirrors(check, a, made) && Consistent(made)
    ensures IntentOf(row, b) == IntentOf(row, a)
  {
    forall v
      ensures v in Commands(row, a) <==> v in Commands(row, b)
      ensures v in Commands(row, a) ==> Commands(row, a)[v] == Commands(row, b)[v]
    {
      SameCommand(check, row, a, b, made, v);
    }
    assert Commands(row, a) == Commands(row, b);
  }

  /** What a request assigns, with its own row intent. */
  function Request(vids: set<VlanId>, d: Directory, includes: seq<Oid>, bindings: seq<Binding>): Result<seq<Assignment>, SetFailure> {
    Assigned(Checker(vids, d, includes, IntentOf(Row(), bindings)), bindings)
  }

  /** Whatever the order of its bindings, a request is assigned or not, and says the same. */
  lemma OrderIrrelevant(vids: set<VlanId>, d: Directory, includes: seq<Oid>, a: seq<Binding>, b: seq<Binding>)
    requires (forall x :: x in a <==> x in b) && Request(vids, d, includes, a).Ok?
    ensures IntentOf(Row(), b) == IntentOf(Row(), a) && Request(vids, d, includes, b).Ok?
    ensures OpsOf(Request(vids, d, includes, b).value) == OpsOf(Request(vids, d, includes, a).value)
  {
    var check := Checker(vids, d, includes, IntentOf(Row(), a));
    forall x ensures RowFaithful(check, Row(), x) { CheckerFaithful(vids, d, includes, IntentOf(Row(), a), x); }
    SameRequest(check, Row(), a, b);
  }

  lemma SameRequest(check: Check, row: RowReader, a: seq<Binding>, b: seq<Binding>)
    requires forall x :: RowFaithful(check, row, x)
    requires (forall x :: x in a <==> x in b) && Assigned(check, a).Ok?
    ensures IntentOf(row, b) == IntentOf(row, a) && Assigned(check, b).Ok?
    ensures OpsOf(Assigned(check, b).value) == OpsOf(Assigned(check, a).value)
  {
    var made := Assigned(check, a).value;
    AssignedIsMirror(check, a);
    SameBindingsSameIntent(check, row, a, b, made);
    MirrorAgrees(check, a, made);
    AgreeableIsAssigned(check, b);
    AssignedIsMirror(check, b);
    SameBindingsSaySame(check, a, b, made, Assigned(check, b).value);
  }
}
