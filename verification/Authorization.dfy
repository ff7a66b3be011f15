/** Reading the authorization out of a validated Access-Accept (section 5 of RFC 2865, section 3.31 of RFC 3580). */
module Authorization {
  import opened Outcomes
  import opened Codec
  import opened Authenticators
  import P = DynamicPlanner

  datatype Reason =
    | NotAccept | UnsupportedControl | UnsupportedService | UnsupportedVendor | MalformedVendor | MalformedTunnel | AmbiguousTunnel
    | InvalidSessionControl | UnsupportedTermination | InvalidClass | AmbiguousState | UnsupportedTunnel | InvalidVlan | UnusableVlan

  /** What an Access-Accept may say once only: a tunnel attribute once under each tag. */
  datatype Slot = Service | State | Control(kind: int) | Tunnel(tag: nat, kind: int)

  datatype Grant = Grant(vid: int, byRadius: bool, sessionTimeout: Option<nat>, idleTimeout: Option<nat>, termination: nat,
                         classes: seq<Octets>, state: Option<Octets>, interim: Option<nat>, warning: bool, userName: Option<Octets>)

  const UNSUPPORTED := {7, 13, 8, 9, 10, 22, 23, 11, 12, 14, 15, 16, 19, 20, 34, 35, 36, 37, 38, 39, 62, 63, 88, 96, 97, 98, 99, 100,
                        66, 67, 69, 82, 90, 91}
  const MICROSOFT := 311
  const KEYS := {16, 17}
  const ACCEPTED_SERVICE := 2

  // ---------------------------------------------------------------------------------------------
  // One attribute
  // ---------------------------------------------------------------------------------------------

  /** The vendor's own attributes from a position on are key material of the native peer. */
  function VendorFrom(value: Octets, at: nat): Option<Reason>
    requires at <= |value|
    decreases |value| - at
  {
    if at == |value| then None
    else if at + 2 > |value| || value[at + 1] < 2 || at + value[at + 1] > |value| then Some(MalformedVendor)
    else if value[at] !in KEYS then Some(UnsupportedVendor)
    else VendorFrom(value, at + value[at + 1])
  }

  function Vendor(value: Octets): Option<Reason> {
    if |value| < 6 || P.Number(value[..4]) != MICROSOFT then Some(UnsupportedVendor) else VendorFrom(value, 4)
  }

  /** One item of key material: a type, the item's size and the key. */
  ghost predicate KeyItem(item: Octets) {
    |item| >= 2 && item[0] in KEYS && item[1] == |item|
  }

  function Joined(items: seq<Octets>): Octets {
    if items == [] then [] else items[0] + Joined(items[1..])
  }

  ghost predicate KeyItems(items: seq<Octets>) {
    forall i :: 0 <= i < |items| ==> KeyItem(items[i])
  }

  ghost predicate KeyMaterial(tail: Octets) {
    exists items :: KeyItems(items) && Joined(items) == tail
  }

  lemma OneMoreItem(item: Octets, items: seq<Octets>)
    requires KeyItem(item) && KeyItems(items)
    ensures KeyItems([item] + items) && Joined([item] + items) == item + Joined(items)
  {
    assert ([item] + items)[1..] == items;
  }

  predicate StartsWithItem(tail: Octets) {
    |tail| >= 2 && 2 <= tail[1] <= |tail| && tail[0] in KEYS
  }

  /** The first item of some key material is its first item by the size it states. */
  lemma HeadItem(tail: Octets, items: seq<Octets>)
    requires KeyItems(items) && Joined(items) == tail && tail != []
    ensures StartsWithItem(tail) && KeyItems(items[1..]) && Joined(items[1..]) == tail[tail[1]..]
  {
    assert items != [] && tail == items[0] + Joined(items[1..]);
  }

  lemma ItemOff(tail: Octets)
    requires tail != []
    ensures KeyMaterial(tail) ==> StartsWithItem(tail) && KeyMaterial(tail[tail[1]..])
  {
    if items :| KeyItems(items) && Joined(items) == tail { HeadItem(tail, items); }
  }

  lemma ItemOn(tail: Octets)
    requires StartsWithItem(tail) && KeyMaterial(tail[tail[1]..])
    ensures KeyMaterial(tail)
  {
    var rest :| KeyItems(rest) && Joined(rest) == tail[tail[1]..];
    OneMoreItem(tail[..tail[1]], rest);
    assert Joined([tail[..tail[1]]] + rest) == tail;
  }

  lemma {:induction false} VendorFromExactly(value: Octets, at: nat)
    requires at <= |value|
    ensures VendorFrom(value, at).None? <==> KeyMaterial(value[at..])
    decreases |value| - at
  {
    if at == |value| {
      assert KeyItems([]) && Joined([]) == value[at..];
    } else {
      ItemOff(value[at..]);
      if StartsWithItem(value[at..]) {
        var end: nat := at + value[at + 1];
        assert value[end..] == value[at..][value[at + 1]..];
        VendorFromExactly(value, end);
        if KeyMaterial(value[end..]) { ItemOn(value[at..]); }
      }
    }
  }

  /** What is accepted: the vendor's number, and then at least one item of key material and nothing else. */
  lemma VendorExactly(value: Octets)
    ensures Vendor(value).None? <==> |value| >= 6 && P.Number(value[..4]) == MICROSOFT && KeyMaterial(value[4..])
  {
    if |value| >= 4 { VendorFromExactly(value, 4); }
  }

  method CheckVendor(value: Octets) returns (r: Option<Reason>)
    ensures r == Vendor(value)
    ensures r.None? <==> |value| >= 6 && P.Number(value[..4]) == MICROSOFT && KeyMaterial(value[4..])
  {
    VendorExactly(value);
    if |value| < 6 || P.Number(value[..4]) != MICROSOFT {
      return Some(UnsupportedVendor);
    }
    var position := 4;
    while position < |value|
      invariant 4 <= position <= |value| && VendorFrom(value, position) == VendorFrom(value, 4)
    {
      if position + 2 > |value| || value[position + 1] < 2 {
        return Some(MalformedVendor);
      }
      var end := position + value[position + 1];
      if end > |value| {
        return Some(MalformedVendor);
      }
      if value[position] !in KEYS {
        return Some(UnsupportedVendor);
      }
      position := end;
    }
    return None;
  }

  /** What is wrong with an attribute taken alone. */
  function Fault(a: Attribute): Option<Reason> {
    if a.kind in UNSUPPORTED then Some(UnsupportedControl)
    else if a.kind == 6 then if |a.value| != 4 || P.Number(a.value) != ACCEPTED_SERVICE then Some(UnsupportedService) else None
    else if a.kind == 26 then Vendor(a.value)
    else if a.kind in {64, 65} then if |a.value| != 4 || a.value[0] > 31 then Some(MalformedTunnel) else None
    else if a.kind == 81 then if a.value == [] then Some(MalformedTunnel) else None
    else if a.kind in {27, 28, 29} then if |a.value| != 4 then Some(InvalidSessionControl) else None
    else if a.kind == 25 then if a.value == [] then Some(InvalidClass) else None
    else if a.kind == 24 then if a.value == [] then Some(AmbiguousState) else None
    else None
  }

  /** Checked after the test that nothing was said twice. */
  function LateFault(a: Attribute): Option<Reason> {
    if a.kind == 29 && P.Number(a.value) > 1 then Some(UnsupportedTermination) else None
  }

  predicate Fine(a: Attribute) {
    Fault(a).None? && LateFault(a).None?
  }

  function SlotOf(a: Attribute): Option<Slot> {
    if a.kind == 6 then Some(Service)
    else if a.kind == 24 then Some(State)
    else if a.kind in {27, 28, 29} then Some(Control(a.kind))
    else if a.kind in {64, 65} && a.value != [] then Some(Tunnel(a.value[0], a.kind))
    else if a.kind == 81 && a.value != [] then Some(Tunnel(if a.value[0] <= 31 then a.value[0] else 0, 81))
    else None
  }

  function Content(a: Attribute): Octets {
    if (a.kind in {64, 65} || (a.kind == 81 && a.value != [] && a.value[0] <= 31)) && a.value != [] then a.value[1..] else a.value
  }

  function Twice(s: Slot): Reason {
    match s
    case Service => UnsupportedService
    case State => AmbiguousState
    case Control(_) => InvalidSessionControl
    case Tunnel(_, _) => AmbiguousTunnel
  }

  // ---------------------------------------------------------------------------------------------
  // All attributes
  // ---------------------------------------------------------------------------------------------

  datatype Notes = Notes(slots: map<Slot, Octets>, classes: seq<Octets>)

  function Noted(n: Notes, a: Attribute): Result<Notes, Reason> {
    if Fault(a).Some? then Err(Fault(a).value) else
    var slot := SlotOf(a);
    if slot.Some? && slot.value in n.slots then Err(Twice(slot.value))
    else if LateFault(a).Some? then Err(LateFault(a).value)
    else
      Ok(Notes(if slot.Some? then n.slots[slot.value := Content(a)] else n.slots,
               if a.kind == 25 then n.classes + [a.value] else n.classes))
  }

  function Scan(attributes: seq<Attribute>): Result<Notes, Reason> {
    if attributes == [] then Ok(Notes(map[], [])) else
    var before := Scan(attributes[..|attributes| - 1]);
    if before.Err? then before else Noted(before.value, attributes[|attributes| - 1])
  }

  function Tags(slots: map<Slot, Octets>): set<nat> {
    set s | s in slots && s.Tunnel? :: s.tag
  }

  /** The VLAN of the one complete tunnel group, or the port's own when there is no tunnel attribute. */
  function VlanOf(slots: map<Slot, Octets>, pvid: int): Result<(int, bool), Reason> {
    var tags := Tags(slots);
    if tags == {} then Ok((pvid, false))
    else if |tags| != 1 then Err(AmbiguousTunnel)
    else
      var tag := TheTag(tags);
      var tt, medium, group := Tunnel(tag, 64), Tunnel(tag, 65), Tunnel(tag, 81);
      if tt !in slots || medium !in slots || group !in slots || P.Number(slots[tt]) != 13 || P.Number(slots[medium]) != 6
      then Err(UnsupportedTunnel)
      else if !P.Digits(slots[group]) then Err(InvalidVlan)
      else Ok((P.Decimal(slots[group]), true))
  }

  lemma OnlyMember(tags: set<nat>, a: nat, b: nat)
    requires |tags| == 1 && a in tags && b in tags
    ensures a == b
  {
    assert |tags - {a}| == 0;
    assert b != a ==> b in tags - {a};
  }

  lemma SomeTag(tags: set<nat>)
    requires tags != {}
    ensures exists t :: t in tags
  {
    var t :| t in tags;
  }

  function TheTag(tags: set<nat>): (t: nat)
    requires tags != {} && |tags| == 1
    ensures t in tags
  {
    SomeTag(tags);
    assert forall a, b :: a in tags && b in tags ==> a == b by {
      forall a, b | a in tags && b in tags ensures a == b { OnlyMember(tags, a, b); }
    }
    var t :| t in tags;
    t
  }

  function Numeric(slots: map<Slot, Octets>, kind: int): Option<nat> {
    if Control(kind) in slots then Some(P.Number(slots[Control(kind)])) else None
  }

  /** The single value of a kind that may be repeated harmlessly. */
  function Sole(attributes: seq<Attribute>, kind: int): Option<Octets> {
    P.Of(attributes, kind).only
  }

  function Interim(attributes: seq<Attribute>): Option<nat> {
    var sole := Sole(attributes, 85);
    if sole.Some? && |sole.value| == 4 && P.Number(sole.value) >= 60 then Some(P.Number(sole.value)) else None
  }

  function Granted(n: Notes, attributes: seq<Attribute>, vid: int, byRadius: bool): Grant {
    Grant(vid, byRadius, Numeric(n.slots, 27), Numeric(n.slots, 28),
          if Control(29) in n.slots then P.Number(n.slots[Control(29)]) else 0,
          n.classes, if State in n.slots then Some(n.slots[State]) else None,
          Interim(attributes), P.Given(attributes, 85) && Interim(attributes).None?,
          var name := Sole(attributes, 1); if name.Some? && name.value != [] then name else None)
  }

  /** `authorization` */
  function Authorized(code: int, attributes: seq<Attribute>, pvid: int, forbidden: set<int>, vlans: set<int>): Result<Grant, Reason> {
    if code != 2 then Err(NotAccept) else
    var notes := Scan(attributes);
    if notes.Err? then Err(notes.error) else
    var vlan := VlanOf(notes.value.slots, pvid);
    if vlan.Err? then Err(vlan.error) else
    var (vid, byRadius) := vlan.value;
    if !(1 <= vid <= 4094) || vid !in vlans || vid in forbidden then Err(UnusableVlan)
    else Ok(Granted(notes.value, attributes, vid, byRadius))
  }

  /** The loop over the attributes */
  method Read(attributes: seq<Attribute>) returns (r: Result<Notes, Reason>)
    ensures r == Scan(attributes)
  {
    var slots: map<Slot, Octets>, classes: seq<Octets> := map[], [];
    for i := 0 to |attributes|
      invariant Scan(attributes[..i]) == Ok(Notes(slots, classes))
      invariant i < |attributes| && Noted(Notes(slots, classes), attributes[i]).Err? ==>
                  Scan(attributes[..i + 1]) == Noted(Notes(slots, classes), attributes[i])
    {
      var a := attributes[i];
      assert attributes[..i + 1][..i] == attributes[..i];
      var next := Noted(Notes(slots, classes), a);
      if next.Err? {
        StaysRefused(attributes, i + 1);
        return next;
      }
      slots, classes := next.value.slots, next.value.classes;
      assert i + 1 < |attributes| ==> attributes[..i + 2][..i + 1] == attributes[..i + 1];
    }
    assert attributes[..|attributes|] == attributes;
    r := Ok(Notes(slots, classes));
  }

  lemma {:induction false} StaysRefused(attributes: seq<Attribute>, k: nat)
    requires k <= |attributes| && Scan(attributes[..k]).Err?
    ensures Scan(attributes) == Scan(attributes[..k])
    decreases |attributes|
  {
    if k == |attributes| {
      assert attributes[..k] == attributes;
    } else {
      var before := attributes[..|attributes| - 1];
      assert before[..k] == attributes[..k];
      StaysRefused(before, k);
    }
  }

  method Authorize(code: int, attributes: seq<Attribute>, pvid: int, forbidden: set<int>, vlans: set<int>) returns (r: Result<Grant, Reason>)
    ensures r == Authorized(code, attributes, pvid, forbidden, vlans)
  {
    if code != 2 {
      return Err(NotAccept);
    }
    var notes := Read(attributes);
    if notes.Err? {
      return Err(notes.error);
    }
    var vlan := VlanOf(notes.value.slots, pvid);
    if vlan.Err? {
      return Err(vlan.error);
    }
    var (vid, byRadius) := vlan.value;
    if !(1 <= vid <= 4094) || vid !in vlans || vid in forbidden {
      return Err(UnusableVlan);
    }
    r := Ok(Granted(notes.value, attributes, vid, byRadius));
  }

  // ---------------------------------------------------------------------------------------------
  // What is accepted, whatever the order
  // ---------------------------------------------------------------------------------------------

  function InSlot(s: Slot): Attribute -> bool {
    (a: Attribute) => SlotOf(a) == Some(s)
  }

  function IsClass(): Attribute -> bool {
    (a: Attribute) => a.kind == 25
  }

  function Contents(attributes: seq<Attribute>): seq<Octets> {
    seq(|attributes|, i requires 0 <= i < |attributes| => attributes[i].value)
  }

  /** The notes hold exactly what the attributes say. */
  ghost predicate Says(attributes: seq<Attribute>, n: Notes) {
    && (forall s :: s in n.slots <==> Select(attributes, InSlot(s)) != [])
    && (forall s :: s in n.slots ==> n.slots[s] == Content(Select(attributes, InSlot(s))[0]))
    && n.classes == Contents(Select(attributes, IsClass()))
  }

  /** Every attribute is well formed by itself, and nothing is said twice. */
  ghost predicate Acceptable(attributes: seq<Attribute>) {
    && (forall i :: 0 <= i < |attributes| ==> Fine(attributes[i]))
    && (forall s :: |Select(attributes, InSlot(s))| <= 1)
  }

  lemma SelectLast(before: seq<Attribute>, a: Attribute, keep: Attribute -> bool)
    ensures Select(before + [a], keep) == if keep(a) then Select(before, keep) + [a] else Select(before, keep)
  {
    SelectAppend(before, [a], keep);
    SelectOne(a, keep);
    assert Select(before, keep) + [] == Select(before, keep);
  }

  lemma SlotNoted(before: seq<Attribute>, n: Notes, a: Attribute, s: Slot)
    requires s in n.slots <==> Select(before, InSlot(s)) != []
    requires s in n.slots ==> n.slots[s] == Content(Select(before, InSlot(s))[0])
    requires Noted(n, a).Ok?
    ensures var m := Noted(n, a).value;
            && (s in m.slots <==> Select(before + [a], InSlot(s)) != [])
            && (s in m.slots ==> m.slots[s] == Content(Select(before + [a], InSlot(s))[0]))
  {
    SelectLast(before, a, InSlot(s));
  }

  lemma NotedSays(before: seq<Attribute>, n: Notes, a: Attribute)
    requires Says(before, n) && Noted(n, a).Ok?
    ensures Says(before + [a], Noted(n, a).value)
  {
    forall s { SlotNoted(before, n, a, s); }
    SelectLast(before, a, IsClass());
  }

  lemma NotedAcceptable(before: seq<Attribute>, a: Attribute)
    requires Acceptable(before)
    ensures Acceptable(before + [a]) <==>
            Fine(a) && (SlotOf(a).Some? ==> Select(before, InSlot(SlotOf(a).value)) == [])
  {
    var all := before + [a];
    forall s ensures Select(all, InSlot(s)) == if InSlot(s)(a) then Select(before, InSlot(s)) + [a] else Select(before, InSlot(s)) {
      SelectLast(before, a, InSlot(s));
    }
    assert all[|before|] == a && forall i :: 0 <= i < |before| ==> all[i] == before[i];
  }

  lemma PrefixAcceptable(before: seq<Attribute>, a: Attribute)
    requires !Acceptable(before)
    ensures !Acceptable(before + [a])
  {
    var all := before + [a];
    assert forall i :: 0 <= i < |before| ==> all[i] == before[i];
    forall s ensures |Select(all, InSlot(s))| >= |Select(before, InSlot(s))| {
      SelectLast(before, a, InSlot(s));
    }
  }

  /** Reading one more acceptable attribute. */
  lemma NotedExactly(before: seq<Attribute>, n: Notes, a: Attribute)
    requires Acceptable(before) && Says(before, n)
    ensures Noted(n, a).Ok? <==> Acceptable(before + [a])
    ensures Noted(n, a).Ok? ==> Says(before + [a], Noted(n, a).value)
  {
    var slot := SlotOf(a);
    assert slot.Some? ==> (slot.value in n.slots <==> Select(before, InSlot(slot.value)) != []);
    NotedAcceptable(before, a);
    if Noted(n, a).Ok? { NotedSays(before, n, a); }
  }

  /** Reading succeeds exactly on acceptable attributes, and then notes what they say. */
  lemma {:induction false} ScanExactly(attributes: seq<Attribute>)
    ensures Scan(attributes).Ok? <==> Acceptable(attributes)
    ensures Scan(attributes).Ok? ==> Says(attributes, Scan(attributes).value)
  {
    if attributes == [] {
      assert forall s :: Select(attributes, InSlot(s)) == [];
    } else {
      var before, a := attributes[..|attributes| - 1], attributes[|attributes| - 1];
      ScanExactly(before);
      assert attributes == before + [a];
      if Acceptable(before) {
        NotedExactly(before, Scan(before).value, a);
      } else {
        PrefixAcceptable(before, a);
      }
    }
  }

  // ---------------------------------------------------------------------------------------------
  // Order of attributes
  // ---------------------------------------------------------------------------------------------

  lemma {:induction false} SelectCounts(values: seq<Attribute>, keep: Attribute -> bool, x: Attribute)
    ensures multiset(Select(values, keep))[x] == if keep(x) then multiset(values)[x] else 0
  {
    if values != [] {
      SelectCounts(values[1..], keep, x);
      assert values == [values[0]] + values[1..];
    }
  }

  lemma SameSize(a: seq<Attribute>, b: seq<Attribute>)
    requires multiset(a) == multiset(b)
    ensures |a| == |b|
  {
    assert |multiset(a)| == |a| && |multiset(b)| == |b|;
  }

  lemma SelectPermuted(a: seq<Attribute>, b: seq<Attribute>, keep: Attribute -> bool)
    requires multiset(a) == multiset(b)
    ensures multiset(Select(a, keep)) == multiset(Select(b, keep)) && |Select(a, keep)| == |Select(b, keep)|
  {
    var p, q := multiset(Select(a, keep)), multiset(Select(b, keep));
    forall x ensures p[x] == q[x] {
      SelectCounts(a, keep, x);
      SelectCounts(b, keep, x);
    }
    assert p == q;
    SameSize(Select(a, keep), Select(b, keep));
  }

  lemma SoleSame(a: seq<Attribute>, b: seq<Attribute>)
    requires multiset(a) == multiset(b) && |a| == 1 && |b| == 1
    ensures a[0] == b[0]
  {
    assert a[0] in multiset(b);
  }

  lemma AcceptablePermuted(a: seq<Attribute>, b: seq<Attribute>)
    requires multiset(a) == multiset(b) && Acceptable(a)
    ensures Acceptable(b)
  {
    forall i | 0 <= i < |b| ensures Fine(b[i]) {
      assert b[i] in multiset(a);
    }
    forall s ensures |Select(b, InSlot(s))| <= 1 { SelectPermuted(a, b, InSlot(s)); }
  }

  lemma SlotsPermuted(a: seq<Attribute>, b: seq<Attribute>, m: Notes, n: Notes)
    requires multiset(a) == multiset(b) && Acceptable(a) && Says(a, m) && Says(b, n)
    ensures m.slots == n.slots
  {
    forall s ensures (s in m.slots <==> s in n.slots) && (s in m.slots ==> m.slots[s] == n.slots[s]) {
      SelectPermuted(a, b, InSlot(s));
      if s in m.slots {
        assert |Select(a, InSlot(s))| == 1;
        SoleSame(Select(a, InSlot(s)), Select(b, InSlot(s)));
      }
    }
  }

  lemma SameGranted(a: seq<Attribute>, b: seq<Attribute>, m: Notes, n: Notes, vid: int, byRadius: bool)
    requires multiset(a) == multiset(b) && m.slots == n.slots
    ensures Granted(m, a, vid, byRadius).(classes := []) == Granted(n, b, vid, byRadius).(classes := [])
  {
    P.SameValues(a, b, 85);
    P.SameValues(a, b, 1);
  }

  lemma SameScan(a: seq<Attribute>, b: seq<Attribute>)
    requires multiset(a) == multiset(b)
    ensures Scan(a).Ok? <==> Scan(b).Ok?
    ensures Scan(a).Ok? && Scan(b).Ok? ==> Scan(a).value.slots == Scan(b).value.slots
  {
    ScanExactly(a);
    ScanExactly(b);
    if Acceptable(a) { AcceptablePermuted(a, b); }
    if Acceptable(b) { AcceptablePermuted(b, a); }
    if Acceptable(a) { SlotsPermuted(a, b, Scan(a).value, Scan(b).value); }
  }

  /** Classes aside, which keep their order, the grant does not depend on the order of the attributes; neither does its being given. */
  lemma GrantOrderIrrelevant(code: int, a: seq<Attribute>, b: seq<Attribute>, pvid: int, forbidden: set<int>, vlans: set<int>)
    requires multiset(a) == multiset(b)
    ensures Authorized(code, a, pvid, forbidden, vlans).Ok? <==> Authorized(code, b, pvid, forbidden, vlans).Ok?
    ensures Authorized(code, a, pvid, forbidden, vlans).Ok? ==>
              var q, r := Authorized(code, a, pvid, forbidden, vlans).value, Authorized(code, b, pvid, forbidden, vlans).value;
              q.(classes := []) == r.(classes := [])
  {
    SameScan(a, b);
    if Authorized(code, a, pvid, forbidden, vlans).Ok? {
      var (vid, byRadius) := VlanOf(Scan(a).value.slots, pvid).value;
      SameGranted(a, b, Scan(a).value, Scan(b).value, vid, byRadius);
    }
  }

  predicate Usable(slots: map<Slot, Octets>, pvid: int, forbidden: set<int>, vlans: set<int>) {
    VlanOf(slots, pvid).Ok? && var vid := VlanOf(slots, pvid).value.0; 1 <= vid <= 4094 && vid in vlans && vid !in forbidden
  }

  /** A grant is given exactly when nothing is malformed or said twice and the VLAN is usable; it then names that VLAN. */
  lemma GrantedExactly(code: int, attributes: seq<Attribute>, n: Notes, pvid: int, forbidden: set<int>, vlans: set<int>)
    requires Acceptable(attributes) ==> Says(attributes, n)
    ensures var r := Authorized(code, attributes, pvid, forbidden, vlans);
            && (r.Ok? <==> code == 2 && Acceptable(attributes) && Usable(n.slots, pvid, forbidden, vlans))
            && (r.Ok? ==> (r.value.vid, r.value.byRadius) == VlanOf(n.slots, pvid).value && r.value.classes == n.classes)
  {
    ScanExactly(attributes);
    if Acceptable(attributes) {
      SlotsPermuted(attributes, attributes, Scan(attributes).value, n);
    }
  }
}
