/** What a projection of a published state shows: ordinary objects, and the current-VLAN rows of one time cutoff. */
module MibView {
  import opened Outcomes
  import opened Names

  datatype Syntax = Integer32 | Gauge32 | Counter32 | Counter64 | TimeTicks | OctetString | ObjectIdentifier

  datatype Payload = Quantity(n: int) | Octets(b: Bytes) | Reference(name: Oid)

  /** A value before its wire object is built, and the object built from it. */
  datatype Raw = Raw(syntax: Syntax, payload: Payload)
  datatype Value = Value(syntax: Syntax, payload: Payload)

  function Built(raw: Raw): Value {
    Value(raw.syntax, raw.payload)
  }

  datatype Entry<V> = Entry(name: Oid, value: V)
  datatype Scalar = Scalar(base: Oid, suffix: Oid, raw: Raw)
  datatype Cell = Cell(column: nat, raw: Raw)
  datatype Row = Row(index: Oid, cells: seq<Cell>)
  datatype Table = Table(prefix: Oid, columns: set<nat>, rows: seq<Row>)
  datatype Vlan = Vlan(vid: nat, created: nat, changed: nat, fdbId: nat, members: Bytes, untagged: Bytes)

  /** The published state as one request sees it: its view's subtrees, its objects, and its clock. */
  datatype View = View(includes: seq<Oid>, scalars: seq<Scalar>, tables: seq<Table>, vlans: seq<Vlan>, ticks: nat, wrapped: bool)

  datatype Answer = Found(name: Oid, value: Value) | NoSuchObject(name: Oid) | NoSuchInstance(name: Oid) | EndOfMibView(name: Oid)

  /** dot1qVlanCurrentTable, whose rows depend on the time cutoff in the requested name */
  const CURRENT: Oid := [1, 3, 6, 1, 2, 1, 17, 7, 1, 4, 2, 1]

  // ---------------------------------------------------------------------------------------------
  // Access
  // ---------------------------------------------------------------------------------------------

  predicate Allowed(includes: seq<Oid>, name: Oid) {
    exists i :: 0 <= i < |includes| && includes[i] <= name
  }

  predicate Overlaps(includes: seq<Oid>, prefix: Oid) {
    exists i :: 0 <= i < |includes| && (includes[i] <= prefix || prefix <= includes[i])
  }

  lemma AllowedOverlaps(includes: seq<Oid>, prefix: Oid, name: Oid)
    requires Allowed(includes, name) && prefix <= name
    ensures Overlaps(includes, prefix)
  {
    var i :| 0 <= i < |includes| && includes[i] <= name;
    Comparable(includes[i], prefix, name);
  }

  // ---------------------------------------------------------------------------------------------
  // Writing entries into a dictionary
  // ---------------------------------------------------------------------------------------------

  function Fold<V>(m: map<Oid, V>, includes: seq<Oid>, es: seq<Entry<V>>): map<Oid, V> {
    if es == [] then m else
    var e := es[|es| - 1];
    var before := Fold(m, includes, es[..|es| - 1]);
    if Allowed(includes, e.name) then before[e.name := e.value] else before
  }

  function NamesOf<V>(includes: seq<Oid>, es: seq<Entry<V>>): seq<Oid> {
    if es == [] then [] else
    var e := es[|es| - 1];
    var before := NamesOf(includes, es[..|es| - 1]);
    if Allowed(includes, e.name) then before + [e.name] else before
  }

  lemma {:induction false} FoldAppend<V>(m: map<Oid, V>, includes: seq<Oid>, a: seq<Entry<V>>, b: seq<Entry<V>>)
    ensures Fold(m, includes, a + b) == Fold(Fold(m, includes, a), includes, b)
    ensures NamesOf(includes, a + b) == NamesOf(includes, a) + NamesOf(includes, b)
  {
    if b == [] {
      assert a + b == a;
    } else {
      assert (a + b)[..|a + b| - 1] == a + b[..|b| - 1];
      FoldAppend(m, includes, a, b[..|b| - 1]);
    }
  }

  lemma {:induction false} FoldOver<V>(m: map<Oid, V>, includes: seq<Oid>, es: seq<Entry<V>>)
    ensures Fold(m, includes, es) == m + Fold(map[], includes, es)
  {
    if es != [] { FoldOver(m, includes, es[..|es| - 1]); }
  }

  /** Exactly the allowed names are written, each with the value of some entry of that name. */
  lemma {:induction false} FoldMembers<V>(includes: seq<Oid>, es: seq<Entry<V>>, n: Oid)
    ensures n in Fold(map[], includes, es) <==> n in NamesOf(includes, es)
    ensures n in Fold(map[], includes, es) ==> Allowed(includes, n) && exists i :: 0 <= i < |es| && es[i].name == n
  {
    if es != [] {
      var before := es[..|es| - 1];
      FoldMembers(includes, before, n);
      if n in Fold(map[], includes, before) {
        var i :| 0 <= i < |before| && before[i].name == n;
        assert es[i].name == n;
      }
    }
  }

  /** A name whose entries all carry one value is written with that value. */
  lemma {:induction false} FoldAgrees<V>(includes: seq<Oid>, es: seq<Entry<V>>, n: Oid, x: V)
    requires Allowed(includes, n) && Entry(n, x) in es
    requires forall e :: e in es && e.name == n ==> e.value == x
    ensures n in Fold(map[], includes, es) && Fold(map[], includes, es)[n] == x
  {
    var last := |es| - 1;
    if es[last].name != n {
      assert Entry(n, x) in es[..last];
      FoldAgrees(includes, es[..last], n, x);
    }
  }

  // ---------------------------------------------------------------------------------------------
  // Ordinary objects
  // ---------------------------------------------------------------------------------------------

  function ScalarEntries(scalars: seq<Scalar>): seq<Entry<Raw>> {
    seq(|scalars|, i requires 0 <= i < |scalars| => Entry(scalars[i].base + scalars[i].suffix, scalars[i].raw))
  }

  function Column(prefix: Oid, column: nat): Oid {
    prefix + [column]
  }

  function CellEntry(prefix: Oid, index: Oid, cell: Cell): Entry<Raw> {
    Entry(Column(prefix, cell.column) + index, cell.raw)
  }

  function RowEntries(prefix: Oid, row: Row): seq<Entry<Raw>> {
    seq(|row.cells|, i requires 0 <= i < |row.cells| => CellEntry(prefix, row.index, row.cells[i]))
  }

  function TableEntries(prefix: Oid, rows: seq<Row>): seq<Entry<Raw>> {
    if rows == [] then [] else TableEntries(prefix, rows[..|rows| - 1]) + RowEntries(prefix, rows[|rows| - 1])
  }

  function ScalarMap(v: View): map<Oid, Raw> {
    Fold(map[], v.includes, ScalarEntries(v.scalars))
  }

  function TableMap(includes: seq<Oid>, t: Table): map<Oid, Raw> {
    Fold(map[], includes, TableEntries(t.prefix, t.rows))
  }

  /** The scalars and all rows of some tables, each enumerated in full. */
  function Enumerated(v: View, tables: seq<Table>): map<Oid, Raw> {
    if tables == [] then ScalarMap(v)
    else Enumerated(v, tables[..|tables| - 1]) + TableMap(v.includes, tables[|tables| - 1])
  }

  function Ordinary(v: View): map<Oid, Raw> {
    Enumerated(v, v.tables)
  }

  // ---------------------------------------------------------------------------------------------
  // Current-VLAN rows
  // ---------------------------------------------------------------------------------------------

  function Cutoff(name: Oid): nat {
    if CURRENT <= name && |name| >= |CURRENT| + 2 then name[|CURRENT| + 1] else 0
  }

  /** The row's creation time; a wrapped clock resets both of its timestamps. */
  function Created(v: View, vlan: Vlan): nat {
    if v.wrapped then 0 else vlan.created
  }

  predicate Selected(v: View, cutoff: nat, vlan: Vlan) {
    cutoff == 0 || (cutoff <= v.ticks && cutoff <= (if v.wrapped then 0 else vlan.changed))
  }

  function CurrentName(column: nat, cutoff: nat, vid: nat): Oid {
    CURRENT + [column, cutoff, vid]
  }

  function CurrentColumns(v: View, cutoff: nat, vlan: Vlan): seq<Entry<Value>> {
    [Entry(CurrentName(3, cutoff, vlan.vid), Value(Gauge32, Quantity(vlan.fdbId))),
     Entry(CurrentName(4, cutoff, vlan.vid), Value(OctetString, Octets(vlan.members))),
     Entry(CurrentName(5, cutoff, vlan.vid), Value(OctetString, Octets(vlan.untagged))),
     Entry(CurrentName(6, cutoff, vlan.vid), Value(Integer32, Quantity(2))),
     Entry(CurrentName(7, cutoff, vlan.vid), Value(TimeTicks, Quantity(Created(v, vlan))))]
  }

  function CurrentEntries(v: View, cutoff: nat, vlans: seq<Vlan>): seq<Entry<Value>> {
    if vlans == [] then [] else
    var vlan := vlans[|vlans| - 1];
    CurrentEntries(v, cutoff, vlans[..|vlans| - 1]) + (if Selected(v, cutoff, vlan) then CurrentColumns(v, cutoff, vlan) else [])
  }

  function CurrentMap(v: View, cutoff: nat): map<Oid, Value> {
    Fold(map[], v.includes, CurrentEntries(v, cutoff, v.vlans))
  }

  /** The plain enumeration that every request is judged by. */
  function Visible(v: View, cutoff: nat): map<Oid, Value> {
    var ordinary := Ordinary(v);
    (map n | n in ordinary :: Built(ordinary[n])) + CurrentMap(v, cutoff)
  }

  // ---------------------------------------------------------------------------------------------
  // The shape of a view
  // ---------------------------------------------------------------------------------------------

  function Prefixes(tables: seq<Table>): (r: seq<Oid>)
    ensures |r| == |tables| && forall i :: 0 <= i < |r| ==> r[i] == tables[i].prefix
  {
    seq(|tables|, i requires 0 <= i < |tables| => tables[i].prefix)
  }

  function Families(v: View): seq<Oid> {
    Prefixes(v.tables) + [CURRENT]
  }

  /** No name of the list extends another. */
  ghost predicate Antichain(names: seq<Oid>) {
    forall i, j :: 0 <= i < |names| && 0 <= j < |names| && i != j ==> !(names[i] <= names[j])
  }

  ghost predicate Clear(names: seq<Oid>, name: Oid) {
    forall i :: 0 <= i < |names| ==> !(names[i] <= name)
  }

  ghost predicate Declared(t: Table) {
    t.prefix != [] &&
    forall i, j :: 0 <= i < |t.rows| && 0 <= j < |t.rows[i].cells| ==> t.rows[i].cells[j].column in t.columns
  }

  /** Registered families are disjoint, rows fill declared columns only, and no scalar lies inside a family. */
  ghost predicate Wellformed(v: View) {
    && Antichain(Families(v))
    && (forall i :: 0 <= i < |v.tables| ==> Declared(v.tables[i]))
    && (forall i :: 0 <= i < |v.scalars| ==> v.scalars[i].base != [] && Clear(Families(v), v.scalars[i].base + v.scalars[i].suffix))
  }

  // ---------------------------------------------------------------------------------------------
  // Where visible names come from
  // ---------------------------------------------------------------------------------------------

  ghost predicate EntryOfCell(e: Entry<Raw>, prefix: Oid, rows: seq<Row>, i: nat, j: nat) {
    i < |rows| && j < |rows[i].cells| && e == CellEntry(prefix, rows[i].index, rows[i].cells[j])
  }

  /** Every entry of a table comes from a cell of one of its rows. */
  lemma {:induction false} TableEntryFrom(prefix: Oid, rows: seq<Row>, k: nat)
    returns (i: nat, j: nat)
    requires k < |TableEntries(prefix, rows)|
    ensures EntryOfCell(TableEntries(prefix, rows)[k], prefix, rows, i, j)
  {
    var last := |rows| - 1;
    var before := TableEntries(prefix, rows[..last]);
    if k < |before| {
      i, j := TableEntryFrom(prefix, rows[..last], k);
    } else {
      i, j := last, k - |before|;
    }
  }

  /** Every cell of every row has its entry. */
  lemma {:induction false} TableEntryAt(prefix: Oid, rows: seq<Row>, i: nat, j: nat)
    requires i < |rows| && j < |rows[i].cells|
    ensures CellEntry(prefix, rows[i].index, rows[i].cells[j]) in TableEntries(prefix, rows)
  {
    var last := |rows| - 1;
    if i < last {
      TableEntryAt(prefix, rows[..last], i, j);
    } else {
      assert RowEntries(prefix, rows[last])[j] == CellEntry(prefix, rows[i].index, rows[i].cells[j]);
    }
  }

  /** Every row of a table is allowed and lies under one of the table's declared columns. */
  lemma TableMapUnder(includes: seq<Oid>, t: Table, n: Oid)
    requires Declared(t) && n in TableMap(includes, t)
    ensures Allowed(includes, n) && t.prefix <= n && exists c :: c in t.columns && Column(t.prefix, c) <= n
  {
    var es := TableEntries(t.prefix, t.rows);
    FoldMembers(includes, es, n);
    var k :| 0 <= k < |es| && es[k].name == n;
    var i, j := TableEntryFrom(t.prefix, t.rows, k);
    assert t.rows[i].cells[j].column in t.columns;
    assert Column(t.prefix, t.rows[i].cells[j].column) <= n;
    assert t.prefix == Column(t.prefix, t.rows[i].cells[j].column)[..|t.prefix|] == n[..|t.prefix|];
  }

  lemma ScalarMapClear(v: View, n: Oid)
    requires Wellformed(v) && n in ScalarMap(v)
    ensures Allowed(v.includes, n) && Clear(Families(v), n) && n != []
    ensures exists i :: 0 <= i < |v.scalars| && v.scalars[i].base <= n
  {
    FoldMembers(v.includes, ScalarEntries(v.scalars), n);
    var k :| 0 <= k < |ScalarEntries(v.scalars)| && ScalarEntries(v.scalars)[k].name == n;
    assert n == v.scalars[k].base + v.scalars[k].suffix;
  }

  lemma {:induction false} CurrentEntriesUnder(v: View, cutoff: nat, vlans: seq<Vlan>, k: nat)
    requires k < |CurrentEntries(v, cutoff, vlans)|
    ensures exists c, vid :: 3 <= c <= 7 && CurrentEntries(v, cutoff, vlans)[k].name == CurrentName(c, cutoff, vid)
  {
    var before := CurrentEntries(v, cutoff, vlans[..|vlans| - 1]);
    if k < |before| {
      CurrentEntriesUnder(v, cutoff, vlans[..|vlans| - 1], k);
    } else {
      var vlan := vlans[|vlans| - 1];
      assert CurrentEntries(v, cutoff, vlans)[k] == CurrentColumns(v, cutoff, vlan)[k - |before|];
      assert CurrentColumns(v, cutoff, vlan)[k - |before|].name == CurrentName(3 + k - |before|, cutoff, vlan.vid);
    }
  }

  /** Current rows are allowed, lie under a current-table column and carry their own cutoff. */
  lemma CurrentMapUnder(v: View, cutoff: nat, n: Oid)
    requires n in CurrentMap(v, cutoff)
    ensures Allowed(v.includes, n) && CURRENT <= n && Cutoff(n) == cutoff
    ensures exists c: nat :: 3 <= c <= 7 && Column(CURRENT, c) <= n
  {
    var es := CurrentEntries(v, cutoff, v.vlans);
    FoldMembers(v.includes, es, n);
    var k :| 0 <= k < |es| && es[k].name == n;
    CurrentEntriesUnder(v, cutoff, v.vlans, k);
    var c, vid :| 3 <= c <= 7 && n == CurrentName(c, cutoff, vid);
    assert n[..|CURRENT| + 1] == Column(CURRENT, c);
  }

  lemma {:induction false} EnumeratedAt(v: View, k: nat, n: Oid)
    requires Wellformed(v) && k <= |v.tables|
    ensures forall i :: 0 <= i < k && v.tables[i].prefix <= n ==>
              (var t := TableMap(v.includes, v.tables[i]); var all := Enumerated(v, v.tables[..k]);
               (n in all <==> n in t) && (n in all ==> all[n] == t[n]))
    ensures (forall i :: 0 <= i < k ==> !(v.tables[i].prefix <= n)) ==>
              var all := Enumerated(v, v.tables[..k]);
              (n in all <==> n in ScalarMap(v)) && (n in all ==> all[n] == ScalarMap(v)[n])
  {
    if k > 0 {
      var t := v.tables[k - 1];
      assert v.tables[..k][..k - 1] == v.tables[..k - 1];
      EnumeratedAt(v, k - 1, n);
      if n in TableMap(v.includes, t) { TableMapUnder(v.includes, t, n); }
      if n in ScalarMap(v) {
        ScalarMapClear(v, n);
        assert forall i :: 0 <= i < |v.tables| ==> Families(v)[i] == v.tables[i].prefix;
      }
      forall i | 0 <= i < k - 1 && v.tables[i].prefix <= n ensures !(t.prefix <= n) {
        assert Families(v)[i] == v.tables[i].prefix && Families(v)[k - 1] == t.prefix;
        if t.prefix <= n { Comparable(v.tables[i].prefix, t.prefix, n); }
      }
    }
  }

  /** Under a table's prefix exactly that table's rows are ordinary objects. */
  lemma OrdinaryInTable(v: View, i: nat, n: Oid)
    requires Wellformed(v) && i < |v.tables| && v.tables[i].prefix <= n
    ensures n in Ordinary(v) <==> n in TableMap(v.includes, v.tables[i])
    ensures n in Ordinary(v) ==> Ordinary(v)[n] == TableMap(v.includes, v.tables[i])[n]
  {
    assert v.tables[..|v.tables|] == v.tables;
    EnumeratedAt(v, |v.tables|, n);
  }

  /** Outside all tables exactly the scalars are. */
  lemma OrdinaryScalar(v: View, n: Oid)
    requires Wellformed(v) && Clear(Prefixes(v.tables), n)
    ensures n in Ordinary(v) <==> n in ScalarMap(v)
    ensures n in Ordinary(v) ==> Ordinary(v)[n] == ScalarMap(v)[n]
  {
    assert v.tables[..|v.tables|] == v.tables;
    EnumeratedAt(v, |v.tables|, n);
  }
}
