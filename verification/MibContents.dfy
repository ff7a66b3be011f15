/** What an enumeration holds, row by row: scalars, cells of tables, and the current-VLAN rows that a cutoff lets through. */
module MibContents {
  import opened Outcomes
  import opened Names
  import opened MibView

  // ---------------------------------------------------------------------------------------------
  // Current-VLAN rows (dot1qVlanCurrentTable of RFC 4363, whose rows are filtered by time)
  // ---------------------------------------------------------------------------------------------

  ghost predicate DistinctVlans(vlans: seq<Vlan>) {
    forall i, j :: 0 <= i < j < |vlans| ==> vlans[i].vid != vlans[j].vid
  }

  /** The row changed at or after the cutoff, which does not lie ahead of the clock; after a wrap every row dates from zero. */
  predicate ChangedSince(v: View, cutoff: nat, vlan: Vlan) {
    cutoff == 0 || (cutoff <= v.ticks && !v.wrapped && cutoff <= vlan.changed)
  }

  /** The object in a column of a VLAN's row. */
  function CellOf(v: View, vlan: Vlan, column: nat): Option<Value> {
    match column
    case 3 => Some(Value(Gauge32, Quantity(vlan.fdbId)))
    case 4 => Some(Value(OctetString, Octets(vlan.members)))
    case 5 => Some(Value(OctetString, Octets(vlan.untagged)))
    case 6 => Some(Value(Integer32, Quantity(2)))
    case 7 => Some(Value(TimeTicks, Quantity(if v.wrapped then 0 else vlan.created)))
    case _ => None
  }

  function RowName(column: nat, cutoff: nat, vid: nat): Oid {
    [1, 3, 6, 1, 2, 1, 17, 7, 1, 4, 2, 1, column, cutoff, vid]
  }

  /** The VLAN's row has this object under this name. */
  predicate Shows(v: View, cutoff: nat, vlan: Vlan, n: Oid, x: Value) {
    ChangedSince(v, cutoff, vlan) && |n| == 15 && n == RowName(n[12], cutoff, vlan.vid) && CellOf(v, vlan, n[12]) == Some(x)
  }

  lemma ColumnsExactly(v: View, cutoff: nat, vlan: Vlan, n: Oid, x: Value)
    requires ChangedSince(v, cutoff, vlan)
    ensures Entry(n, x) in CurrentColumns(v, cutoff, vlan) <==> Shows(v, cutoff, vlan, n, x)
  {
    var es := CurrentColumns(v, cutoff, vlan);
    forall c: nat ensures CurrentName(c, cutoff, vlan.vid) == RowName(c, cutoff, vlan.vid) {}
    if Shows(v, cutoff, vlan, n, x) {
      assert es[n[12] - 3] == Entry(n, x);
    }
  }

  lemma {:induction false} EntriesExactly(v: View, cutoff: nat, vlans: seq<Vlan>, n: Oid, x: Value)
    ensures Entry(n, x) in CurrentEntries(v, cutoff, vlans) <==> exists i :: 0 <= i < |vlans| && Shows(v, cutoff, vlans[i], n, x)
  {
    if vlans != [] {
      var last := |vlans| - 1;
      EntriesExactly(v, cutoff, vlans[..last], n, x);
      assert forall i :: 0 <= i < last ==> vlans[..last][i] == vlans[i];
      if ChangedSince(v, cutoff, vlans[last]) { ColumnsExactly(v, cutoff, vlans[last], n, x); }
    }
  }

  lemma OneVlanShows(v: View, cutoff: nat, vlans: seq<Vlan>, n: Oid, x: Value, y: Value, i: nat, j: nat)
    requires DistinctVlans(vlans) && i < |vlans| && j < |vlans| && Shows(v, cutoff, vlans[i], n, x) && Shows(v, cutoff, vlans[j], n, y)
    ensures i == j && x == y
  {
    assert RowName(n[12], cutoff, vlans[i].vid)[14] == RowName(n[12], cutoff, vlans[j].vid)[14];
  }

  /** The current rows of a cutoff are exactly the allowed objects of the VLANs that changed since. */
  lemma CurrentExactly(v: View, cutoff: nat, n: Oid, x: Value)
    requires DistinctVlans(v.vlans)
    ensures n in CurrentMap(v, cutoff) && CurrentMap(v, cutoff)[n] == x <==>
            Allowed(v.includes, n) && exists i :: 0 <= i < |v.vlans| && Shows(v, cutoff, v.vlans[i], n, x)
  {
    var es := CurrentEntries(v, cutoff, v.vlans);
    if i :| 0 <= i < |v.vlans| && Shows(v, cutoff, v.vlans[i], n, x) && Allowed(v.includes, n) {
      EntriesExactly(v, cutoff, v.vlans, n, x);
      forall e | e in es && e.name == n ensures e.value == x {
        EntriesExactly(v, cutoff, v.vlans, n, e.value);
        var j :| 0 <= j < |v.vlans| && Shows(v, cutoff, v.vlans[j], n, e.value);
        OneVlanShows(v, cutoff, v.vlans, n, x, e.value, i, j);
      }
      FoldAgrees(v.includes, es, n, x);
    }
    if n in CurrentMap(v, cutoff) && CurrentMap(v, cutoff)[n] == x {
      FoldMembers(v.includes, es, n);
      FoldFrom(v.includes, es, n);
      EntriesExactly(v, cutoff, v.vlans, n, x);
    }
  }

  /** A value that was written is that of an entry. */
  lemma {:induction false} FoldFrom<V>(includes: seq<Oid>, es: seq<Entry<V>>, n: Oid)
    requires n in Fold(map[], includes, es)
    ensures Entry(n, Fold(map[], includes, es)[n]) in es
  {
    var last := |es| - 1;
    if !(es[last].name == n && Allowed(includes, n)) {
      FoldFrom(includes, es[..last], n);
    } else {
      assert es[last] == Entry(n, es[last].value);
    }
  }

  // ---------------------------------------------------------------------------------------------
  // Scalars and tables
  // ---------------------------------------------------------------------------------------------

  /** No two cells of a table have the same name. */
  ghost predicate DistinctCells(t: Table) {
    forall e, d :: e in TableEntries(t.prefix, t.rows) && d in TableEntries(t.prefix, t.rows) && e.name == d.name ==> e == d
  }

  ghost predicate DistinctScalars(scalars: seq<Scalar>) {
    forall i, j :: 0 <= i < j < |scalars| ==> scalars[i].base + scalars[i].suffix != scalars[j].base + scalars[j].suffix
  }

  /** Under the prefix of a table exactly the allowed cells of its rows are visible, each with its own value. */
  lemma CellsExactly(v: View, k: nat, n: Oid, raw: Raw)
    requires Wellformed(v) && k < |v.tables| && v.tables[k].prefix <= n && DistinctCells(v.tables[k])
    ensures n in Ordinary(v) && Ordinary(v)[n] == raw <==>
            Allowed(v.includes, n) && exists i: nat, j: nat :: EntryOfCell(Entry(n, raw), v.tables[k].prefix, v.tables[k].rows, i, j)
  {
    var t := v.tables[k];
    var es := TableEntries(t.prefix, t.rows);
    OrdinaryInTable(v, k, n);
    if n in TableMap(v.includes, t) {
      FoldMembers(v.includes, es, n);
      FoldFrom(v.includes, es, n);
      var m: nat :| m < |es| && es[m] == Entry(n, TableMap(v.includes, t)[n]);
      var i, j := TableEntryFrom(t.prefix, t.rows, m);
    }
    if i: nat, j: nat :| EntryOfCell(Entry(n, raw), t.prefix, t.rows, i, j) && Allowed(v.includes, n) {
      TableEntryAt(t.prefix, t.rows, i, j);
      FoldAgrees(v.includes, es, n, raw);
    }
  }

  /** Outside all tables exactly the allowed scalars are visible. */
  lemma ScalarsExactly(v: View, n: Oid, raw: Raw)
    requires Wellformed(v) && Clear(Prefixes(v.tables), n) && DistinctScalars(v.scalars)
    ensures n in Ordinary(v) && Ordinary(v)[n] == raw <==>
            Allowed(v.includes, n) && exists i :: 0 <= i < |v.scalars| && n == v.scalars[i].base + v.scalars[i].suffix && v.scalars[i].raw == raw
  {
    var es := ScalarEntries(v.scalars);
    OrdinaryScalar(v, n);
    if n in ScalarMap(v) {
      FoldMembers(v.includes, es, n);
      FoldFrom(v.includes, es, n);
      var m :| 0 <= m < |es| && es[m] == Entry(n, ScalarMap(v)[n]);
      assert n == v.scalars[m].base + v.scalars[m].suffix;
    }
    if i :| 0 <= i < |v.scalars| && n == v.scalars[i].base + v.scalars[i].suffix && v.scalars[i].raw == raw && Allowed(v.includes, n) {
      assert es[i] == Entry(n, raw);
      FoldAgrees(v.includes, es, n, raw);
    }
  }
}
