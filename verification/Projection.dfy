/** The index that answers GET and GETNEXT, loading tables and current-VLAN rows only when a request needs them. */
module Projection {
  import opened Outcomes
  import opened Names
  import opened MibView
  import opened MibWalk

  // ---------------------------------------------------------------------------------------------
  // Writing rows
  // ---------------------------------------------------------------------------------------------

  method WriteAll<V>(start: map<Oid, V>, includes: seq<Oid>, es: seq<Entry<V>>) returns (values: map<Oid, V>, names: seq<Oid>)
    ensures values == Fold(start, includes, es) && names == NamesOf(includes, es)
  {
    values, names := start, [];
    for i := 0 to |es|
      invariant values == Fold(start, includes, es[..i]) && names == NamesOf(includes, es[..i])
    {
      assert es[..i + 1][..i] == es[..i];
      if Allowed(includes, es[i].name) {
        values, names := values[es[i].name := es[i].value], names + [es[i].name];
      }
    }
    assert es[..|es|] == es;
  }

  method WriteTable(start: map<Oid, Raw>, includes: seq<Oid>, prefix: Oid, rows: seq<Row>)
    returns (values: map<Oid, Raw>, names: seq<Oid>)
    ensures values == Fold(start, includes, TableEntries(prefix, rows)) && names == NamesOf(includes, TableEntries(prefix, rows))
  {
    values, names := start, [];
    for i := 0 to |rows|
      invariant values == Fold(start, includes, TableEntries(prefix, rows[..i]))
      invariant names == NamesOf(includes, TableEntries(prefix, rows[..i]))
    {
      var added;
      assert rows[..i + 1][..i] == rows[..i];
      FoldAppend(start, includes, TableEntries(prefix, rows[..i]), RowEntries(prefix, rows[i]));
      values, added := WriteAll(values, includes, RowEntries(prefix, rows[i]));
      names := names + added;
    }
    assert rows[..|rows|] == rows;
  }

  method WriteCurrent(v: View, cutoff: nat) returns (values: map<Oid, Value>, names: seq<Oid>)
    ensures values == CurrentMap(v, cutoff) && names == NamesOf(v.includes, CurrentEntries(v, cutoff, v.vlans))
  {
    values, names := map[], [];
    for i := 0 to |v.vlans|
      invariant values == Fold(map[], v.includes, CurrentEntries(v, cutoff, v.vlans[..i]))
      invariant names == NamesOf(v.includes, CurrentEntries(v, cutoff, v.vlans[..i]))
    {
      assert v.vlans[..i + 1][..i] == v.vlans[..i];
      ghost var before := CurrentEntries(v, cutoff, v.vlans[..i]);
      assert before + [] == before;
      if Selected(v, cutoff, v.vlans[i]) {
        var added;
        FoldAppend(map[], v.includes, before, CurrentColumns(v, cutoff, v.vlans[i]));
        values, added := WriteAll(values, v.includes, CurrentColumns(v, cutoff, v.vlans[i]));
        names := names + added;
      }
    }
    assert v.vlans[..|v.vlans|] == v.vlans;
  }

  // ---------------------------------------------------------------------------------------------
  // What the caches hold
  // ---------------------------------------------------------------------------------------------

  ghost predicate ListsKeys(keys: seq<Oid>, names: set<Oid>) {
    Ordered(keys) && forall n :: n in keys <==> n in names
  }

  ghost predicate Faithful(v: View, values: map<Oid, Raw>) {
    ScalarMap(v).Keys <= values.Keys && forall n :: n in values ==> n in Ordinary(v) && values[n] == Ordinary(v)[n]
  }

  ghost predicate Loaded(v: View, values: map<Oid, Raw>, tableKeys: map<Oid, seq<Oid>>) {
    forall i :: 0 <= i < |v.tables| && v.tables[i].prefix in tableKeys ==>
      var rows := TableMap(v.includes, v.tables[i]); rows.Keys <= values.Keys && ListsKeys(tableKeys[v.tables[i].prefix], rows.Keys)
  }

  ghost predicate Memoized(v: View, materialized: map<Oid, Value>) {
    forall n :: n in materialized ==> n in Ordinary(v) && materialized[n] == Built(Ordinary(v)[n])
  }

  ghost predicate Filtered(v: View, filtered: map<nat, map<Oid, Value>>, filteredKeys: map<nat, seq<Oid>>) {
    && filtered.Keys == filteredKeys.Keys
    && forall c :: c in filtered ==> filtered[c] == CurrentMap(v, c) && ListsKeys(filteredKeys[c], CurrentMap(v, c).Keys)
  }

  ghost predicate Base(v: View, b: Oid) {
    || (exists i :: 0 <= i < |v.scalars| && v.scalars[i].base == b)
    || (exists i, c :: 0 <= i < |v.tables| && c in v.tables[i].columns && Column(v.tables[i].prefix, c) == b)
    || (exists c: nat :: 3 <= c <= 7 && Column(CURRENT, c) == b)
  }

  lemma BasesKnow(v: View, bases: set<Oid>, name: Oid)
    requires forall b :: b in bases <==> Base(v, b)
    ensures Known(v, name) <==> exists b :: b in bases && b <= name
  {
    if b :| b in bases && b <= name {
      assert Base(v, b);
    }
    if Known(v, name) {
      if i :| 0 <= i < |v.scalars| && v.scalars[i].base <= name {
        assert Base(v, v.scalars[i].base);
      } else if i, c :| 0 <= i < |v.tables| && c in v.tables[i].columns && Column(v.tables[i].prefix, c) <= name {
        assert Base(v, Column(v.tables[i].prefix, c));
      } else {
        var c: nat :| 3 <= c <= 7 && Column(CURRENT, c) <= name;
        assert Base(v, Column(CURRENT, c));
      }
    }
  }

  /** Loading a table keeps what is loaded faithful to the plain enumeration. */
  lemma LoadKeepsFaithful(v: View, i: nat, values: map<Oid, Raw>)
    requires Wellformed(v) && i < |v.tables| && Faithful(v, values)
    ensures Faithful(v, values + TableMap(v.includes, v.tables[i]))
  {
    forall n | n in TableMap(v.includes, v.tables[i]) { RowVisible(v, 0, i, n); }
  }

  lemma SkippedTableEmpty(includes: seq<Oid>, t: Table)
    requires Declared(t) && !Overlaps(includes, t.prefix)
    ensures TableMap(includes, t) == map[]
  {
    forall n ensures n !in TableMap(includes, t) {
      if n in TableMap(includes, t) {
        TableMapUnder(includes, t, n);
        AllowedOverlaps(includes, t.prefix, n);
      }
    }
  }

  lemma SortedLists<V>(includes: seq<Oid>, es: seq<Entry<V>>)
    ensures ListsKeys(Sorted(NamesOf(includes, es)), Fold(map[], includes, es).Keys)
  {
    SortedMembers(NamesOf(includes, es));
    forall n { FoldMembers(includes, es, n); }
  }

  // ---------------------------------------------------------------------------------------------
  // The order of families
  // ---------------------------------------------------------------------------------------------

  ghost predicate Passed(visible: map<Oid, Value>, name: Oid, prefix: Oid) {
    forall n :: n in visible && prefix <= n ==> !Less(name, n)
  }

  /** The sorted keys of one family. */
  ghost predicate FamilyKeys(visible: map<Oid, Value>, prefix: Oid, keys: seq<Oid>) {
    Ordered(keys) && forall n :: n in keys <==> n in visible && prefix <= n
  }

  ghost predicate LeastScalar(v: View, name: Oid, scalar: Option<Oid>) {
    match scalar
    case Some(s) => s in ScalarMap(v) && Less(name, s) && forall k :: k in ScalarMap(v) && Less(name, k) ==> AtMost(s, k)
    case None => forall k :: k in ScalarMap(v) ==> !Less(name, k)
  }

  lemma PastInterval(visible: map<Oid, Value>, name: Oid, prefix: Oid)
    requires prefix != [] && !Less(name, Upper(prefix))
    ensures Passed(visible, name, prefix)
  {
    forall n | n in visible && prefix <= n ensures !Less(name, n) {
      UnderInterval(n, prefix);
      Chain(name, n, Upper(prefix));
    }
  }

  lemma VisibleOverlaps(v: View, cutoff: nat, prefix: Oid)
    requires Wellformed(v)
    ensures forall n :: n in Visible(v, cutoff) && prefix <= n ==> Overlaps(v.includes, prefix)
  {
    forall n ensures n in Visible(v, cutoff) && prefix <= n ==> Overlaps(v.includes, prefix) {
      if n in Visible(v, cutoff) && prefix <= n {
        VisibleCases(v, cutoff, n);
        AllowedOverlaps(v.includes, prefix, n);
      }
    }
  }

  lemma HiddenFamily(v: View, cutoff: nat, name: Oid, prefix: Oid)
    requires Wellformed(v) && !Overlaps(v.includes, prefix)
    ensures Passed(Visible(v, cutoff), name, prefix)
  {
    VisibleOverlaps(v, cutoff, prefix);
  }

  lemma TableFamily(v: View, cutoff: nat, i: nat, keys: seq<Oid>)
    requires Wellformed(v) && i < |v.tables| && ListsKeys(keys, TableMap(v.includes, v.tables[i]).Keys)
    ensures FamilyKeys(Visible(v, cutoff), v.tables[i].prefix, keys)
  {
    var prefix := v.tables[i].prefix;
    assert Families(v)[i] == prefix && Families(v)[|v.tables|] == CURRENT;
    forall n ensures n in TableMap(v.includes, v.tables[i]) <==> n in Visible(v, cutoff) && prefix <= n {
      if n in TableMap(v.includes, v.tables[i]) { RowVisible(v, cutoff, i, n); }
      if prefix <= n {
        if CURRENT <= n { Comparable(CURRENT, prefix, n); }
        VisibleElsewhere(v, cutoff, n);
        OrdinaryInTable(v, i, n);
      }
    }
  }

  lemma CurrentFamily(v: View, cutoff: nat, keys: seq<Oid>)
    requires Wellformed(v) && ListsKeys(keys, CurrentMap(v, cutoff).Keys)
    ensures FamilyKeys(Visible(v, cutoff), CURRENT, keys)
  {
    forall n ensures n in CurrentMap(v, cutoff) <==> n in Visible(v, cutoff) && CURRENT <= n {
      if n in CurrentMap(v, cutoff) { CurrentMapUnder(v, cutoff, n); }
      if CURRENT <= n { VisibleUnderCurrent(v, cutoff, n); }
    }
  }

  lemma HiddenCurrent(v: View, cutoff: nat)
    requires !Overlaps(v.includes, CURRENT)
    ensures CurrentMap(v, cutoff) == map[]
  {
    forall n ensures n !in CurrentMap(v, cutoff) {
      if n in CurrentMap(v, cutoff) {
        CurrentMapUnder(v, cutoff, n);
        AllowedOverlaps(v.includes, CURRENT, n);
      }
    }
  }

  lemma EmptiedFamily(visible: map<Oid, Value>, name: Oid, prefix: Oid, keys: seq<Oid>)
    requires FamilyKeys(visible, prefix, keys) && Bisect(keys, name) == |keys|
    ensures Passed(visible, name, prefix)
  {
    BisectLeast(keys, name);
  }

  lemma FamiliesApart(v: View, p: Oid, q: Oid)
    requires Wellformed(v) && p in Families(v) && q in Families(v) && p != q
    ensures !(p <= q) && !(q <= p)
  {
  }

  lemma FamilyNonempty(v: View, p: Oid)
    requires Wellformed(v) && p in Families(v)
    ensures p != []
    ensures p == CURRENT || exists i :: 0 <= i < |v.tables| && v.tables[i].prefix == p
  {
    var k :| 0 <= k < |Families(v)| && Families(v)[k] == p;
    if k < |v.tables| { assert v.tables[k].prefix == p; }
  }

  ghost predicate Rest(v: View, families: seq<Oid>) {
    Ordered(families) && forall p :: p in families <==> p in Families(v)
  }

  /** A scalar below a family is below every name of that and of all later families. */
  lemma ScalarBeforeFamily(v: View, families: seq<Oid>, k: nat, j: nat, s: Oid, n: Oid)
    requires Wellformed(v) && Rest(v, families) && k <= j < |families| && Less(s, families[k]) && families[j] <= n
    ensures AtMost(s, n)
  {
    FamilyNonempty(v, families[j]);
    UnderInterval(n, families[j]);
    Chain(s, families[k], families[j]);
    Chain(s, families[j], n);
  }

  /** The first key of a family above a name is below every name of all later families. */
  lemma CandidateBeforeFamily(v: View, visible: map<Oid, Value>, families: seq<Oid>, k: nat, j: nat, keys: seq<Oid>, name: Oid, n: Oid)
    requires Wellformed(v) && Rest(v, families) && k <= j < |families| && FamilyKeys(visible, families[k], keys)
    requires Bisect(keys, name) < |keys| && n in visible && families[j] <= n && Less(name, n)
    ensures AtMost(keys[Bisect(keys, name)], n)
  {
    var candidate := keys[Bisect(keys, name)];
    BisectLeast(keys, name);
    assert candidate in keys;
    if families[j] == families[k] {
      assert n in keys;
    } else {
      FamiliesApart(v, families[k], families[j]);
      ApartOrder(families[k], families[j], candidate, n);
    }
  }

  /** Once all earlier families are passed, a name below all scalars and all later families is the successor. */
  lemma BestIsSuccessor(v: View, cutoff: nat, families: seq<Oid>, k: nat, name: Oid, best: Oid)
    requires Wellformed(v) && Rest(v, families) && k <= |families|
    requires forall i :: 0 <= i < k ==> Passed(Visible(v, cutoff), name, families[i])
    requires best in Visible(v, cutoff) && Less(name, best)
    requires forall s :: s in ScalarMap(v) && Less(name, s) ==> AtMost(best, s)
    requires forall j, n :: k <= j < |families| && n in Visible(v, cutoff) && families[j] <= n && Less(name, n) ==> AtMost(best, n)
    ensures Successor(Visible(v, cutoff), name) == Found(best, Visible(v, cutoff)[best])
  {
    var visible := Visible(v, cutoff);
    forall n | n in visible && Less(name, n) ensures AtMost(best, n) {
      VisibleCases(v, cutoff, n);
      if i :| 0 <= i < |Families(v)| && Families(v)[i] <= n {
        assert Families(v)[i] in Families(v);
        var j :| 0 <= j < |families| && families[j] == Families(v)[i];
        assert j < k ==> Passed(visible, name, families[j]);
      }
    }
    SuccessorUnique(visible, name, Successor(visible, name), Found(best, visible[best]));
  }

  lemma NothingIsSuccessor(v: View, cutoff: nat, families: seq<Oid>, name: Oid)
    requires Wellformed(v) && Rest(v, families)
    requires forall i :: 0 <= i < |families| ==> Passed(Visible(v, cutoff), name, families[i])
    requires forall s :: s in ScalarMap(v) ==> !Less(name, s)
    ensures Successor(Visible(v, cutoff), name) == EndOfMibView(name)
  {
    var visible := Visible(v, cutoff);
    forall n | n in visible ensures !Less(name, n) {
      VisibleCases(v, cutoff, n);
      if i :| 0 <= i < |Families(v)| && Families(v)[i] <= n {
        assert Families(v)[i] in Families(v);
        var j :| 0 <= j < |families| && families[j] == Families(v)[i];
        assert Passed(visible, name, families[j]);
      }
    }
    SuccessorUnique(visible, name, Successor(visible, name), EndOfMibView(name));
  }

  lemma ScalarWins(v: View, families: seq<Oid>, k: nat, name: Oid, s: Oid)
    requires Wellformed(v) && Rest(v, families) && k <= |families| && LeastScalar(v, name, Some(s))
    requires forall i :: 0 <= i < k ==> Passed(Visible(v, Cutoff(name)), name, families[i])
    requires k < |families| ==> Less(s, families[k])
    ensures Successor(Visible(v, Cutoff(name)), name) == Found(s, Built(ScalarMap(v)[s]))
  {
    ScalarVisible(v, Cutoff(name), s);
    forall j, n | k <= j < |families| && n in Visible(v, Cutoff(name)) && families[j] <= n && Less(name, n) ensures AtMost(s, n) {
      ScalarBeforeFamily(v, families, k, j, s, n);
    }
    BestIsSuccessor(v, Cutoff(name), families, k, name, s);
  }

  lemma CandidateWins(v: View, families: seq<Oid>, k: nat, name: Oid, scalar: Option<Oid>, keys: seq<Oid>)
    requires Wellformed(v) && Rest(v, families) && k < |families| && LeastScalar(v, name, scalar)
    requires forall i :: 0 <= i < k ==> Passed(Visible(v, Cutoff(name)), name, families[i])
    requires FamilyKeys(Visible(v, Cutoff(name)), families[k], keys) && Bisect(keys, name) < |keys|
    ensures var visible := Visible(v, Cutoff(name));
            var candidate := keys[Bisect(keys, name)];
            var best := if scalar.Some? && Less(scalar.value, candidate) then scalar.value else candidate;
            && best in visible && (best == candidate ==> families[k] <= best)
            && Successor(visible, name) == Found(best, visible[best])
  {
    var visible, candidate := Visible(v, Cutoff(name)), keys[Bisect(keys, name)];
    var best := if scalar.Some? && Less(scalar.value, candidate) then scalar.value else candidate;
    BisectLeast(keys, name);
    assert candidate in keys;
    if scalar.Some? {
      ScalarVisible(v, Cutoff(name), scalar.value);
      Exclusive(candidate, scalar.value);
    }
    forall j, n | k <= j < |families| && n in visible && families[j] <= n && Less(name, n) ensures AtMost(best, n) {
      CandidateBeforeFamily(v, visible, families, k, j, keys, name, n);
      Chain(best, candidate, n);
    }
    forall s | s in ScalarMap(v) && Less(name, s) ensures AtMost(best, s) {
      Chain(candidate, scalar.value, s);
    }
    BestIsSuccessor(v, Cutoff(name), families, k, name, best);
  }

  function FirstScalar(keys: seq<Oid>, name: Oid): Option<Oid>
    requires Ordered(keys)
  {
    var index := Bisect(keys, name);
    if index < |keys| then Some(keys[index]) else None
  }

  lemma FirstIsLeast(v: View, keys: seq<Oid>, name: Oid)
    requires ListsKeys(keys, ScalarMap(v).Keys)
    ensures LeastScalar(v, name, FirstScalar(keys, name))
  {
    BisectLeast(keys, name);
  }

  lemma AllBases(v: View, scalars: set<Oid>, columns: set<Oid>, current: set<Oid>)
    requires forall b :: b in scalars <==> exists i :: 0 <= i < |v.scalars| && v.scalars[i].base == b
    requires forall b :: b in columns <==> exists i, c :: 0 <= i < |v.tables| && c in v.tables[i].columns && Column(v.tables[i].prefix, c) == b
    requires current == set c: nat | 3 <= c <= 7 :: Column(CURRENT, c)
    ensures forall b :: b in scalars + columns + current <==> Base(v, b)
  {
    forall b ensures b in scalars + columns + current <==> Base(v, b) {
      assert b in current <==> exists c: nat :: 3 <= c <= 7 && Column(CURRENT, c) == b;
    }
  }

  // ---------------------------------------------------------------------------------------------
  // The index
  // ---------------------------------------------------------------------------------------------

  function IndexOf(tables: seq<Table>, prefix: Oid): (i: nat)
    ensures i <= |tables| && (i < |tables| ==> tables[i].prefix == prefix)
    ensures forall j :: 0 <= j < i ==> tables[j].prefix != prefix
  {
    if tables == [] || tables[0].prefix == prefix then 0 else 1 + IndexOf(tables[1..], prefix)
  }

  lemma OnlyTable(v: View, i: nat, j: nat)
    requires Wellformed(v) && i < |v.tables| && j < |v.tables| && v.tables[i].prefix == v.tables[j].prefix
    ensures i == j
  {
    assert Families(v)[i] == v.tables[i].prefix && Families(v)[j] == v.tables[j].prefix;
  }

  lemma MoreLoaded(v: View, i: nat, values: map<Oid, Raw>, tableKeys: map<Oid, seq<Oid>>, keys: seq<Oid>)
    requires Wellformed(v) && i < |v.tables| && Loaded(v, values, tableKeys)
    requires ListsKeys(keys, TableMap(v.includes, v.tables[i]).Keys)
    ensures Loaded(v, values + TableMap(v.includes, v.tables[i]), tableKeys[v.tables[i].prefix := keys])
  {
    forall j | 0 <= j < |v.tables| && v.tables[j].prefix == v.tables[i].prefix { OnlyTable(v, i, j); }
  }

  lemma OneTable(v: View, i: nat, name: Oid)
    requires Wellformed(v) && i < |v.tables| && v.tables[i].prefix <= name
    ensures forall j :: 0 <= j < |v.tables| && v.tables[j].prefix <= name ==> j == i
  {
    forall j | 0 <= j < |v.tables| && v.tables[j].prefix <= name ensures j == i {
      Comparable(v.tables[i].prefix, v.tables[j].prefix, name);
      assert Families(v)[i] == v.tables[i].prefix && Families(v)[j] == v.tables[j].prefix;
    }
  }

  /** With its own table loaded, a name is held exactly when it is an ordinary object. */
  lemma LoadedName(v: View, values: map<Oid, Raw>, tableKeys: map<Oid, seq<Oid>>, name: Oid)
    requires Wellformed(v) && Faithful(v, values) && Loaded(v, values, tableKeys)
    requires forall i :: 0 <= i < |v.tables| && v.tables[i].prefix <= name ==> v.tables[i].prefix in tableKeys
    ensures name in values <==> name in Ordinary(v)
  {
    if i :| 0 <= i < |v.tables| && v.tables[i].prefix <= name {
      OrdinaryInTable(v, i, name);
    } else {
      OrdinaryScalar(v, name);
    }
  }

  lemma ScalarsFaithful(v: View)
    requires Wellformed(v)
    ensures Faithful(v, ScalarMap(v))
  {
    forall n | n in ScalarMap(v) { ScalarVisible(v, 0, n); }
  }

  method ReadScalars(v: View) returns (values: map<Oid, Raw>, names: seq<Oid>, bases: set<Oid>)
    ensures values == ScalarMap(v) && names == NamesOf(v.includes, ScalarEntries(v.scalars))
    ensures forall b :: b in bases <==> exists i :: 0 <= i < |v.scalars| && v.scalars[i].base == b
  {
    values, names, bases := map[], [], {};
    ghost var es := ScalarEntries(v.scalars);
    for i := 0 to |v.scalars|
      invariant values == Fold(map[], v.includes, es[..i]) && names == NamesOf(v.includes, es[..i])
      invariant forall b :: b in bases <==> exists j :: 0 <= j < i && v.scalars[j].base == b
    {
      assert es[..i + 1][..i] == es[..i];
      var s := v.scalars[i];
      bases := bases + {s.base};
      if Allowed(v.includes, s.base + s.suffix) {
        values, names := values[s.base + s.suffix := s.raw], names + [s.base + s.suffix];
      }
    }
    assert es[..|es|] == es;
  }

  method ReadTables(v: View) returns (bases: set<Oid>)
    ensures forall b :: b in bases <==> exists i, c :: 0 <= i < |v.tables| && c in v.tables[i].columns && Column(v.tables[i].prefix, c) == b
  {
    bases := {};
    for i := 0 to |v.tables|
      invariant forall b :: b in bases <==> exists j, c :: 0 <= j < i && c in v.tables[j].columns && Column(v.tables[j].prefix, c) == b
    {
      bases := bases + set c | c in v.tables[i].columns :: Column(v.tables[i].prefix, c);
    }
  }

  class Projection {
    const view: View
    var values: map<Oid, Raw>
    var materialized: map<Oid, Value>
    var bases: set<Oid>
    var scalarKeys: seq<Oid>
    var families: seq<Oid>
    var tableKeys: map<Oid, seq<Oid>>
    var filtered: map<nat, map<Oid, Value>>
    var filteredKeys: map<nat, seq<Oid>>

    /** The part of the index that requests never change. */
    ghost predicate Fixed()
      reads this
    {
      && Wellformed(view) && Rest(view, families) && ListsKeys(scalarKeys, ScalarMap(view).Keys)
      && forall b :: b in bases <==> Base(view, b)
    }

    ghost predicate Valid()
      reads this
    {
      && Fixed() && Faithful(view, values) && Loaded(view, values, tableKeys)
      && Memoized(view, materialized) && Filtered(view, filtered, filteredKeys)
    }

    constructor (view: View)
      requires Wellformed(view)
      ensures Valid() && this.view == view
    {
      this.view := view;
      var scalars, names, first := ReadScalars(view);
      var second := ReadTables(view);
      values, materialized := scalars, map[];
      var current := set c: nat | 3 <= c <= 7 :: Column(CURRENT, c);
      bases := first + second + current;
      AllBases(view, first, second, current);
      scalarKeys, families := Sorted(names), Sorted(Families(view));
      tableKeys, filtered, filteredKeys := map[], map[], map[];
      SortedLists(view.includes, ScalarEntries(view.scalars));
      SortedMembers(Families(view));
      ScalarsFaithful(view);
    }

    method LoadTable(prefix: Oid) returns (keys: seq<Oid>)
      requires Valid() && IndexOf(view.tables, prefix) < |view.tables|
      modifies `values, `tableKeys
      ensures Valid() && prefix in tableKeys
      ensures ListsKeys(keys, TableMap(view.includes, view.tables[IndexOf(view.tables, prefix)]).Keys)
    {
      var i := IndexOf(view.tables, prefix);
      if prefix !in tableKeys {
        var names := [];
        ghost var before, es := values, TableEntries(prefix, view.tables[i].rows);
        if Overlaps(view.includes, prefix) {
          values, names := WriteTable(values, view.includes, prefix, view.tables[i].rows);
          FoldOver(before, view.includes, es);
          SortedLists(view.includes, es);
        } else {
          SkippedTableEmpty(view.includes, view.tables[i]);
          SortedMembers(names);
        }
        LoadKeepsFaithful(view, i, before);
        MoreLoaded(view, i, before, tableKeys, Sorted(names));
        tableKeys := tableKeys[prefix := Sorted(names)];
      }
      return tableKeys[prefix];
    }

    method Current(cutoff: nat) returns (rows: map<Oid, Value>)
      requires Valid()
      modifies `filtered, `filteredKeys
      ensures Valid() && cutoff in filteredKeys && rows == CurrentMap(view, cutoff)
    {
      if cutoff !in filtered {
        var found: map<Oid, Value>, names := map[], [];
        if Overlaps(view.includes, CURRENT) {
          found, names := WriteCurrent(view, cutoff);
          SortedLists(view.includes, CurrentEntries(view, cutoff, view.vlans));
        } else {
          HiddenCurrent(view, cutoff);
          SortedMembers(names);
        }
        filtered, filteredKeys := filtered[cutoff := found], filteredKeys[cutoff := Sorted(names)];
      }
      return filtered[cutoff];
    }

    method Materialize(name: Oid) returns (value: Value)
      requires Valid() && name in values
      modifies `materialized
      ensures Valid() && value == Built(Ordinary(view)[name])
    {
      if name !in materialized {
        materialized := materialized[name := Built(values[name])];
      }
      return materialized[name];
    }

    /** The table of a name is loaded, if it has one. */
    method LoadFor(name: Oid)
      requires Valid()
      modifies `values, `tableKeys
      ensures Valid() && forall i :: 0 <= i < |view.tables| && view.tables[i].prefix <= name ==> view.tables[i].prefix in tableKeys
    {
      var i := 0;
      while i < |view.tables| && !(view.tables[i].prefix <= name)
        invariant i <= |view.tables| && forall j :: 0 <= j < i ==> !(view.tables[j].prefix <= name)
      {
        i := i + 1;
      }
      if i < |view.tables| {
        var _ := LoadTable(view.tables[i].prefix);
        OneTable(view, i, name);
      }
    }

    /** GET: the answer is the plain enumeration's, whatever was loaded before. */
    method Get(name: Oid) returns (r: Answer)
      requires Valid()
      modifies `values, `tableKeys, `filtered, `filteredKeys, `materialized
      ensures Valid() && r == Lookup(view, name)
    {
      BasesKnow(view, bases, name);
      if !Allowed(view.includes, name) || !exists b :: b in bases && b <= name {
        return NoSuchObject(name);
      }
      if CURRENT <= name {
        var rows := Current(Cutoff(name));
        VisibleUnderCurrent(view, Cutoff(name), name);
        return if name in rows then Found(name, rows[name]) else NoSuchInstance(name);
      }
      VisibleElsewhere(view, Cutoff(name), name);
      LoadFor(name);
      LoadedName(view, values, tableKeys, name);
      if name !in values {
        return NoSuchInstance(name);
      }
      var value := Materialize(name);
      return Found(name, value);
    }

    method OfScalar(name: Oid) returns (r: Answer)
      requires Valid() && name in ScalarMap(view)
      modifies `materialized
      ensures Valid() && r == Found(name, Built(ScalarMap(view)[name]))
    {
      ScalarVisible(view, 0, name);
      var value := Materialize(name);
      return Found(name, value);
    }

    method KeysOf(prefix: Oid, cutoff: nat) returns (keys: seq<Oid>)
      requires Valid() && prefix in Families(view)
      modifies `values, `tableKeys, `filtered, `filteredKeys
      ensures Valid() && FamilyKeys(Visible(view, cutoff), prefix, keys)
      ensures prefix == CURRENT ==> cutoff in filtered
      ensures prefix != CURRENT ==> forall n :: n in keys ==> n in values
    {
      if prefix == CURRENT {
        var _ := Current(cutoff);
        keys := filteredKeys[cutoff];
        CurrentFamily(view, cutoff, keys);
      } else {
        FamilyNonempty(view, prefix);
        keys := LoadTable(prefix);
        TableFamily(view, cutoff, IndexOf(view.tables, prefix), keys);
      }
    }

    method Answered(prefix: Oid, cutoff: nat, name: Oid) returns (r: Answer)
      requires Valid() && name in Visible(view, cutoff) && prefix <= name && prefix in Families(view)
      requires prefix == CURRENT ==> cutoff in filtered
      requires prefix != CURRENT ==> name in values
      modifies `materialized
      ensures Valid() && r == Found(name, Visible(view, cutoff)[name])
    {
      if prefix == CURRENT {
        VisibleUnderCurrent(view, cutoff, name);
        return Found(name, filtered[cutoff][name]);
      }
      if CURRENT <= name {
        Comparable(CURRENT, prefix, name);
        FamiliesApart(view, CURRENT, prefix);
      }
      VisibleElsewhere(view, cutoff, name);
      var value := Materialize(name);
      return Found(name, value);
    }

    /** The successor if it lies at or before one family, when it lies in none of the families before. */
    method Try(k: nat, name: Oid, scalar: Option<Oid>) returns (r: Option<Answer>)
      requires Valid() && k < |families| && LeastScalar(view, name, scalar)
      requires forall i :: 0 <= i < k ==> Passed(Visible(view, Cutoff(name)), name, families[i])
      modifies `values, `tableKeys, `filtered, `filteredKeys, `materialized
      ensures Valid() && (r.Some? ==> r.value == Successor(Visible(view, Cutoff(name)), name))
      ensures r.None? ==> Passed(Visible(view, Cutoff(name)), name, families[k])
    {
      var prefix := families[k];
      FamilyNonempty(view, prefix);
      if !Less(name, Upper(prefix)) {
        PastInterval(Visible(view, Cutoff(name)), name, prefix);
        return None;
      }
      if !Overlaps(view.includes, prefix) {
        HiddenFamily(view, Cutoff(name), name, prefix);
        return None;
      }
      if scalar.Some? && Less(scalar.value, prefix) {
        ScalarWins(view, families, k, name, scalar.value);
        var answer := OfScalar(scalar.value);
        return Some(answer);
      }
      var keys := KeysOf(prefix, Cutoff(name));
      var i := Bisect(keys, name);
      if i == |keys| {
        EmptiedFamily(Visible(view, Cutoff(name)), name, prefix, keys);
        return None;
      }
      CandidateWins(view, families, k, name, scalar, keys);
      if scalar.Some? && Less(scalar.value, keys[i]) {
        ScalarVisible(view, Cutoff(name), scalar.value);
        var answer := OfScalar(scalar.value);
        return Some(answer);
      }
      var answer := Answered(prefix, Cutoff(name), keys[i]);
      return Some(answer);
    }

    /** GETNEXT: the answer is the least visible name above the request's, whatever was loaded before. */
    method Next(name: Oid) returns (r: Answer)
      requires Valid()
      modifies `values, `tableKeys, `filtered, `filteredKeys, `materialized
      ensures Valid() && r == Successor(Visible(view, Cutoff(name)), name)
    {
      var scalar := FirstScalar(scalarKeys, name);
      FirstIsLeast(view, scalarKeys, name);
      var k := 0;
      while k < |families|
        invariant Valid() && k <= |families|
        invariant forall i :: 0 <= i < k ==> Passed(Visible(view, Cutoff(name)), name, families[i])
      {
        var found := Try(k, name, scalar);
        if found.Some? {
          return found.value;
        }
        k := k + 1;
      }
      if scalar.Some? {
        ScalarWins(view, families, k, name, scalar.value);
        r := OfScalar(scalar.value);
        return;
      }
      NothingIsSuccessor(view, Cutoff(name), families, name);
      return EndOfMibView(name);
    }
  }
}
