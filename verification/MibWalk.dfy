/** GETNEXT and GET on a view, judged by its plain enumeration (sections 4.2.1 and 4.2.2 of RFC 3416), and whole walks. */
module MibWalk {
  import opened Names
  import opened MibView

  ghost predicate IsSuccessor(visible: map<Oid, Value>, name: Oid, r: Answer) {
    match r
    case Found(n, value) =>
      && n in visible && visible[n] == value && Less(name, n)
      && forall k :: k in visible && Less(name, k) ==> AtMost(n, k)
    case EndOfMibView(n) => n == name && forall k :: k in visible ==> !Less(name, k)
    case _ => false
  }

  lemma SuccessorUnique(visible: map<Oid, Value>, name: Oid, q: Answer, r: Answer)
    requires IsSuccessor(visible, name, q) && IsSuccessor(visible, name, r)
    ensures q == r
  {
    if q.Found? && r.Found? {
      Exclusive(q.name, r.name);
    }
  }

  ghost function Above(visible: map<Oid, Value>, name: Oid): set<Oid> {
    set k | k in visible && Less(name, k)
  }

  lemma {:induction false} LeastOf(names: set<Oid>, some: Oid)
    requires some in names
    ensures exists n :: n in names && forall k :: k in names ==> AtMost(n, k)
    decreases |names|
  {
    var rest := names - {some};
    if rest == {} {
      assert forall k :: k in names ==> k == some by { assert forall k :: k in names && k != some ==> k in rest; }
    } else {
      var other :| other in rest;
      LeastOf(rest, other);
      var n :| n in rest && forall k :: k in rest ==> AtMost(n, k);
      Exclusive(some, n);
      if AtMost(some, n) {
        forall k | k in names ensures AtMost(some, k) { if k != some { assert k in rest; Chain(some, n, k); } }
      } else {
        forall k | k in names ensures AtMost(n, k) { if k != some { assert k in rest; } }
      }
    }
  }

  ghost function Successor(visible: map<Oid, Value>, name: Oid): (r: Answer)
    ensures IsSuccessor(visible, name, r)
  {
    if some :| some in Above(visible, name) then
      LeastOf(Above(visible, name), some);
      var n :| n in Above(visible, name) && forall k :: k in Above(visible, name) ==> AtMost(n, k);
      Found(n, visible[n])
    else
      assert forall k :: k in visible && Less(name, k) ==> k in Above(visible, name);
      EndOfMibView(name)
  }

  // ---------------------------------------------------------------------------------------------
  // Which branch of the enumeration a visible name belongs to
  // ---------------------------------------------------------------------------------------------

  lemma VisibleUnderCurrent(v: View, cutoff: nat, n: Oid)
    requires Wellformed(v) && CURRENT <= n
    ensures n in Visible(v, cutoff) <==> n in CurrentMap(v, cutoff)
    ensures n in Visible(v, cutoff) ==> Visible(v, cutoff)[n] == CurrentMap(v, cutoff)[n]
  {
    var f := Families(v);
    assert f[|v.tables|] == CURRENT;
    forall i | 0 <= i < |v.tables| ensures !(v.tables[i].prefix <= n) {
      assert f[i] == v.tables[i].prefix;
      if v.tables[i].prefix <= n { Comparable(v.tables[i].prefix, CURRENT, n); }
    }
    OrdinaryScalar(v, n);
    if n in ScalarMap(v) { ScalarMapClear(v, n); }
  }

  lemma VisibleElsewhere(v: View, cutoff: nat, n: Oid)
    requires Wellformed(v) && !(CURRENT <= n)
    ensures n in Visible(v, cutoff) <==> n in Ordinary(v)
    ensures n in Visible(v, cutoff) ==> Visible(v, cutoff)[n] == Built(Ordinary(v)[n])
  {
    if n in CurrentMap(v, cutoff) { CurrentMapUnder(v, cutoff, n); }
  }

  /** Every visible name is allowed, and is a scalar or lies under a registered family. */
  lemma VisibleCases(v: View, cutoff: nat, n: Oid)
    requires Wellformed(v) && n in Visible(v, cutoff)
    ensures Allowed(v.includes, n)
    ensures Clear(Families(v), n) ==> n in ScalarMap(v) && Visible(v, cutoff)[n] == Built(ScalarMap(v)[n])
    ensures CURRENT <= n ==> Cutoff(n) == cutoff
    ensures !(CURRENT <= n) ==> Cutoff(n) == 0
  {
    assert Families(v)[|v.tables|] == CURRENT;
    if CURRENT <= n {
      VisibleUnderCurrent(v, cutoff, n);
      CurrentMapUnder(v, cutoff, n);
    } else {
      VisibleElsewhere(v, cutoff, n);
      if i :| 0 <= i < |v.tables| && v.tables[i].prefix <= n {
        OrdinaryInTable(v, i, n);
        TableMapUnder(v.includes, v.tables[i], n);
        assert Families(v)[i] <= n;
      } else {
        OrdinaryScalar(v, n);
        ScalarMapClear(v, n);
      }
    }
  }

  lemma ScalarVisible(v: View, cutoff: nat, n: Oid)
    requires Wellformed(v) && n in ScalarMap(v)
    ensures n in Visible(v, cutoff) && Visible(v, cutoff)[n] == Built(ScalarMap(v)[n])
    ensures n in Ordinary(v) && Ordinary(v)[n] == ScalarMap(v)[n]
  {
    ScalarMapClear(v, n);
    assert Families(v)[|v.tables|] == CURRENT;
    assert forall i :: 0 <= i < |v.tables| ==> Families(v)[i] == Prefixes(v.tables)[i];
    OrdinaryScalar(v, n);
    VisibleElsewhere(v, cutoff, n);
  }

  lemma RowVisible(v: View, cutoff: nat, i: nat, n: Oid)
    requires Wellformed(v) && i < |v.tables| && n in TableMap(v.includes, v.tables[i])
    ensures n in Ordinary(v) && Ordinary(v)[n] == TableMap(v.includes, v.tables[i])[n]
    ensures n in Visible(v, cutoff) && Visible(v, cutoff)[n] == Built(TableMap(v.includes, v.tables[i])[n])
    ensures v.tables[i].prefix <= n
  {
    TableMapUnder(v.includes, v.tables[i], n);
    OrdinaryInTable(v, i, n);
    assert Families(v)[|v.tables|] == CURRENT && Families(v)[i] == v.tables[i].prefix;
    if CURRENT <= n { Comparable(CURRENT, v.tables[i].prefix, n); }
    VisibleElsewhere(v, cutoff, n);
  }

  // ---------------------------------------------------------------------------------------------
  // GET
  // ---------------------------------------------------------------------------------------------

  ghost predicate Known(v: View, name: Oid) {
    || (exists i :: 0 <= i < |v.scalars| && v.scalars[i].base <= name)
    || (exists i, c :: 0 <= i < |v.tables| && c in v.tables[i].columns && Column(v.tables[i].prefix, c) <= name)
    || (exists c: nat :: 3 <= c <= 7 && Column(CURRENT, c) <= name)
  }

  /** What GET answers, by the plain enumeration. */
  ghost function Lookup(v: View, name: Oid): Answer {
    if !Allowed(v.includes, name) || !Known(v, name) then NoSuchObject(name)
    else if name in Visible(v, Cutoff(name)) then Found(name, Visible(v, Cutoff(name))[name])
    else NoSuchInstance(name)
  }

  lemma VisibleKnown(v: View, cutoff: nat, n: Oid)
    requires Wellformed(v) && n in Visible(v, cutoff)
    ensures Known(v, n)
  {
    if CURRENT <= n {
      VisibleUnderCurrent(v, cutoff, n);
      CurrentMapUnder(v, cutoff, n);
    } else {
      VisibleElsewhere(v, cutoff, n);
      if i :| 0 <= i < |v.tables| && v.tables[i].prefix <= n {
        OrdinaryInTable(v, i, n);
        TableMapUnder(v.includes, v.tables[i], n);
      } else {
        OrdinaryScalar(v, n);
        ScalarMapClear(v, n);
      }
    }
  }

  /** GET on a name that GETNEXT returned answers with the value GETNEXT returned. */
  lemma GetAgreesWithNext(v: View, name: Oid)
    requires Wellformed(v) && Successor(Visible(v, Cutoff(name)), name).Found?
    ensures var r := Successor(Visible(v, Cutoff(name)), name); Lookup(v, r.name) == r
  {
    var n := Successor(Visible(v, Cutoff(name)), name).name;
    VisibleCases(v, Cutoff(name), n);
    VisibleKnown(v, Cutoff(name), n);
    if !(CURRENT <= n) {
      VisibleElsewhere(v, Cutoff(name), n);
      VisibleElsewhere(v, 0, n);
    }
  }

  // ---------------------------------------------------------------------------------------------
  // Walks
  // ---------------------------------------------------------------------------------------------

  lemma NextShrinks(visible: map<Oid, Value>, name: Oid)
    requires Successor(visible, name).Found?
    ensures |Above(visible, Successor(visible, name).name)| < |Above(visible, name)|
    ensures Above(visible, name) == {Successor(visible, name).name} + Above(visible, Successor(visible, name).name)
  {
    var n := Successor(visible, name).name;
    Irreflexive(n);
    forall k | k in visible
      ensures Less(n, k) ==> Less(name, k)
      ensures Less(name, k) ==> k == n || Less(n, k)
    {
      if Less(n, k) { Transitive(name, n, k); }
    }
    assert Above(visible, n) == Above(visible, name) - {n};
  }

  lemma NextCutoff(v: View, name: Oid)
    requires Wellformed(v) && Cutoff(name) == 0 && Successor(Visible(v, 0), name).Found?
    ensures Cutoff(Successor(Visible(v, 0), name).name) == 0
  {
    VisibleCases(v, 0, Successor(Visible(v, 0), name).name);
  }

  /** The names a manager receives by repeating GETNEXT from a name without a time cutoff, to the end of the view. */
  ghost function Walk(v: View, name: Oid): seq<Oid>
    requires Wellformed(v) && Cutoff(name) == 0
    decreases |Above(Visible(v, 0), name)|
  {
    var r := Successor(Visible(v, Cutoff(name)), name);
    if r.Found? then
      NextShrinks(Visible(v, 0), name);
      NextCutoff(v, name);
      [r.name] + Walk(v, r.name)
    else []
  }

  ghost predicate Increasing(names: seq<Oid>) {
    forall i, j :: 0 <= i < j < |names| ==> Less(names[i], names[j])
  }

  lemma Prepended(first: Oid, rest: seq<Oid>)
    requires Increasing(rest) && forall k :: k in rest ==> Less(first, k)
    ensures Increasing([first] + rest)
  {
  }

  /** A walk ends, in strictly increasing order, having visited exactly the visible names above its start. */
  lemma {:induction false} WalkVisitsAll(v: View, name: Oid)
    requires Wellformed(v) && Cutoff(name) == 0
    ensures Increasing(Walk(v, name))
    ensures forall k :: k in Walk(v, name) <==> k in Above(Visible(v, 0), name)
    decreases |Above(Visible(v, 0), name)|
  {
    var visible := Visible(v, 0);
    var r := Successor(visible, name);
    if r.Found? {
      NextShrinks(visible, name);
      NextCutoff(v, name);
      WalkVisitsAll(v, r.name);
      Prepended(r.name, Walk(v, r.name));
    }
  }

  /** From the root it visits every ordinary object and every current row of cutoff zero. */
  lemma WalkFromRoot(v: View)
    requires Wellformed(v)
    ensures Increasing(Walk(v, []))
    ensures forall k :: k in Walk(v, []) <==> k in Ordinary(v) || k in CurrentMap(v, 0)
  {
    WalkVisitsAll(v, []);
    forall k | k in Visible(v, 0) ensures Less([], k) {
      VisibleCases(v, 0, k);
      if k in ScalarMap(v) { ScalarMapClear(v, k); }
      assert !Clear(Families(v), k) ==> exists i :: 0 <= i < |Families(v)| && Families(v)[i] <= k;
      forall i | 0 <= i < |v.tables| ensures Families(v)[i] != [] { assert Families(v)[i] == v.tables[i].prefix; }
      assert Families(v)[|v.tables|] == CURRENT;
    }
  }
}
