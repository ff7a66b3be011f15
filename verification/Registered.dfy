/** The families and scalars that the index registers, and their disjointness. */
module Registered {
  import opened Names
  import opened MibView

  /** Every registered table, scalar and the current-VLAN table, in lexicographic order. */
  const OBJECTS: seq<Oid> := [
    [1, 0, 8802, 1, 1, 1, 1, 1, 1],
    [1, 0, 8802, 1, 1, 1, 1, 1, 2, 1],
    [1, 0, 8802, 1, 1, 1, 1, 2, 1, 1],
    [1, 0, 8802, 1, 1, 1, 1, 2, 2, 1],
    [1, 0, 8802, 1, 1, 1, 1, 2, 3, 1],
    [1, 0, 8802, 1, 1, 1, 1, 2, 4, 1],
    [1, 3, 6, 1, 2, 1, 1, 1],
    [1, 3, 6, 1, 2, 1, 1, 2],
    [1, 3, 6, 1, 2, 1, 1, 3],
    [1, 3, 6, 1, 2, 1, 1, 4],
    [1, 3, 6, 1, 2, 1, 1, 5],
    [1, 3, 6, 1, 2, 1, 1, 6],
    [1, 3, 6, 1, 2, 1, 1, 7],
    [1, 3, 6, 1, 2, 1, 2, 1],
    [1, 3, 6, 1, 2, 1, 2, 2, 1],
    [1, 3, 6, 1, 2, 1, 17, 1, 1],
    [1, 3, 6, 1, 2, 1, 17, 1, 2],
    [1, 3, 6, 1, 2, 1, 17, 1, 3],
    [1, 3, 6, 1, 2, 1, 17, 1, 4, 1],
    [1, 3, 6, 1, 2, 1, 17, 4, 1],
    [1, 3, 6, 1, 2, 1, 17, 4, 2],
    [1, 3, 6, 1, 2, 1, 17, 4, 3, 1],
    [1, 3, 6, 1, 2, 1, 17, 7, 1, 1, 1],
    [1, 3, 6, 1, 2, 1, 17, 7, 1, 1, 2],
    [1, 3, 6, 1, 2, 1, 17, 7, 1, 1, 3],
    [1, 3, 6, 1, 2, 1, 17, 7, 1, 1, 4],
    [1, 3, 6, 1, 2, 1, 17, 7, 1, 1, 5],
    [1, 3, 6, 1, 2, 1, 17, 7, 1, 2, 1, 1],
    [1, 3, 6, 1, 2, 1, 17, 7, 1, 2, 2, 1],
    [1, 3, 6, 1, 2, 1, 17, 7, 1, 4, 1],
    [1, 3, 6, 1, 2, 1, 17, 7, 1, 4, 2, 1],
    [1, 3, 6, 1, 2, 1, 17, 7, 1, 4, 3, 1],
    [1, 3, 6, 1, 2, 1, 17, 7, 1, 4, 5, 1],
    [1, 3, 6, 1, 2, 1, 31, 1, 1, 1],
    [1, 3, 6, 1, 2, 1, 47, 1, 1, 1, 1],
    [1, 3, 6, 1, 2, 1, 47, 1, 3, 2, 1],
    [1, 3, 6, 1, 2, 1, 47, 1, 3, 3, 1],
    [1, 3, 6, 1, 2, 1, 47, 1, 4, 1]]

  /** Where each of them first differs from the next. */
  const STEPS: seq<nat> := [
    8, 7, 8, 8, 8, 1, 7, 7, 7, 7, 7, 7, 6, 7, 6, 8, 8, 8, 7,
    8, 8, 7, 10, 10, 10, 10, 9, 10, 9, 10, 10, 10, 6, 6, 8, 9, 8]

  ghost predicate PrecedesAt(p: Oid, q: Oid, i: nat) {
    i < |p| && i < |q| && p[..i] == q[..i] && p[i] < q[i]
  }

  ghost predicate Precedes(p: Oid, q: Oid) {
    exists i: nat :: PrecedesAt(p, q, i)
  }

  lemma PrecedesChains(p: Oid, q: Oid, r: Oid)
    requires Precedes(p, q) && Precedes(q, r)
    ensures Precedes(p, r)
  {
    var i: nat, j: nat :| PrecedesAt(p, q, i) && PrecedesAt(q, r, j);
    var k := if i < j then i else j;
    assert p[..k] == p[..i][..k] == q[..k] == q[..j][..k] == r[..k];
    assert i < j ==> q[..j][i] == r[..j][i];
    assert j < i ==> p[..i][j] == q[..i][j];
    assert PrecedesAt(p, r, k);
  }

  lemma FirstSteps()
    ensures forall k :: 0 <= k < 13 ==> PrecedesAt(OBJECTS[k], OBJECTS[k + 1], STEPS[k])
  {
  }

  lemma MiddleSteps()
    ensures forall k :: 13 <= k < 26 ==> PrecedesAt(OBJECTS[k], OBJECTS[k + 1], STEPS[k])
  {
  }

  lemma LastSteps()
    ensures forall k :: 26 <= k < 37 ==> PrecedesAt(OBJECTS[k], OBJECTS[k + 1], STEPS[k])
  {
  }

  lemma NextPrecedes(k: nat)
    requires k < |OBJECTS| - 1
    ensures Precedes(OBJECTS[k], OBJECTS[k + 1])
  {
    FirstSteps();
    MiddleSteps();
    LastSteps();
    assert PrecedesAt(OBJECTS[k], OBJECTS[k + 1], STEPS[k]);
  }

  lemma {:induction false} LaterPrecedes(i: nat, j: nat)
    requires i < j < |OBJECTS|
    ensures Precedes(OBJECTS[i], OBJECTS[j])
    decreases j
  {
    NextPrecedes(j - 1);
    if i < j - 1 {
      LaterPrecedes(i, j - 1);
      PrecedesChains(OBJECTS[i], OBJECTS[j - 1], OBJECTS[j]);
    }
  }

  /** No registered object is a prefix of another. */
  lemma ObjectsApart()
    ensures Antichain(OBJECTS)
  {
    forall i, j | 0 <= i < |OBJECTS| && 0 <= j < |OBJECTS| && i != j ensures !(OBJECTS[i] <= OBJECTS[j]) {
      if i < j { LaterPrecedes(i, j); } else { LaterPrecedes(j, i); }
    }
  }

  ghost predicate FromRegistry(v: View) {
    && (forall i :: 0 <= i < |v.tables| ==> v.tables[i].prefix in OBJECTS && v.tables[i].prefix != CURRENT && Declared(v.tables[i]))
    && (forall i, j :: 0 <= i < j < |v.tables| ==> v.tables[i].prefix != v.tables[j].prefix)
    && (forall i :: 0 <= i < |v.scalars| ==> v.scalars[i].base in OBJECTS && v.scalars[i].base != [])
    && (forall i :: 0 <= i < |v.scalars| ==> v.scalars[i].base !in Families(v))
  }

  lemma ObjectApart(p: Oid, q: Oid)
    requires p in OBJECTS && q in OBJECTS && p != q
    ensures !(p <= q)
  {
    ObjectsApart();
    var i :| 0 <= i < |OBJECTS| && OBJECTS[i] == p;
    var j :| 0 <= j < |OBJECTS| && OBJECTS[j] == q;
  }

  lemma Incomparable(p: Oid, q: Oid, name: Oid)
    requires q <= name && !(p <= q) && !(q <= p)
    ensures !(p <= name)
  {
    assert |p| <= |q| ==> name[..|p|] == q[..|p|];
    assert |q| <= |p| <= |name| ==> name[..|p|][..|q|] == q;
  }

  /** Whatever subset of the registry is filled, registered families are disjoint and no scalar lies inside one. */
  lemma RegistryWellformed(v: View)
    requires FromRegistry(v)
    ensures Wellformed(v)
  {
    var f := Families(v);
    assert OBJECTS[30] == CURRENT;
    forall i | 0 <= i < |f| ensures f[i] in OBJECTS { assert i < |v.tables| ==> f[i] == v.tables[i].prefix; }
    forall i, j | 0 <= i < |f| && 0 <= j < |f| && i != j ensures !(f[i] <= f[j]) {
      assert i < |v.tables| ==> f[i] == v.tables[i].prefix;
      assert j < |v.tables| ==> f[j] == v.tables[j].prefix;
      ObjectApart(f[i], f[j]);
    }
    forall k, i | 0 <= k < |v.scalars| && 0 <= i < |f| ensures !(f[i] <= v.scalars[k].base + v.scalars[k].suffix) {
      var base, name := v.scalars[k].base, v.scalars[k].base + v.scalars[k].suffix;
      ObjectApart(f[i], base);
      ObjectApart(base, f[i]);
      Incomparable(f[i], base, name);
    }
  }
}
