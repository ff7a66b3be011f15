/** Object names in their lexicographic order, their sorting and bisection, and the interval under a prefix. */
module Names {
  type Oid = seq<nat>

  predicate Less(a: Oid, b: Oid) {
    b != [] && (a == [] || a[0] < b[0] || (a[0] == b[0] && Less(a[1..], b[1..])))
  }

  predicate AtMost(a: Oid, b: Oid) {
    a == b || Less(a, b)
  }

  lemma {:induction false} Irreflexive(a: Oid)
    ensures !Less(a, a)
  {
    if a != [] { Irreflexive(a[1..]); }
  }

  lemma {:induction false} Transitive(a: Oid, b: Oid, c: Oid)
    requires Less(a, b) && Less(b, c)
    ensures Less(a, c)
  {
    if a != [] && a[0] == b[0] == c[0] { Transitive(a[1..], b[1..], c[1..]); }
  }

  lemma {:induction false} Total(a: Oid, b: Oid)
    ensures Less(a, b) || a == b || Less(b, a)
  {
    if a != [] && b != [] && a[0] == b[0] {
      Total(a[1..], b[1..]);
      assert a == [a[0]] + a[1..] && b == [b[0]] + b[1..];
    }
  }

  lemma Chain(a: Oid, b: Oid, c: Oid)
    ensures AtMost(a, b) && Less(b, c) ==> Less(a, c)
    ensures Less(a, b) && AtMost(b, c) ==> Less(a, c)
  {
    if Less(a, b) && Less(b, c) { Transitive(a, b, c); }
  }

  lemma Exclusive(a: Oid, b: Oid)
    ensures !(AtMost(a, b) && Less(b, a))
    ensures AtMost(a, b) || Less(b, a)
  {
    Total(a, b);
    Irreflexive(a);
    if Less(a, b) && Less(b, a) { Transitive(a, b, a); }
  }

  // ---------------------------------------------------------------------------------------------
  // Prefixes
  // ---------------------------------------------------------------------------------------------

  /** The least name above every name under the prefix. */
  function Upper(prefix: Oid): Oid
    requires prefix != []
  {
    prefix[..|prefix| - 1] + [prefix[|prefix| - 1] + 1]
  }

  /** Every name under a prefix lies between it and its upper bound. */
  lemma {:induction false} UnderInterval(name: Oid, prefix: Oid)
    requires prefix != [] && prefix <= name
    ensures AtMost(prefix, name) && Less(name, Upper(prefix))
  {
    if |prefix| > 1 {
      UnderInterval(name[1..], prefix[1..]);
      assert Upper(prefix)[1..] == Upper(prefix[1..]);
      assert prefix == [prefix[0]] + prefix[1..] && name == [name[0]] + name[1..];
    } else {
      assert prefix == [prefix[0]] && name == [name[0]] + name[1..];
    }
  }

  /** Names under two prefixes, neither of which extends the other, are ordered as the prefixes are. */
  lemma {:induction false} ApartOrder(p: Oid, q: Oid, a: Oid, b: Oid)
    requires !(p <= q) && !(q <= p) && Less(p, q) && p <= a && q <= b
    ensures Less(a, b)
  {
    if p[0] == q[0] {
      assert p == [p[0]] + p[1..] && q == [q[0]] + q[1..];
      ApartOrder(p[1..], q[1..], a[1..], b[1..]);
    }
  }

  /** Two prefixes of one name are prefixes one of the other. */
  lemma Comparable(p: Oid, q: Oid, name: Oid)
    requires p <= name && q <= name
    ensures p <= q || q <= p
  {
    if |p| <= |q| {
      assert p == name[..|p|] == q[..|p|];
    } else {
      assert q == name[..|q|] == p[..|q|];
    }
  }

  // ---------------------------------------------------------------------------------------------
  // Sorted lists of names
  // ---------------------------------------------------------------------------------------------

  ghost predicate Ordered(keys: seq<Oid>) {
    forall i, j :: 0 <= i < j < |keys| ==> AtMost(keys[i], keys[j])
  }

  /** How many of the sorted names are at most the given one. */
  function Bisect(keys: seq<Oid>, name: Oid): (i: nat)
    requires Ordered(keys)
    ensures i <= |keys|
    ensures forall j :: 0 <= j < i ==> AtMost(keys[j], name)
    ensures forall j :: i <= j < |keys| ==> Less(name, keys[j])
  {
    if keys == [] then 0
    else if Less(name, keys[|keys| - 1]) then Bisect(keys[..|keys| - 1], name)
    else
      assert forall j :: 0 <= j < |keys| ==> AtMost(keys[j], name) by {
        forall j | 0 <= j < |keys| ensures AtMost(keys[j], name) {
          Exclusive(keys[|keys| - 1], name);
          Exclusive(keys[j], name);
          Chain(name, keys[j], keys[|keys| - 1]);
        }
      }
      |keys|
  }

  lemma JoinOrdered(low: seq<Oid>, name: Oid, high: seq<Oid>)
    requires Ordered(low) && Ordered(high)
    requires forall k :: k in low ==> AtMost(k, name)
    requires forall k :: k in high ==> Less(name, k)
    ensures Ordered(low + [name] + high)
  {
    forall j, k | j in low && k in high ensures AtMost(j, k) { Chain(j, name, k); }
  }

  function Insert(keys: seq<Oid>, name: Oid): (r: seq<Oid>)
    requires Ordered(keys)
    ensures Ordered(r) && multiset(r) == multiset(keys) + multiset{name}
  {
    var i := Bisect(keys, name);
    JoinOrdered(keys[..i], name, keys[i..]);
    assert keys == keys[..i] + keys[i..];
    keys[..i] + [name] + keys[i..]
  }

  /** The names in their order, each as often as before. */
  function Sorted(names: seq<Oid>): (r: seq<Oid>)
    ensures Ordered(r) && multiset(r) == multiset(names)
  {
    if names == [] then [] else
    assert names == names[..|names| - 1] + [names[|names| - 1]];
    Insert(Sorted(names[..|names| - 1]), names[|names| - 1])
  }

  lemma SortedMembers(names: seq<Oid>)
    ensures forall n :: n in Sorted(names) <==> n in names
  {
    forall n ensures n in Sorted(names) <==> n in names {
      assert n in multiset(Sorted(names)) <==> n in multiset(names);
    }
  }

  lemma BisectLeast(keys: seq<Oid>, name: Oid)
    requires Ordered(keys)
    ensures var i := Bisect(keys, name);
            if i < |keys| then Less(name, keys[i]) && forall k :: k in keys && Less(name, k) ==> AtMost(keys[i], k)
            else forall k :: k in keys ==> !Less(name, k)
  {
    var i := Bisect(keys, name);
    forall k | k in keys && Less(name, k)
      ensures i < |keys| && AtMost(keys[i], k)
    {
      var j :| 0 <= j < |keys| && keys[j] == k;
      Exclusive(k, name);
    }
  }
}
