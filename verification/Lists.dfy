/** Lists of VLAN numbers without duplicates, and least elements of sets of identifiers. */
module Lists {

  predicate NoDuplicates<T(==)>(s: seq<T>) {
    forall i, j :: 0 <= i < j < |s| ==> s[i] != s[j]
  }

  /** The list without the numbers of a set, in its order. */
  function Without(s: seq<int>, gone: set<int>): (r: seq<int>)
    ensures forall v :: v in r <==> v in s && v !in gone
    ensures NoDuplicates(s) ==> NoDuplicates(r)
    ensures (forall v :: v in s ==> v !in gone) ==> r == s
  {
    if s == [] then [] else
    var last := |s| - 1;
    var rest := Without(s[..last], gone);
    assert forall v :: v in s <==> v in s[..last] || v == s[last];
    assert NoDuplicates(s) ==> s[last] !in s[..last];
    if s[last] in gone then rest else rest + [s[last]]
  }

  /** The list with a number appended, unless it is there already. */
  function With(s: seq<int>, v: int): (r: seq<int>)
    ensures forall w :: w in r <==> w in s || w == v
    ensures NoDuplicates(s) ==> NoDuplicates(r)
    ensures v in s ==> r == s
  {
    if v in s then s else s + [v]
  }

  /** The list without a number that it holds at most once. */
  function Drop(s: seq<int>, v: int): (r: seq<int>)
    ensures forall w :: w in r <==> w in s && w != v
    ensures NoDuplicates(s) ==> NoDuplicates(r)
    ensures v !in s ==> r == s
  {
    Without(s, {v})
  }

  ghost predicate Ascending(s: seq<int>) {
    forall i, j :: 0 <= i < j < |s| ==> s[i] < s[j]
  }

  function Insert(s: seq<int>, v: int): (r: seq<int>)
    requires Ascending(s)
    ensures Ascending(r) && forall w :: w in r <==> w in s || w == v
  {
    if s == [] then [v]
    else if v < s[0] then [v] + s
    else if v == s[0] then s
    else
      var rest := Insert(s[1..], v);
      assert forall w :: w in s <==> w == s[0] || w in s[1..];
      assert forall i :: 0 <= i < |rest| ==> rest[i] in rest && s[0] < rest[i];
      [s[0]] + rest
  }

  /** The distinct numbers of a list, in ascending order. */
  function Sorted(s: seq<int>): (r: seq<int>)
    ensures Ascending(r) && NoDuplicates(r) && forall w :: w in r <==> w in s
  {
    if s == [] then [] else
    var last := |s| - 1;
    assert forall v :: v in s <==> v in s[..last] || v == s[last];
    Insert(Sorted(s[..last]), s[last])
  }

  ghost predicate IsLeast(k: nat, ids: set<nat>) {
    k in ids && forall j :: j in ids ==> k <= j
  }

  lemma {:induction false} LeastExists(ids: set<nat>, some: nat)
    requires some in ids
    ensures exists k :: IsLeast(k, ids)
    decreases some
  {
    if j :| j in ids && j < some {
      LeastExists(ids, j);
    } else {
      assert IsLeast(some, ids);
    }
  }

  function Least(ids: set<nat>): (k: nat)
    requires ids != {}
    ensures k in ids && forall j :: j in ids ==> k <= j
  {
    assert exists k :: IsLeast(k, ids) by { var some :| some in ids; LeastExists(ids, some); }
    var k :| k in ids && forall j :: j in ids ==> k <= j;
    k
  }
}
