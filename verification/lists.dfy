/** Doubly linked lists, as sequences of the elements they link. */
module Lists {

  ghost predicate Distinct<T>(l: seq<T>) {
    forall i, j | 0 <= i < j < |l| :: l[i] != l[j]
  }

  /** `list_del`: the list without x */
  function Without<T(==)>(l: seq<T>, x: T): seq<T> {
    if l == [] then [] else if l[0] == x then l[1..] else [l[0]] + Without(l[1..], x)
  }

  lemma {:induction false} WithoutIs<T>(l: seq<T>, x: T)
    requires Distinct(l)
    ensures Distinct(Without(l, x))
    ensures forall y :: y in Without(l, x) <==> y in l && y != x
    ensures |Without(l, x)| == |l| - if x in l then 1 else 0
  {
    if l != [] {
      WithoutIs(l[1..], x);
      assert l == [l[0]] + l[1..];
      if l[0] != x {
        var rest := Without(l[1..], x);
        forall i, j | 0 <= i < j < |[l[0]] + rest|
          ensures ([l[0]] + rest)[i] != ([l[0]] + rest)[j]
        {
          assert i == 0 ==> rest[j - 1] in rest;
        }
      }
    }
  }

  lemma AppendDistinct<T>(l: seq<T>, x: T)
    requires Distinct(l) && x !in l
    ensures Distinct(l + [x]) && Distinct([x] + l)
    ensures forall y :: y in l + [x] <==> y in l || y == x
    ensures forall y :: y in [x] + l <==> y in l || y == x
  {
  }

  lemma SubsetSize<T>(a: set<T>, b: set<T>)
    requires a <= b
    ensures |a| <= |b|
  {
    assert |b - a| == |b| - |a|;
  }

  /** A list without duplicates has as many elements as its set. */
  lemma {:induction false} DistinctSize<T>(l: seq<T>)
    requires Distinct(l)
    ensures |set x | x in l| == |l|
  {
    if l != [] {
      DistinctSize(l[1..]);
      assert (set x | x in l) == {l[0]} + (set x | x in l[1..]);
    } else {
      assert (set x | x in l) == {};
    }
  }
}
