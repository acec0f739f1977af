/** Optional values, and lists without repetitions. */
module Lists {

  datatype Option<T> = None | Some(value: T)

  predicate Distinct<T(==)>(l: seq<T>) {
    l == [] || (l[0] !in l[1..] && Distinct(l[1..]))
  }

  /** The list without its first x. */
  function Without<T(==)>(l: seq<T>, x: T): seq<T> {
    if l == [] then [] else if l[0] == x then l[1..] else [l[0]] + Without(l[1..], x)
  }

  lemma {:induction false} WithoutMembers<T>(l: seq<T>, x: T)
    requires Distinct(l)
    ensures Distinct(Without(l, x))
    ensures x !in l ==> Without(l, x) == l
    ensures forall y :: y in Without(l, x) <==> y in l && y != x
  {
    if l != [] {
      assert l == [l[0]] + l[1..];
      WithoutMembers(l[1..], x);
      if l[0] != x {
        assert Without(l, x)[1..] == Without(l[1..], x);
      }
    }
  }

  lemma {:induction false} DistinctSnoc<T>(l: seq<T>, x: T)
    requires Distinct(l) && x !in l
    ensures Distinct(l + [x])
  {
    if l != [] {
      DistinctSnoc(l[1..], x);
      assert (l + [x])[1..] == l[1..] + [x];
    }
  }

  lemma {:induction false} DistinctAt<T>(l: seq<T>, p: nat, q: nat)
    requires Distinct(l) && p < q < |l|
    ensures l[p] != l[q]
  {
    if p > 0 {
      DistinctAt(l[1..], p - 1, q - 1);
    } else {
      assert l[q] in l[1..];
    }
  }

  lemma Assoc<T>(a: seq<T>, b: seq<T>, c: seq<T>)
    ensures a + b + c == a + (b + c)
  {
  }
}
