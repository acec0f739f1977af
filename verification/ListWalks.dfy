/** Walking over a list while the visits change it, as list_for_each_entry_safe does: the successor of an entry
    is read before the entry is visited. */
module ListWalks {
  import opened Lists

  function FirstOf<I>(l: seq<I>): Option<I> {
    if l == [] then None else Some(l[0])
  }

  /** The entry after `x`, None at the list head. */
  function NextOf<I(==)>(l: seq<I>, x: I): Option<I> {
    if |l| < 2 then None else if l[0] == x then Some(l[1]) else NextOf(l[1..], x)
  }

  /** The walk from `cursor` on.  `fuel` bounds the visits. */
  function Walk<S, I(==)>(list: S -> seq<I>, visit: (S, I) -> S, s: S, cursor: Option<I>, fuel: nat): S
    decreases fuel
  {
    if cursor.None? || fuel == 0 then s
    else Walk(list, visit, visit(s, cursor.value), NextOf(list(s), cursor.value), fuel - 1)
  }

  /** Every visit of the walk finds its entry as `check` wants it, and the bound on the visits is not reached. */
  predicate Passes<S, I(==)>(list: S -> seq<I>, visit: (S, I) -> S, check: (S, I) -> bool, s: S, cursor: Option<I>,
                             fuel: nat)
    decreases fuel
  {
    cursor.None? || (fuel > 0 && check(s, cursor.value)
                     && Passes(list, visit, check, visit(s, cursor.value), NextOf(list(s), cursor.value), fuel - 1))
  }

  /** The entries of `l`, in order, each visited once. */
  function VisitAll<S, I>(visit: (S, I) -> S, s: S, l: seq<I>): S
    decreases |l|
  {
    if l == [] then s else VisitAll(visit, visit(s, l[0]), l[1..])
  }

  /** As long as `inv` holds with `rest` still to be visited, the list is `rest`, its head is as it should be, and
      visiting it takes it off the list and brings nobody onto it. */
  ghost predicate Shrinks<S(!new), I(!new)>(list: S -> seq<I>, visit: (S, I) -> S, check: (S, I) -> bool,
                                            inv: (S, seq<I>) -> bool)
  {
    forall s, rest :: inv(s, rest) ==>
      list(s) == rest && (rest != [] ==> check(s, rest[0]) && inv(visit(s, rest[0]), rest[1..]))
  }

  /** Then the walk visits exactly the entries that were on the list in the beginning. */
  lemma {:induction false} WalkVisitsSnapshot<S(!new), I(!new)>(
    list: S -> seq<I>, visit: (S, I) -> S, check: (S, I) -> bool, inv: (S, seq<I>) -> bool, s: S, rest: seq<I>,
        fuel: nat)
    requires Shrinks(list, visit, check, inv) && inv(s, rest) && |rest| <= fuel
    ensures Walk(list, visit, s, FirstOf(rest), fuel) == VisitAll(visit, s, rest)
    ensures Passes(list, visit, check, s, FirstOf(rest), fuel)
    ensures inv(VisitAll(visit, s, rest), [])
    decreases |rest|
  {
    if rest != [] {
      assert NextOf(list(s), rest[0]) == FirstOf(rest[1..]);
      WalkVisitsSnapshot(list, visit, check, inv, visit(s, rest[0]), rest[1..], fuel - 1);
    } else {
      assert VisitAll(visit, s, rest) == s && rest == [];
    }
  }
}
