/** Chained bios, over whole runs: when a bio ends, which errors reach it, and that every call returns. */
module BioChainRuns {
  import opened Lists
  import opened BioChains

  // ---------------------------------------------------------------------------------------------
  // When a bio ends
  // ---------------------------------------------------------------------------------------------

  /** c is b, or chained to it directly or indirectly. */
  predicate Under(s: Forest, c: Id, b: Id)
    requires Rooted(s) && c in s
    decreases c
  {
    c == b || (s[c].parent.Some? && Under(s, s[c].parent.value, b))
  }

  lemma {:induction false} UnderTrans(s: Forest, x: Id, c: Id, b: Id)
    requires Rooted(s) && x in s && c in s && Under(s, x, c) && Under(s, c, b)
    ensures Under(s, x, b)
    decreases x
  {
    if x != c {
      UnderTrans(s, s[x].parent.value, c, b);
    }
  }

  /** All there is to hear of c has arrived where b waits for it. */
  predicate Arrived(s: Forest, c: Id, b: Id)
    requires c in s
  {
    s[c].own.Gone? && (c != b ==> s[c].up.Gone?)
  }

  lemma {:induction false} EndedBelow(s: Forest, c: Id, b: Id)
    requires Counted(s) && c in s && b in s && s[b].Ended() && Under(s, c, b)
    ensures s[c].Ended() && Arrived(s, c, b)
    decreases c
  {
    assert CountOk(s, c);
    if c != b {
      var p := s[c].parent.value;
      EndedBelow(s, p, b);
      assert CountOk(s, p);
      assert c !in Pending(s, p);
    }
  }

  /** A bio that has not ended waits for something that has not arrived. */
  lemma WaitsForOne(s: Forest, b: Id) returns (c: Id)
    requires b in s && CountOk(s, b) && Rooted(s) && !s[b].Ended()
    ensures c in s && Under(s, c, b) && !Arrived(s, c, b)
  {
    c := b;
    if s[b].own.Gone? {
      c :| c in Pending(s, b);
    }
  }

  lemma EndedIff(s: Forest, b: Id)
    requires Counted(s) && b in s
    ensures s[b].Ended() <==> forall c :: c in s && Under(s, c, b) ==> Arrived(s, c, b)
  {
    if s[b].Ended() {
      forall c | c in s && Under(s, c, b) ensures Arrived(s, c, b) {
        EndedBelow(s, c, b);
      }
    } else {
      var c := WaitsForOne(s, b);
    }
  }

  /** Of c nothing is on its way to b any more. */
  predicate AtRest(s: Forest, c: Id, b: Id)
    requires c in s
  {
    !Moving(s[c].own) && (c != b ==> !Moving(s[c].up))
  }

  /** When every owner at or under b has reported and no call is on its way there, b has ended. */
  lemma {:induction false} EndsAtRest(s: Forest, b: Id, bound: nat)
    requires Counted(s) && b in s && (forall c :: c in s ==> c <= bound)
    requires forall c :: c in s && Under(s, c, b) ==> !s[c].own.Idle? && AtRest(s, c, b)
    ensures s[b].Ended()
    decreases bound - b
  {
    assert CountOk(s, b) && StagesOk(s[b]);
    if !s[b].Ended() {
      assert Under(s, b, b) && s[b].own.Gone?;
      var c :| c in Pending(s, b);
      assert Under(s, c, b) && CountOk(s, c);
      forall x | x in s && Under(s, x, c) ensures !s[x].own.Idle? && AtRest(s, x, c) {
        UnderTrans(s, x, c, b);
      }
      EndsAtRest(s, c, bound);
    }
  }

  // ---------------------------------------------------------------------------------------------
  // Which errors arrive
  // ---------------------------------------------------------------------------------------------

  /** No status is lost from c up to b. */
  predicate Intact(s: Forest, c: Id, b: Id)
    requires Rooted(s) && c in s
    decreases c
  {
    !s[c].lost && (c == b || (s[c].parent.Some? && Intact(s, s[c].parent.value, b)))
  }

  lemma {:induction false} IntactAbove(s: Forest, x: Id, c: Id, b: Id)
    requires Rooted(s) && x in s && c in s && Intact(s, x, c) && Intact(s, c, b)
    ensures Intact(s, x, b)
    decreases x
  {
    if x != c {
      IntactAbove(s, s[x].parent.value, c, b);
    }
  }

  lemma {:induction false} IntactIsUnder(s: Forest, c: Id, b: Id)
    requires Rooted(s) && c in s && Intact(s, c, b)
    ensures Under(s, c, b)
    decreases c
  {
    if c != b {
      IntactIsUnder(s, s[c].parent.value, b);
    }
  }

  /** Every error status comes from an owner that reported one. */
  lemma {:induction false} ErrorHasCause(s: Forest, b: Id, bound: nat) returns (c: Id)
    requires Inv(s) && b in s && s[b].error && forall x :: x in s ==> x <= bound
    ensures c in s && s[c].failed && Intact(s, c, b)
    decreases bound - b
  {
    assert StatusOk(s, b);
    if s[b].failed {
      c := b;
    } else {
      var d :| d in s && s[d].parent == Some(b) && s[d].Passed() && s[d].error;
      assert StatusOk(s, d);
      c := ErrorHasCause(s, d, bound);
      IntactAbove(s, c, d, b);
    }
  }

  lemma {:induction false} ErrorArrives(s: Forest, c: Id, b: Id)
    requires Inv(s) && c in s && b in s && s[b].Ended() && s[c].error && Intact(s, c, b)
    ensures s[b].error
    decreases c
  {
    if c != b {
      var p := s[c].parent.value;
      IntactIsUnder(s, c, b);
      EndedBelow(s, c, b);
      assert s[c].Passed();
      assert StatusOk(s, p);
      ErrorArrives(s, p, b);
    }
  }

  lemma StatusIff(s: Forest, b: Id, bound: nat)
    requires Inv(s) && b in s && s[b].Ended() && forall x :: x in s ==> x <= bound
    ensures s[b].error <==> exists c :: c in s && s[c].failed && Intact(s, c, b)
  {
    if s[b].error {
      var c := ErrorHasCause(s, b, bound);
    }
    forall c | c in s && s[c].failed && Intact(s, c, b) ensures s[b].error {
      assert StatusOk(s, c);
      ErrorArrives(s, c, b);
    }
  }

  /** The status of b tells whether an owner at or under b reported an error. */
  ghost predicate Exact(s: Forest, b: Id)
    requires Rooted(s) && b in s
  {
    s[b].error <==> exists c :: c in s && Under(s, c, b) && s[c].failed
  }

  lemma LostIsWrong(s: Forest, b: Id, bound: nat)
    requires Inv(s) && b in s && s[b].lost && forall x :: x in s ==> x <= bound
    ensures !Exact(s, b)
  {
    assert StatusOk(s, b);
    if s[b].failed {
      assert Under(s, b, b);
    } else {
      var d :| d in s && s[d].parent == Some(b) && s[d].Passed() && s[d].error;
      var c := ErrorHasCause(s, d, bound);
      IntactIsUnder(s, c, d);
      assert Under(s, d, b);
      UnderTrans(s, c, d, b);
    }
  }

  lemma {:induction false} IntactWhenNoneLost(s: Forest, c: Id, b: Id)
    requires Rooted(s) && c in s && Under(s, c, b) && forall x :: x in s && Under(s, x, b) ==> !s[x].lost
    ensures Intact(s, c, b)
    decreases c
  {
    if c != b {
      IntactWhenNoneLost(s, s[c].parent.value, b);
    }
  }

  lemma ExactWhenNoneLost(s: Forest, b: Id, bound: nat)
    requires Inv(s) && b in s && s[b].Ended() && forall x :: x in s ==> x <= bound
    requires forall x :: x in s && Under(s, x, b) ==> !s[x].lost
    ensures Exact(s, b)
  {
    StatusIff(s, b, bound);
    forall c | c in s && s[c].failed ensures Intact(s, c, b) <==> Under(s, c, b) {
      if Intact(s, c, b) {
        IntactIsUnder(s, c, b);
      } else if Under(s, c, b) {
        IntactWhenNoneLost(s, c, b);
      }
    }
  }

  lemma {:induction false} Bounded(ids: set<Id>) returns (bound: nat)
    ensures forall x :: x in ids ==> x <= bound
    decreases ids
  {
    if ids == {} {
      bound := 0;
    } else {
      var x :| x in ids;
      var m := Bounded(ids - {x});
      bound := if m < x then x else m;
      assert ids == (ids - {x}) + {x};
    }
  }

  // ---------------------------------------------------------------------------------------------
  // Every run
  // ---------------------------------------------------------------------------------------------

  /** bio_remaining_done finds the count of b positive, whoever is about to check it. */
  ghost predicate NoBug(s: Forest, b: Id)
    requires b in s
  {
    && (s[b].own.Drop? ==> s[b].remaining > 0)
    && forall c :: c in s && s[c].parent == Some(b) && s[c].up.Drop? ==> s[b].remaining > 0
  }

  lemma BugsUnreachable(s: Forest, b: Id)
    requires Counted(s) && b in s
    ensures NoBug(s, b)
  {
    assert CountOk(s, b);
    forall c | c in s && s[c].parent == Some(b) && s[c].up.Drop? ensures s[b].remaining > 0 {
      assert c in Pending(s, b);
    }
  }

  /** For every forest and every interleaving of chaining and of any number of bio_endio calls: a bio ends at
      most once, and is then no longer marked as one that waits; it has ended iff the calls for it and for everything
      chained to it, directly or indirectly, have been delivered; the count is positive wherever it is checked; an
      error status always comes from an owner that reported one; and the status of an ended bio is an error iff some
      owner at or under it reported one and it was not lost on the way up. */
  lemma EveryRun(run: seq<Op>, b: Id)
    requires Legal(map[], run) && b in Exec(map[], run)
    ensures
      var s := Exec(map[], run);
      && Rooted(s)
      && s[b].ends <= 1 && (s[b].Ended() ==> !s[b].chained)
      && (s[b].Ended() <==> forall c :: c in s && Under(s, c, b) ==> Arrived(s, c, b))
      && NoBug(s, b)
      && (s[b].error ==> exists c :: c in s && Under(s, c, b) && s[c].failed)
      && (s[b].Ended() ==> (s[b].error <==> exists c :: c in s && s[c].failed && Intact(s, c, b)))
  {
    var s := Exec(map[], run);
    RunKeepsInv(map[], run);
    var bound := Bounded(s.Keys);
    assert CountOk(s, b);
    EndedIff(s, b);
    BugsUnreachable(s, b);
    if s[b].error {
      var c := ErrorHasCause(s, b, bound);
      IntactIsUnder(s, c, b);
    }
    if s[b].Ended() {
      StatusIff(s, b, bound);
    }
  }

  /** The statuses of all ended bios are right iff none of them is lost. */
  lemma AllExactIff(run: seq<Op>)
    requires Legal(map[], run)
    ensures
      var s := Exec(map[], run);
      && Rooted(s)
      && ((forall b :: b in s && s[b].Ended() ==> Exact(s, b)) <==> (forall b :: b in s && s[b].Ended() ==> !s[b].lost))
  {
    var s := Exec(map[], run);
    RunKeepsInv(map[], run);
    var bound := Bounded(s.Keys);
    forall b | b in s && s[b].Ended() && s[b].lost ensures !Exact(s, b) {
      LostIsWrong(s, b, bound);
    }
    if forall b :: b in s && s[b].Ended() ==> !s[b].lost {
      forall b | b in s && s[b].Ended() ensures Exact(s, b) {
        forall x | x in s && Under(s, x, b) ensures !s[x].lost {
          EndedBelow(s, x, b);
        }
        ExactWhenNoneLost(s, b, bound);
      }
    }
  }

  /** The step writes an OK status over an error that arrived after the writer had read the status. */
  predicate Clobbers(s: Forest, op: Op) {
    && op.Up? && op.c in s && s[op.c].up.Write? && !s[op.c].error
    && s[op.c].parent.Some? && s[op.c].parent.value in s && s[s[op.c].parent.value].error
  }

  predicate Careful(s: Forest, run: seq<Op>)
    requires Legal(s, run)
    decreases |run|
  {
    run == [] || (!Clobbers(s, run[0]) && Careful(Apply(s, run[0]), run[1..]))
  }

  predicate NoneLost(s: Forest) {
    forall b :: b in s ==> !s[b].lost
  }

  /** A status is lost in no other way. */
  lemma OnlyClobbersLose(s: Forest, op: Op, b: Id)
    requires Enabled(s, op) && b in Apply(s, op) && Apply(s, op)[b].lost
    ensures b in s && (s[b].lost || (Clobbers(s, op) && s[op.c].parent == Some(b)))
  {
  }

  lemma {:induction false} CarefulLosesNothing(s: Forest, run: seq<Op>)
    requires Legal(s, run) && Careful(s, run) && NoneLost(s)
    ensures NoneLost(Exec(s, run))
    decreases |run|
  {
    if run != [] {
      forall b | b in Apply(s, run[0]) ensures !Apply(s, run[0])[b].lost {
        if Apply(s, run[0])[b].lost {
          OnlyClobbersLose(s, run[0], b);
        }
      }
      CarefulLosesNothing(Apply(s, run[0]), run[1..]);
    }
  }

  /** As long as no OK status is written over an error, a bio that has ended has an error status iff an owner
      at or under it reported one. */
  lemma CarefulIsExact(run: seq<Op>, b: Id)
    requires Legal(map[], run) && Careful(map[], run)
    requires b in Exec(map[], run) && Exec(map[], run)[b].Ended()
    ensures Rooted(Exec(map[], run)) && Exact(Exec(map[], run), b)
  {
    var s := Exec(map[], run);
    RunKeepsInv(map[], run);
    CarefulLosesNothing(map[], run);
    var bound := Bounded(s.Keys);
    ExactWhenNoneLost(s, b, bound);
  }

  // ---------------------------------------------------------------------------------------------
  // Calls that do not get in each other's way
  // ---------------------------------------------------------------------------------------------

  /** c has read the status of its parent and not yet written it, and now another notice takes a step at that parent,
      or the owner of the parent reports. */
  predicate Disturbs(s: Forest, op: Op, c: Id)
    requires c in s
  {
    && s[c].up.Write? && s[c].parent.Some?
    && match op
       case Report(b, _) => s[c].parent == Some(b)
       case Up(d) => d != c && d in s && s[d].parent == s[c].parent
       case _ => false
  }

  /** Reading and writing the status of a parent is never disturbed. */
  predicate OneByOne(s: Forest, run: seq<Op>)
    requires Legal(s, run)
    decreases |run|
  {
    run == [] || ((forall c :: c in s ==> !Disturbs(s, run[0], c)) && OneByOne(Apply(s, run[0]), run[1..]))
  }

  /** What c read is still so: whoever is about to write a status writes it over OK. */
  predicate StillOk(s: Forest, c: Id)
    requires c in s
  {
    s[c].up.Write? && s[c].parent.Some? && s[c].parent.value in s ==> !s[s[c].parent.value].error
  }

  predicate SameStatus(x: Bio, y: Bio) {
    y.error == x.error && y.lost == x.lost
  }

  /** No error has been lost. */
  predicate NoWorse(x: Bio, y: Bio) {
    (x.error ==> y.error) && (y.lost ==> x.lost)
  }

  predicate AllNoWorse(s: Forest, r: Forest) {
    r.Keys == s.Keys && forall x :: x in s ==> NoWorse(s[x], r[x])
  }

  /** What one access did to the statuses. */
  predicate StatusAfter(s: Forest, r: Forest, c: Id, p: Id) {
    && c in s && p in s && c in r && p in r && SameStatus(s[c], r[c])
    && (s[c].up.Look? ==> r[p] == s[p] && (r[c].up.Write? <==> !s[p].error))
    && (s[c].up.Write? ==> r[p].error == s[c].error && (r[p].lost <==> !s[c].error && (s[p].error || s[p].lost)))
    && (s[c].up.Test? || s[c].up.Drop? ==> SameStatus(s[p], r[p]))
  }

  /** What a step at p does to c and p. */
  lemma UpDoes(s: Forest, c: Id, p: Id)
    requires Climbing(s, c, p)
    ensures StatusAfter(s, UpStep(s, c), c, p)
  {
  }

  lemma UpStaysOk(s: Forest, c: Id, p: Id, x: Id)
    requires Climbing(s, c, p) && x in s && StillOk(s, x) && !Disturbs(s, Up(c), x)
    ensures UpStep(s, c).Keys == s.Keys && StillOk(UpStep(s, c), x)
  {
    UpDoes(s, c, p);
  }

  lemma StaysOk(s: Forest, op: Op, x: Id)
    requires Counted(s) && Enabled(s, op) && (forall y :: y in s ==> StillOk(s, y) && !Disturbs(s, op, y))
    requires x in Apply(s, op)
    ensures StillOk(Apply(s, op), x)
  {
    if op.Up? {
      var p := ClimbingIs(s, op.c);
      UpRises(s, op.c, p);
      UpStaysOk(s, op.c, p, x);
    } else if x in s {
      assert CountOk(s, x) && StillOk(s, x) && !Disturbs(s, op, x);
    }
  }

  lemma {:induction false} OneByOneIsCareful(s: Forest, run: seq<Op>)
    requires Inv(s) && Legal(s, run) && OneByOne(s, run) && forall c :: c in s ==> StillOk(s, c)
    ensures Careful(s, run)
    decreases |run|
  {
    if run != [] {
      var r := Apply(s, run[0]);
      forall c | c in r ensures StillOk(r, c) {
        StaysOk(s, run[0], c);
      }
      assert !Clobbers(s, run[0]);
      StepKeepsInv(s, run[0]);
      OneByOneIsCareful(r, run[1..]);
    }
  }

  /** The test of the status protects it from all calls but those that come between it and the write: when nothing
      does, a bio that has ended has an error status iff an owner at or under it reported one. */
  lemma OneByOneIsExact(run: seq<Op>, b: Id)
    requires Legal(map[], run) && OneByOne(map[], run)
    requires b in Exec(map[], run) && Exec(map[], run)[b].Ended()
    ensures Rooted(Exec(map[], run)) && Exact(Exec(map[], run), b)
  {
    OneByOneIsCareful(map[], run);
    CarefulIsExact(run, b);
  }

  // ---------------------------------------------------------------------------------------------
  // An error can be lost
  // ---------------------------------------------------------------------------------------------

  /** One more step of a run from the empty forest. */
  lemma {:induction false} Then(s: Forest, run: seq<Op>, op: Op)
    requires Legal(s, run) && Enabled(Exec(s, run), op)
    ensures Legal(s, run + [op]) && Exec(s, run + [op]) == Apply(Exec(s, run), op)
    decreases |run|
  {
    if run == [] {
      assert run + [op] == [op];
      assert Legal(Apply(s, op), [op][1..]);
    } else {
      assert (run + [op])[1..] == run[1..] + [op];
      Then(Apply(s, run[0]), run[1..], op);
    }
  }

  lemma Go(s: Forest, run: seq<Op>, op: Op) returns (next: Forest, longer: seq<Op>)
    requires Legal(map[], run) && Exec(map[], run) == s && Enabled(s, op)
    ensures Legal(map[], longer) && Exec(map[], longer) == next && next == Apply(s, op)
  {
    Then(map[], run, op);
    longer := run + [op];
    next := Apply(s, op);
  }

  function Waiting(remaining: int): Bio {
    Bio(None, remaining, true, false, Idle, Idle, false, 0, false)
  }

  /** A child whose owner reported, at a stage of its way to bio 0. */
  function Child(failed: bool, at: Stage): Bio {
    Bio(Some(0), 1, false, failed, Gone, at, failed, 1, false)
  }

  const LEAF := Bio(Some(0), 1, false, false, Idle, Idle, false, 0, false)

  lemma TwoChildren() returns (run: seq<Op>)
    ensures Legal(map[], run) && Exec(map[], run) == map[0 := Waiting(3), 1 := LEAF, 2 := LEAF]
  {
    var s, r := Go(map[], [], New(0));
    s, r := Go(s, r, New(1));
    s, r := Go(s, r, New(2));
    s, r := Go(s, r, ChainTo(1, 0));
    s, r := Go(s, r, ChainTo(2, 0));
    run := r;
  }

  lemma BothEnd() returns (run: seq<Op>)
    ensures Legal(map[], run)
    ensures Exec(map[], run) == map[0 := Waiting(3), 1 := Child(false, Look), 2 := Child(true, Look)]
  {
    var r := TwoChildren();
    var s: Forest := map[0 := Waiting(3), 1 := LEAF, 2 := LEAF];
    s, r := Go(s, r, Report(1, false));
    s, r := Go(s, r, Own(1));
    s, r := Go(s, r, Report(2, true));
    s, r := Go(s, r, Own(2));
    assert s == map[0 := Waiting(3), 1 := Child(false, Look), 2 := Child(true, Look)];
    run := r;
  }

  /** The first child reads, the second reads and writes its error, the first writes its OK. */
  lemma ErrorIsOverwritten() returns (run: seq<Op>)
    ensures Legal(map[], run)
    ensures Exec(map[], run) == map[0 := Waiting(3).(lost := true), 1 := Child(false, Test), 2 := Child(true, Test)]
  {
    var r := BothEnd();
    var s: Forest := map[0 := Waiting(3), 1 := Child(false, Look), 2 := Child(true, Look)];
    s, r := Go(s, r, Up(1));
    s, r := Go(s, r, Up(2));
    s, r := Go(s, r, Up(2));
    assert Clobbers(s, Up(1));
    s, r := Go(s, r, Up(1));
    assert s == map[0 := Waiting(3).(lost := true), 1 := Child(false, Test), 2 := Child(true, Test)];
    run := r;
  }

  lemma BothArrive() returns (run: seq<Op>)
    ensures Legal(map[], run)
    ensures Exec(map[], run) == map[0 := Waiting(1).(lost := true), 1 := Child(false, Gone), 2 := Child(true, Gone)]
  {
    var r := ErrorIsOverwritten();
    var s: Forest := map[0 := Waiting(3).(lost := true), 1 := Child(false, Test), 2 := Child(true, Test)];
    s, r := Go(s, r, Up(1));
    s, r := Go(s, r, Up(1));
    s, r := Go(s, r, Up(2));
    s, r := Go(s, r, Up(2));
    assert s == map[0 := Waiting(1).(lost := true), 1 := Child(false, Gone), 2 := Child(true, Gone)];
    run := r;
  }

  /** So a bio can end with an OK status although a bio chained to it failed. */
  lemma ErrorCanBeLost() returns (run: seq<Op>)
    ensures Legal(map[], run)
    ensures
      var s := Exec(map[], run);
      Rooted(s) && 0 in s && s[0].Ended() && !s[0].error && 2 in s && Under(s, 2, 0) && s[2].failed && !Exact(s, 0)
  {
    var r := BothArrive();
    var s: Forest := map[0 := Waiting(1).(lost := true), 1 := Child(false, Gone), 2 := Child(true, Gone)];
    s, r := Go(s, r, Report(0, false));
    s, r := Go(s, r, Own(0));
    s, r := Go(s, r, Own(0));
    assert s[2] == Child(true, Gone) && s[0].Ended() && !s[0].error;
    assert Under(s, 2, 0);
    run := r;
  }

  // ---------------------------------------------------------------------------------------------
  // Every call returns
  // ---------------------------------------------------------------------------------------------

  /** Steps a notice may still have to go. */
  function Togo(at: Stage): nat {
    match at
    case Idle => 5
    case Look => 4
    case Write => 3
    case Test => 2
    case Drop => 1
    case Gone => 0
  }

  function WorkAt(s: Forest, b: Id): nat {
    if b in s then Togo(s[b].own) + Togo(s[b].up) else 0
  }

  /** The work of the bios below n. */
  function Work(s: Forest, n: nat): nat {
    if n == 0 then 0 else Work(s, n - 1) + WorkAt(s, n - 1)
  }

  lemma {:induction false} WorkDrops(s: Forest, r: Forest, n: nat, k: nat)
    requires forall i: nat :: i < n ==> WorkAt(r, i) <= WorkAt(s, i)
    requires k < n ==> WorkAt(r, k) < WorkAt(s, k)
    ensures Work(r, n) + (if k < n then 1 else 0) <= Work(s, n)
  {
    if n > 0 {
      WorkDrops(s, r, n - 1, k);
    }
  }

  predicate Notice(op: Op) {
    op.Own? || op.Up?
  }

  predicate OnlyNotices(run: seq<Op>) {
    run == [] || (Notice(run[0]) && OnlyNotices(run[1..]))
  }

  lemma ReceiveWorks(b: Bio, at: Stage)
    requires (at.Test? || at.Drop?) && b.up.Idle?
    ensures Togo(Receive(b, at).1) < Togo(at) && Togo(Receive(b, at).0.up) <= Togo(b.up)
    ensures Receive(b, at).0.own == b.own
  {
  }

  lemma OwnWorks(s: Forest, b: Id, i: nat)
    requires b in s && Moving(s[b].own) && CountOk(s, b) && StagesOk(s[b])
    ensures OwnStep(s, b).Keys == s.Keys
    ensures WorkAt(OwnStep(s, b), i) <= WorkAt(s, i) && WorkAt(OwnStep(s, b), b) < WorkAt(s, b)
  {
    ReceiveWorks(s[b], s[b].own);
  }

  lemma UpWorks(s: Forest, c: Id, p: Id, i: nat)
    requires Climbing(s, c, p)
    ensures UpStep(s, c).Keys == s.Keys
    ensures WorkAt(UpStep(s, c), i) <= WorkAt(s, i) && WorkAt(UpStep(s, c), c) < WorkAt(s, c)
  {
    if s[c].up.Test? || s[c].up.Drop? {
      ReceiveWorks(s[p], s[c].up);
    }
  }

  lemma StepWorks(s: Forest, op: Op, i: nat)
    requires Counted(s) && Enabled(s, op) && Notice(op)
    ensures Apply(s, op).Keys == s.Keys && WorkAt(Apply(s, op), i) <= WorkAt(s, i)
    ensures
      var k := if op.Own? then op.b else op.c;
      WorkAt(Apply(s, op), k) < WorkAt(s, k)
  {
    match op
    case Own(b) => OwnWorks(s, b, i);
    case Up(c) =>
      var p := ClimbingIs(s, c);
      UpWorks(s, c, p, i);
  }

  /** Without new reports only so many steps are possible: every call of bio_endio returns. */
  lemma {:induction false} NoticesAreBounded(s: Forest, run: seq<Op>, n: nat)
    requires Inv(s) && Legal(s, run) && OnlyNotices(run) && forall b :: b in s ==> b < n
    ensures |run| + Work(Exec(s, run), n) <= Work(s, n)
    decreases |run|
  {
    if run != [] {
      var r := Apply(s, run[0]);
      var k := if run[0].Own? then run[0].b else run[0].c;
      StepWorks(s, run[0], 0);
      forall i: nat | i < n ensures WorkAt(r, i) <= WorkAt(s, i) {
        StepWorks(s, run[0], i);
      }
      WorkDrops(s, r, n, k);
      StepKeepsInv(s, run[0]);
      NoticesAreBounded(r, run[1..], n);
    }
  }

  /** So once all owners have reported, the calls left to run end every bio. */
  lemma Drains(s: Forest, run: seq<Op>, b: Id)
    requires Inv(s) && Legal(s, run) && OnlyNotices(run) && b in Exec(s, run)
    requires forall c :: c in Exec(s, run) ==> !Exec(s, run)[c].own.Idle?
    requires forall op :: Notice(op) ==> !Enabled(Exec(s, run), op)
    ensures Exec(s, run)[b].Ended()
  {
    var r := Exec(s, run);
    RunKeepsInv(s, run);
    var bound := Bounded(r.Keys);
    forall c | c in r ensures AtRest(r, c, b) {
      assert !Enabled(r, Own(c)) && !Enabled(r, Up(c));
    }
    EndsAtRest(r, b, bound);
  }

  // ---------------------------------------------------------------------------------------------
  // The code
  // ---------------------------------------------------------------------------------------------

  lemma {:induction false} OnlyNoticesThen(run: seq<Op>, op: Op)
    requires OnlyNotices(run) && Notice(op)
    ensures OnlyNotices(run + [op])
  {
    if run == [] {
      assert run + [op] == [op];
    } else {
      assert (run + [op])[1..] == run[1..] + [op];
      OnlyNoticesThen(run[1..], op);
    }
  }

  /** No notice is under way that was not before, except perhaps that of c. */
  predicate NothingLeftBehind(s: Forest, r: Forest, c: Id) {
    r.Keys == s.Keys && forall x :: x in s && x != c && Moving(r[x].up) ==> Moving(s[x].up)
  }

  /** The next stage of a notice. */
  predicate Follows(at: Stage, next: Stage) {
    match at
    case Look => next.Write? || next.Test?
    case Write => next.Test?
    case Test => next.Drop? || next.Gone?
    case Drop => next.Gone?
    case _ => false
  }

  /** Where the notice of a bio can be that is waited for or has just ended. */
  predicate NotUnderWay(at: Stage) {
    at.Idle? || at.Look? || at.Gone?
  }

  lemma OwnMoves(s: Forest, b: Id)
    requires Counted(s) && b in s && Moving(s[b].own)
    ensures
      var r := OwnStep(s, b);
      && r.Keys == s.Keys && (forall x :: x in s && x != b ==> r[x] == s[x])
      && Follows(s[b].own, r[b].own) && NotUnderWay(r[b].up)
  {
    assert CountOk(s, b) && StagesOk(s[b]);
  }

  /** Only c and p have changed, c in how far its notice is. */
  predicate Risen(s: Forest, r: Forest, c: Id, p: Id) {
    && r.Keys == s.Keys && c in s && p in s
    && (forall x :: x in s && x != c && x != p ==> r[x] == s[x])
    && r[c].parent == Some(p) && r[c].own == s[c].own && r[p].own == s[p].own
    && NotUnderWay(r[p].up)
  }

  lemma UpRises(s: Forest, c: Id, p: Id)
    requires Climbing(s, c, p)
    ensures Risen(s, UpStep(s, c), c, p) && Follows(s[c].up, UpStep(s, c)[c].up)
  {
  }

  lemma NoneBehind(s: Forest, a: Forest, r: Forest, c: Id, p: Id)
    requires NothingLeftBehind(s, a, c) && Risen(a, r, c, p) && r[c].up.Gone?
    ensures NothingLeftBehind(s, r, p)
  {
  }

  lemma NoneWorse(s: Forest, a: Forest, r: Forest, c: Id, p: Id)
    requires AllNoWorse(s, a) && Risen(a, r, c, p) && SameStatus(a[c], r[c])
    requires (a[p].error ==> r[p].error) && (r[p].lost ==> a[p].lost)
    ensures AllNoWorse(s, r)
  {
    forall x | x in s ensures NoWorse(s[x], r[x]) {
      assert NoWorse(s[x], a[x]);
    }
  }

  /** The notices took these steps. */
  ghost predicate Leads(s: Forest, run: seq<Op>, r: Forest) {
    Legal(s, run) && OnlyNotices(run) && Exec(s, run) == r
  }

  lemma LeadsOn(s: Forest, run: seq<Op>, r: Forest, op: Op)
    requires Leads(s, run, r) && Enabled(r, op) && Notice(op)
    ensures Leads(s, run + [op], Apply(r, op))
  {
    Then(s, run, op);
    OnlyNoticesThen(run, op);
  }

  lemma LeadsCounted(s: Forest, run: seq<Op>, r: Forest)
    requires Inv(s) && Leads(s, run, r)
    ensures Counted(r)
  {
    RunKeepsInv(s, run);
  }

  lemma HasParent(s: Forest, run: seq<Op>, r: Forest, c: Id)
    requires Inv(s) && Leads(s, run, r) && c in r && r[c].up.Look?
    ensures r[c].parent.Some?
  {
    LeadsCounted(s, run, r);
    var p := ClimbingIs(r, c);
  }

  class Bios {
    var bios: Forest

    /** One access of the owner's call at b. */
    method Land(b: Id, ghost s: Forest, ghost run: seq<Op>) returns (ghost longer: seq<Op>)
      requires Inv(s) && Leads(s, run, bios) && b in bios && Moving(bios[b].own)
      modifies this
      ensures Leads(s, longer, bios)
      ensures bios.Keys == old(bios.Keys) && (forall x :: x in bios && x != b ==> bios[x] == old(bios)[x])
      ensures b in bios && Follows(old(bios)[b].own, bios[b].own) && NotUnderWay(bios[b].up)
      ensures SameStatus(old(bios)[b], bios[b])
    {
      LeadsCounted(s, run, bios);
      OwnMoves(bios, b);
      LeadsOn(s, run, bios, Own(b));
      bios := OwnStep(bios, b);
      longer := run + [Own(b)];
    }

    /** bio_remaining_done for the owner's call */
    method RemainingDone(b: Id) returns (ghost run: seq<Op>)
      requires Inv(bios) && b in bios && bios[b].own.Test?
      modifies this
      ensures Leads(old(bios), run, bios) && NothingLeftBehind(old(bios), bios, b)
      ensures b in bios && bios[b].own.Gone? && NotUnderWay(bios[b].up)
      ensures forall x :: x in bios ==> SameStatus(old(bios)[x], bios[x])
    {
      run := Land(b, bios, []);
      if bios[b].own.Drop? {
        run := Land(b, old(bios), run);
      }
    }

    /** One access of the call that goes on from c to p. */
    method Rise(c: Id, p: Id, ghost s: Forest, ghost run: seq<Op>) returns (ghost longer: seq<Op>)
      requires Inv(s) && Leads(s, run, bios) && c in bios && Moving(bios[c].up) && bios[c].parent == Some(p)
      modifies this
      ensures Leads(s, longer, bios) && p < c && Risen(old(bios), bios, c, p) && Follows(old(bios)[c].up, bios[c].up)
      ensures StatusAfter(old(bios), bios, c, p)
    {
      LeadsCounted(s, run, bios);
      ghost var parent := ClimbingIs(bios, c);
      UpRises(bios, c, p);
      UpDoes(bios, c, p);
      LeadsOn(s, run, bios, Up(c));
      bios := UpStep(bios, c);
      longer := run + [Up(c)];
    }

    /** __bio_chain_endio, then bio_remaining_done for the parent */
    method ChainEndio(c: Id, ghost s: Forest, ghost run: seq<Op>) returns (p: Id, ghost longer: seq<Op>)
      requires Inv(s) && Leads(s, run, bios) && c in bios && bios[c].up.Look? && bios[c].parent.Some?
      modifies this
      ensures Leads(s, longer, bios) && p < c && Risen(old(bios), bios, c, p) && bios[c].up.Gone?
      ensures SameStatus(old(bios)[c], bios[c])
      ensures bios[p].error == (old(bios)[p].error || bios[c].error) && (bios[p].lost ==> old(bios)[p].lost)
    {
      p := bios[c].parent.value;
      longer := Rise(c, p, s, run);
      if bios[c].up.Write? {
        longer := Rise(c, p, s, longer);
      }
      longer := Rise(c, p, s, longer);
      if bios[c].up.Drop? {
        longer := Rise(c, p, s, longer);
      }
    }

    /** bio_endio with its goto loop, when nobody interferes: a run of the machine that leaves no notice of its
        own under way. */
    method Endio(b: Id) returns (ghost run: seq<Op>)
      requires Inv(bios) && b in bios && bios[b].own.Test?
      modifies this
      ensures Leads(old(bios), run, bios)
      ensures bios.Keys == old(bios.Keys) && b in bios && bios[b].own.Gone?
      ensures forall x :: x in bios && Moving(bios[x].up) ==> Moving(old(bios)[x].up)
      ensures AllNoWorse(old(bios), bios)
    {
      run := RemainingDone(b);
      var c := b;
      while bios[c].up.Look?
        invariant Leads(old(bios), run, bios) && NothingLeftBehind(old(bios), bios, c)
        invariant c in bios && b in bios && bios[b].own.Gone? && NotUnderWay(bios[c].up)
        invariant AllNoWorse(old(bios), bios)
        decreases c
      {
        HasParent(old(bios), run, bios, c);
        ghost var before, last := bios, c;
        c, run := ChainEndio(c, old(bios), run);
        NoneBehind(old(bios), before, bios, last, c);
        NoneWorse(old(bios), before, bios, last, c);
      }
    }
  }
}
