/** Chained bios: which forests and which outcomes are safe, however the calls of bio_endio interleave. */
module BioChainFates {
  import opened Lists
  import opened BioChains
  import opened BioChainRuns

  // ---------------------------------------------------------------------------------------------
  // Runs with given outcomes
  // ---------------------------------------------------------------------------------------------

  /** A forest of which no owner has reported yet. */
  ghost predicate Built(s: Forest) {
    Inv(s) && forall b :: b in s ==> s[b].own.Idle?
  }

  lemma IdleStays(s: Forest, op: Op, b: Id)
    requires Enabled(s, op) && (op.New? || op.ChainTo?) && b in Apply(s, op) && (b in s ==> s[b].own.Idle?)
    ensures Apply(s, op)[b].own.Idle?
  {
  }

  lemma ChainingStep(s: Forest, op: Op)
    requires Built(s) && Enabled(s, op) && (op.New? || op.ChainTo?)
    ensures Built(Apply(s, op))
  {
    StepKeepsInv(s, op);
    forall b | b in Apply(s, op) ensures Apply(s, op)[b].own.Idle? {
      IdleStays(s, op, b);
    }
  }

  /** Such a forest is made by creating and chaining bios. */
  lemma {:induction false} ChainingBuilds(s: Forest, run: seq<Op>)
    requires Built(s) && Legal(s, run) && forall i :: 0 <= i < |run| ==> run[i].New? || run[i].ChainTo?
    ensures Built(Exec(s, run))
    decreases |run|
  {
    if run != [] {
      ChainingStep(s, run[0]);
      ChainingBuilds(Apply(s, run[0]), run[1..]);
    }
  }

  /** The owners of the bios in `bad` report an error, the others do not, and nothing is chained any more. */
  predicate FitsOp(op: Op, bad: set<Id>) {
    Notice(op) || (op.Report? && (op.failed <==> op.b in bad))
  }

  predicate Fits(run: seq<Op>, bad: set<Id>) {
    forall i :: 0 <= i < |run| ==> FitsOp(run[i], bad)
  }

  /** Such a run leads from s to r. */
  ghost predicate Path(s: Forest, run: seq<Op>, r: Forest, bad: set<Id>) {
    Legal(s, run) && Exec(s, run) == r && Fits(run, bad)
  }

  lemma PathOn(s: Forest, run: seq<Op>, r: Forest, bad: set<Id>, op: Op)
    requires Path(s, run, r, bad) && Enabled(r, op) && FitsOp(op, bad)
    ensures Path(s, run + [op], Apply(r, op), bad)
  {
    Then(s, run, op);
  }

  /** The same bios, chained in the same way. */
  predicate SameShape(s: Forest, r: Forest) {
    r.Keys == s.Keys && forall b :: b in s ==> r[b].parent == s[b].parent
  }

  /** Who has reported has reported what was to be reported. */
  predicate Faithful(s: Forest, bad: set<Id>) {
    forall b :: b in s && !s[b].own.Idle? ==> (s[b].failed <==> b in bad)
  }

  /** What a step does to a bio, as far as shape and outcome go. */
  predicate SameRole(x: Bio, y: Bio) {
    y.parent == x.parent && y.failed == x.failed && (y.own.Idle? <==> x.own.Idle?)
  }

  lemma OwnRole(s: Forest, b: Id, x: Id)
    requires b in s && Moving(s[b].own) && x in s
    ensures OwnStep(s, b).Keys == s.Keys && SameRole(s[x], OwnStep(s, b)[x])
  {
  }

  lemma ReceiveRole(b: Bio, at: Stage)
    ensures SameRole(b, Receive(b, at).0)
  {
  }

  lemma UpRole(s: Forest, c: Id, p: Id, x: Id)
    requires Climbing(s, c, p) && x in s
    ensures UpStep(s, c).Keys == s.Keys && SameRole(s[x], UpStep(s, c)[x])
  {
    ReceiveRole(s[p], s[c].up);
    if x != c && x != p {
      assert UpStep(s, c)[x] == s[x];
    }
  }

  lemma StepShape(s: Forest, op: Op, bad: set<Id>)
    requires Counted(s) && Faithful(s, bad) && Enabled(s, op) && FitsOp(op, bad)
    ensures SameShape(s, Apply(s, op)) && Faithful(Apply(s, op), bad)
  {
    var r := Apply(s, op);
    if op.Own? {
      OwnRole(s, op.b, op.b);
      forall x | x in s ensures SameRole(s[x], r[x]) {
        OwnRole(s, op.b, x);
      }
    } else if op.Up? {
      var p := ClimbingIs(s, op.c);
      UpRole(s, op.c, p, p);
      forall x | x in s ensures SameRole(s[x], r[x]) {
        UpRole(s, op.c, p, x);
      }
    }
  }

  /** What every step of such a run keeps, the run keeps. */
  lemma {:induction false} RunKeeps(keep: Forest -> bool, s: Forest, run: seq<Op>, bad: set<Id>)
    requires keep(s) && Legal(s, run) && Fits(run, bad)
    requires forall r, op :: keep(r) && Enabled(r, op) && FitsOp(op, bad) ==> keep(Apply(r, op))
    ensures keep(Exec(s, run))
    decreases |run|
  {
    if run != [] {
      RunKeeps(keep, Apply(s, run[0]), run[1..], bad);
    }
  }

  lemma {:induction false} SameUnder(s: Forest, r: Forest, c: Id, b: Id)
    requires Rooted(s) && Rooted(r) && SameShape(s, r) && c in s
    ensures Under(r, c, b) <==> Under(s, c, b)
    decreases c
  {
    if c != b && s[c].parent.Some? {
      SameUnder(s, r, s[c].parent.value, b);
    }
  }

  // ---------------------------------------------------------------------------------------------
  // The condition
  // ---------------------------------------------------------------------------------------------

  /** No owner at or under c reports an error. */
  ghost predicate Clean(s: Forest, bad: set<Id>, c: Id)
    requires Rooted(s)
  {
    forall y :: y in s && Under(s, y, c) ==> y !in bad
  }

  /** A bio chained to b brings no error, but something else at or under b does. */
  ghost predicate MixedAt(s: Forest, bad: set<Id>, b: Id, c: Id, x: Id)
    requires Rooted(s)
  {
    && c in s && s[c].parent == Some(b) && Clean(s, bad, c)
    && x in s && x in bad && Under(s, x, b)
  }

  ghost predicate Mixed(s: Forest, bad: set<Id>)
    requires Rooted(s)
  {
    exists b, c, x :: MixedAt(s, bad, b, c, x)
  }

  ghost predicate AllExact(s: Forest) {
    Rooted(s) && forall b :: b in s && s[b].Ended() ==> Exact(s, b)
  }

  // ---------------------------------------------------------------------------------------------
  // Without a mixture nothing is lost
  // ---------------------------------------------------------------------------------------------

  lemma ClobberNeedsMixture(s: Forest, r: Forest, bad: set<Id>, op: Op)
    requires Inv(s) && Inv(r) && SameShape(s, r) && Faithful(r, bad) && NoneLost(r) && Clobbers(r, op)
    ensures Mixed(s, bad)
  {
    var c := op.c;
    var b := r[c].parent.value;
    var bound := Bounded(r.Keys);
    assert CountOk(r, c);
    ExactWhenNoneLost(r, c, bound);
    forall y | y in s && Under(s, y, c) ensures y !in bad {
      SameUnder(s, r, y, c);
      EndedBelow(r, y, c);
    }
    var x := ErrorHasCause(r, b, bound);
    IntactIsUnder(r, x, b);
    SameUnder(s, r, x, b);
    assert StagesOk(r[x]);
    assert MixedAt(s, bad, b, c, x);
  }

  lemma StepLosesNothing(s: Forest, r: Forest, bad: set<Id>, op: Op, b: Id)
    requires Inv(s) && Inv(r) && SameShape(s, r) && Faithful(r, bad) && NoneLost(r) && !Mixed(s, bad)
    requires Enabled(r, op) && b in Apply(r, op)
    ensures !Apply(r, op)[b].lost
  {
    if Apply(r, op)[b].lost {
      OnlyClobbersLose(r, op, b);
      ClobberNeedsMixture(s, r, bad, op);
    }
  }

  /** What holds along a run in which nothing is lost. */
  ghost predicate AsExpected(s: Forest, r: Forest, bad: set<Id>) {
    Inv(r) && SameShape(s, r) && Faithful(r, bad) && NoneLost(r)
  }

  lemma AsExpectedStep(s: Forest, r: Forest, bad: set<Id>, op: Op)
    requires Inv(s) && AsExpected(s, r, bad) && !Mixed(s, bad) && Enabled(r, op) && FitsOp(op, bad)
    ensures AsExpected(s, Apply(r, op), bad)
  {
    StepKeepsInv(r, op);
    StepShape(r, op, bad);
    forall b | b in Apply(r, op) ensures !Apply(r, op)[b].lost {
      StepLosesNothing(s, r, bad, op, b);
    }
  }

  lemma NothingLost(s: Forest, r: Forest, run: seq<Op>, bad: set<Id>)
    requires Inv(s) && AsExpected(s, r, bad) && !Mixed(s, bad) && Legal(r, run) && Fits(run, bad)
    ensures AsExpected(s, Exec(r, run), bad)
  {
    forall r', op | AsExpected(s, r', bad) && Enabled(r', op) && FitsOp(op, bad)
      ensures AsExpected(s, Apply(r', op), bad)
    {
      AsExpectedStep(s, r', bad, op);
    }
    RunKeeps(r' => AsExpected(s, r', bad), r, run, bad);
  }

  lemma BuiltIsClear(s: Forest, b: Id)
    requires Built(s) && b in s
    ensures !s[b].error && !s[b].lost && !s[b].failed && s[b].up.Idle? && !s[b].Ended()
  {
    forall c | c in s ensures !s[c].Ended() && s[c].up.Idle? {
      assert CountOk(s, c);
    }
    assert StagesOk(s[b]) && StatusOk(s, b);
  }

  lemma UnmixedIsExact(s: Forest, run: seq<Op>, bad: set<Id>)
    requires Built(s) && Legal(s, run) && Fits(run, bad) && !Mixed(s, bad)
    ensures AllExact(Exec(s, run))
  {
    forall b | b in s ensures !s[b].lost {
      BuiltIsClear(s, b);
    }
    NothingLost(s, s, run, bad);
    var r := Exec(s, run);
    var bound := Bounded(r.Keys);
    forall b | b in r && r[b].Ended() ensures Exact(r, b) {
      ExactWhenNoneLost(r, b, bound);
    }
  }

  // ---------------------------------------------------------------------------------------------
  // With a mixture an error can be lost
  // ---------------------------------------------------------------------------------------------

  ghost predicate Keeping(s: Forest, r: Forest, bad: set<Id>) {
    Inv(r) && SameShape(s, r) && Faithful(r, bad)
  }

  lemma KeepingStep(s: Forest, r: Forest, bad: set<Id>, op: Op)
    requires Keeping(s, r, bad) && Enabled(r, op) && FitsOp(op, bad)
    ensures Keeping(s, Apply(r, op), bad)
  {
    StepKeepsInv(r, op);
    StepShape(r, op, bad);
  }

  lemma PathKeeps(s: Forest, run: seq<Op>, r: Forest, bad: set<Id>)
    requires Built(s) && Path(s, run, r, bad)
    ensures Keeping(s, r, bad)
  {
    forall r', op | Keeping(s, r', bad) && Enabled(r', op) && FitsOp(op, bad)
      ensures Keeping(s, Apply(r', op), bad)
    {
      KeepingStep(s, r', bad, op);
    }
    RunKeeps(r' => Keeping(s, r', bad), s, run, bad);
  }

  /** The owner of i reports, and the last notice i waits for is delivered. */
  lemma Settle(s: Forest, run: seq<Op>, r: Forest, bad: set<Id>, i: Id) returns (run': seq<Op>, r': Forest)
    requires Path(s, run, r, bad) && i in r && CountOk(r, i) && r[i].own.Idle? && Pending(r, i) == {}
    ensures Path(s, run', r', bad) && r'.Keys == r.Keys && (forall x :: x in r && x != i ==> r'[x] == r[x])
    ensures r'[i].own.Gone? && r'[i].parent == r[i].parent && r'[i].error == (r[i].error || i in bad)
    ensures r'[i].up == if r[i].parent.Some? then Look else Gone
  {
    var op := Report(i, i in bad);
    PathOn(s, run, r, bad, op);
    run', r' := run + [op], Apply(r, op);
    PathOn(s, run', r', bad, Own(i));
    run', r' := run' + [Own(i)], Apply(r', Own(i));
    if r'[i].own.Drop? {
      PathOn(s, run', r', bad, Own(i));
      run', r' := run' + [Own(i)], Apply(r', Own(i));
    }
  }

  /** The notice of i is at this stage, and its parent is in this state. */
  function At(r: Forest, i: Id, p: Id, at: Stage, parent: Bio): Forest
    requires i in r
  {
    r[p := parent][i := r[i].(up := at)]
  }

  /** One access of a call that goes on to a parent, with a status. */
  function Access(parent: Bio, error: bool, at: Stage): (Bio, Stage) {
    match at
    case Look => (parent, if parent.error then Test else Write)
    case Write => (SetStatus(parent, error), Test)
    case _ => Receive(parent, at)
  }

  lemma AccessIsStep(r: Forest, i: Id, p: Id, at: Stage, parent: Bio)
    requires i in r && i != p && r[i].parent == Some(p) && Moving(at)
    ensures
      var a := Access(parent, r[i].error, at);
      Apply(At(r, i, p, at, parent), Up(i)) == At(r, i, p, a.1, a.0)
  {
  }

  lemma RiseOnce(s: Forest, run: seq<Op>, r: Forest, bad: set<Id>, i: Id, p: Id, at: Stage, parent: Bio)
    requires i in r && i != p && r[i].parent == Some(p) && Moving(at)
    requires Path(s, run, At(r, i, p, at, parent), bad)
    ensures
      var a := Access(parent, r[i].error, at);
      Path(s, run + [Up(i)], At(r, i, p, a.1, a.0), bad)
  {
    PathOn(s, run, At(r, i, p, at, parent), bad, Up(i));
    AccessIsStep(r, i, p, at, parent);
  }

  /** Everything but the status and the count. */
  predicate Untouched(x: Bio, y: Bio) {
    y.parent == x.parent && y.own == x.own && y.up == x.up && y.failed == x.failed
  }

  /** The notice of i is delivered at a parent that waits for more. */
  lemma {:induction false} RiseAll(s: Forest, run: seq<Op>, r: Forest, bad: set<Id>, i: Id, p: Id, at: Stage,
                                   parent: Bio)
    returns (run': seq<Op>, parent': Bio)
    requires i in r && i != p && r[i].parent == Some(p) && Moving(at) && parent.chained && parent.remaining >= 2
    requires Path(s, run, At(r, i, p, at, parent), bad)
    ensures Path(s, run', At(r, i, p, Gone, parent'), bad) && Untouched(parent, parent')
    decreases Togo(at)
  {
    RiseOnce(s, run, r, bad, i, p, at, parent);
    var a := Access(parent, r[i].error, at);
    if at.Drop? {
      run', parent' := run + [Up(i)], a.0;
    } else {
      run', parent' := RiseAll(s, run + [Up(i)], r, bad, i, p, a.1, a.0);
    }
  }

  /** p waits for its owner and for i at least. */
  lemma ParentWaits(r: Forest, i: Id, p: Id)
    requires i in r && p in r && CountOk(r, p) && r[i].parent == Some(p) && !r[i].up.Gone? && !r[p].own.Gone?
    ensures !r[p].Ended() && r[p].up.Idle? && r[p].chained && r[p].remaining >= 2
  {
    assert i in Pending(r, p);
    assert |Pending(r, p)| >= 1;
  }

  /** The notice of i goes on to its parent, whose owner has not reported. */
  lemma Climb(s: Forest, run: seq<Op>, r: Forest, bad: set<Id>, i: Id, p: Id) returns (run': seq<Op>, r': Forest)
    requires Path(s, run, r, bad) && i in r && p in r && p != i && r[i].parent == Some(p) && r[i].up.Look?
    requires r[p].own.Idle? && CountOk(r, p)
    ensures Path(s, run', r', bad) && r'.Keys == r.Keys && (forall x :: x in r && x != i && x != p ==> r'[x] == r[x])
    ensures r'[i] == r[i].(up := Gone) && Untouched(r[p], r'[p])
  {
    ParentWaits(r, i, p);
    assert At(r, i, p, Look, r[p]) == r;
    var x;
    run', x := RiseAll(s, run, r, bad, i, p, Look, r[p]);
    r' := At(r, i, p, Gone, x);
  }

  /** Bios that can be completed on their own: nobody has reported, neither for them nor for the bios they are chained
      to, and what is chained to them is among them or has been delivered. */
  ghost predicate Ready(r: Forest, t: set<Id>) {
    forall i :: i in t ==> ReadyAt(r, t, i)
  }

  ghost predicate ReadyAt(r: Forest, t: set<Id>, i: Id) {
    && i in r && r[i].own.Idle? && r[i].parent.Some? && r[i].parent.value in r && r[r[i].parent.value].own.Idle?
    && (forall z :: z in r && r[z].parent == Some(i) ==> z in t || r[z].up.Gone?)
  }

  /** They have been completed, and nothing else has. */
  ghost predicate Through(r: Forest, r': Forest, t: set<Id>) {
    && r'.Keys == r.Keys
    && (forall i :: i in t && i in r ==> r'[i].own.Gone? && r'[i].up.Gone? && r'[i].parent == r[i].parent)
    && (forall x :: x in r && x !in t ==> Untouched(r[x], r'[x]))
    && (forall x :: x in r && x !in t && (forall i :: i in t && i in r ==> r[i].parent != Some(x)) ==> r'[x] == r[x])
  }

  lemma {:induction false} Largest(t: set<Id>) returns (m: Id)
    requires t != {}
    ensures m in t && forall i :: i in t ==> i <= m
    decreases t
  {
    var k :| k in t;
    m := k;
    if t != {k} {
      var l := Largest(t - {k});
      m := if k < l then l else k;
      assert forall i :: i in t ==> i == k || i in t - {k};
    }
  }

  lemma CompleteOne(s: Forest, run: seq<Op>, r: Forest, bad: set<Id>, i: Id, p: Id)
    returns (run': seq<Op>, r': Forest)
    requires Inv(s) && Path(s, run, r, bad) && Counted(r) && i in r && p in r && r[i].parent == Some(p) && p != i
    requires r[i].own.Idle? && r[p].own.Idle? && Pending(r, i) == {}
    ensures Path(s, run', r', bad) && OneThrough(r, r', i, p)
  {
    assert CountOk(r, i);
    run', r' := Settle(s, run, r, bad, i);
    assert CountOk(r', p) by {
      RunKeepsInv(s, run');
    }
    run', r' := Climb(s, run', r', bad, i, p);
  }

  /** i has been completed, at a parent p that goes on waiting. */
  predicate OneThrough(r: Forest, r': Forest, i: Id, p: Id) {
    && r'.Keys == r.Keys && i in r && p in r && i != p
    && (forall x :: x in r && x != i && x != p ==> r'[x] == r[x])
    && r'[i].own.Gone? && r'[i].up.Gone? && r'[i].parent == r[i].parent == Some(p) && Untouched(r[p], r'[p])
  }

  lemma LargestIsNext(r: Forest, t: set<Id>, i: Id)
    requires Rooted(r) && ReadyAt(r, t, i) && i in t && forall j :: j in t ==> j <= i
    ensures Pending(r, i) == {} && r[i].parent.value < i
  {
    assert forall z :: z in r && r[z].parent == Some(i) ==> i < z;
  }

  lemma ReadyRest(r: Forest, r': Forest, t: set<Id>, i: Id, p: Id, j: Id)
    requires Rooted(r) && ReadyAt(r, t, j) && j in t && j < i && OneThrough(r, r', i, p)
    ensures ReadyAt(r', t - {i}, j)
  {
    assert r'[j].own.Idle? && r'[j].parent == r[j].parent;
    assert r[j].parent.value < j;
    forall z | z in r' && r'[z].parent == Some(j) ensures z in t - {i} || r'[z].up.Gone? {
      assert r[z].parent == Some(j);
    }
  }

  lemma ThroughMore(r: Forest, r1: Forest, r2: Forest, t: set<Id>, i: Id, p: Id)
    requires Ready(r, t) && i in t && OneThrough(r, r1, i, p) && Through(r1, r2, t - {i})
    ensures Through(r, r2, t)
  {
    forall x | x in r && x !in t ensures Untouched(r[x], r2[x]) {
      assert x !in t - {i} && Untouched(r1[x], r2[x]);
    }
    forall x | x in r && x !in t && (forall j :: j in t && j in r ==> r[j].parent != Some(x)) ensures r2[x] == r[x] {
      assert x != p;
      forall j | j in t - {i} && j in r1 ensures r1[j].parent != Some(x) {
        assert r1[j].parent == r[j].parent;
      }
    }
  }

  lemma CompleteLargest(s: Forest, run: seq<Op>, r: Forest, bad: set<Id>, t: set<Id>)
    returns (run': seq<Op>, r': Forest, i: Id, p: Id)
    requires Inv(s) && Path(s, run, r, bad) && Ready(r, t) && t != {}
    ensures Path(s, run', r', bad) && i in t && OneThrough(r, r', i, p) && Ready(r', t - {i})
  {
    RunKeepsInv(s, run);
    i := Largest(t);
    p := r[i].parent.value;
    LargestIsNext(r, t, i);
    run', r' := CompleteOne(s, run, r, bad, i, p);
    forall j | j in t - {i} ensures ReadyAt(r', t - {i}, j) {
      ReadyRest(r, r', t, i, p, j);
    }
  }

  lemma {:induction false} CompleteAll(s: Forest, run: seq<Op>, r: Forest, bad: set<Id>, t: set<Id>)
    returns (run': seq<Op>, r': Forest)
    requires Inv(s) && Path(s, run, r, bad) && Ready(r, t)
    ensures Path(s, run', r', bad) && Through(r, r', t)
    decreases |t|
  {
    run', r' := run, r;
    if t != {} {
      var r1, i, p;
      run', r1, i, p := CompleteLargest(s, run, r, bad, t);
      run', r' := CompleteAll(s, run', r1, bad, t - {i});
      ThroughMore(r, r1, r', t, i, p);
    }
  }

  lemma {:induction false} UnderIsAbove(s: Forest, c: Id, b: Id)
    requires Rooted(s) && c in s && Under(s, c, b)
    ensures b <= c
    decreases c
  {
    if c != b {
      UnderIsAbove(s, s[c].parent.value, b);
    }
  }

  /** What is chained to c, directly or indirectly. */
  function Below(s: Forest, c: Id): set<Id>
    requires Rooted(s)
  {
    set y | y in s && Under(s, y, c) && y != c
  }

  /** What is chained to b otherwise than through c. */
  function Beside(s: Forest, b: Id, c: Id): set<Id>
    requires Rooted(s)
  {
    set y | y in s && Under(s, y, b) && y != b && !Under(s, y, c)
  }

  /** c has ended with status OK and is about to write that to b; nothing has happened elsewhere. */
  predicate Poised(s: Forest, r: Forest, b: Id, c: Id)
    requires Rooted(s)
  {
    && SameShape(s, r) && b in s && c in s && s[c].parent == Some(b) && b < c
    && r[c].own.Gone? && r[c].up.Write? && !r[c].error
    && (forall y :: y in s && !Under(s, y, c) ==> Untouched(s[y], r[y]))
  }

  lemma CleanHasNoError(s: Forest, r: Forest, bad: set<Id>, c: Id)
    requires Inv(s) && Keeping(s, r, bad) && c in s && Clean(s, bad, c)
    ensures !r[c].error
  {
    if r[c].error {
      var bound := Bounded(r.Keys);
      var x := ErrorHasCause(r, c, bound);
      IntactIsUnder(r, x, c);
      SameUnder(s, r, x, c);
    }
  }

  lemma BelowReady(s: Forest, c: Id)
    requires Built(s) && c in s
    ensures Ready(s, Below(s, c))
  {
    forall i | i in Below(s, c) ensures ReadyAt(s, Below(s, c), i) {
      forall z | z in s && s[z].parent == Some(i) ensures z in Below(s, c) {
        assert Under(s, z, c);
        UnderIsAbove(s, i, c);
      }
    }
  }

  /** First everything below c is completed, then c, up to its look at the status of b. */
  lemma BelowThrough(s: Forest, bad: set<Id>, b: Id, c: Id) returns (run: seq<Op>, r: Forest)
    requires Built(s) && c in s && b in s && s[c].parent == Some(b)
    ensures Path(s, run, r, bad) && Through(s, r, Below(s, c)) && r[b] == s[b] && Pending(r, c) == {} && b < c
  {
    BelowReady(s, c);
    run, r := CompleteAll(s, [], s, bad, Below(s, c));
    forall i | i in Below(s, c) ensures s[i].parent != Some(b) {
      if s[i].parent == Some(b) {
        UnderIsAbove(s, b, c);
      }
    }
    if b in Below(s, c) {
      UnderIsAbove(s, b, c);
    }
    forall z | z in r && r[z].parent == Some(c) ensures r[z].up.Gone? {
      if z !in Below(s, c) {
        assert s[z].parent == Some(c) && Under(s, z, c);
      }
    }
  }

  /** c looks at the status of b and finds no error. */
  lemma LookPast(s: Forest, run: seq<Op>, r: Forest, bad: set<Id>, b: Id, c: Id)
    requires Path(s, run, r, bad) && c in r && b in r && b != c && r[c].parent == Some(b) && r[c].up.Look?
    requires !r[b].error
    ensures Path(s, run + [Up(c)], r[c := r[c].(up := Write)], bad)
  {
    assert At(r, c, b, Look, r[b]) == r;
    RiseOnce(s, run, r, bad, c, b, Look, r[b]);
    assert At(r, c, b, Write, r[b]) == r[c := r[c].(up := Write)];
  }

  lemma IsPoised(s: Forest, r: Forest, b: Id, c: Id, x: Bio)
    requires Rooted(s) && c in s && b in s && s[c].parent == Some(b) && b < c && Through(s, r, Below(s, c))
    requires x.own.Gone? && x.up.Write? && !x.error && x.parent == Some(b)
    ensures Poised(s, r[c := x], b, c)
  {
    assert Under(s, c, c);
    forall y | y in s && !Under(s, y, c) ensures Untouched(s[y], r[y]) {
      assert y !in Below(s, c);
    }
    forall y | y in s ensures r[c := x][y].parent == s[y].parent {
      assert y in Below(s, c) || Untouched(s[y], r[y]);
    }
  }

  lemma SamePut(r: Forest, r': Forest, c: Id, x: Bio)
    requires r'.Keys == r.Keys && forall y :: y in r && y != c ==> r'[y] == r[y]
    ensures r'[c := x] == r[c := x]
  {
  }

  lemma GetPoised(s: Forest, bad: set<Id>, b: Id, c: Id) returns (run: seq<Op>, r: Forest)
    requires Built(s) && c in s && b in s && s[c].parent == Some(b) && Clean(s, bad, c)
    ensures Path(s, run, r, bad) && Poised(s, r, b, c)
  {
    var r1, r2;
    run, r1 := BelowThrough(s, bad, b, c);
    assert CountOk(r1, c) && !r1[c].error by {
      PathKeeps(s, run, r1, bad);
      CleanHasNoError(s, r1, bad, c);
    }
    assert Under(s, c, c) && c !in bad && Untouched(s[c], r1[c]);
    run, r2 := Settle(s, run, r1, bad, c);
    BuiltIsClear(s, b);
    LookPast(s, run, r2, bad, b, c);
    run, r := run + [Up(c)], r2[c := r2[c].(up := Write)];
    SamePut(r1, r2, c, r2[c].(up := Write));
    IsPoised(s, r1, b, c, r2[c].(up := Write));
  }

  /** What is chained to a bio beside c is beside c, and so is what that bio is chained to, unless it is b. */
  lemma BesideIsClosed(s: Forest, b: Id, c: Id, i: Id, z: Id)
    requires Rooted(s) && c in s && s[c].parent == Some(b) && i in Beside(s, b, c) && z in s
    ensures s[z].parent == Some(i) ==> z in Beside(s, b, c)
    ensures s[i].parent.Some? && !Under(s, s[i].parent.value, c)
  {
    if s[z].parent == Some(i) {
      assert Under(s, z, b);
      UnderIsAbove(s, i, b);
    }
  }

  lemma BesideReady(s: Forest, r: Forest, b: Id, c: Id)
    requires Built(s) && Poised(s, r, b, c)
    ensures Ready(r, Beside(s, b, c))
  {
    forall i | i in Beside(s, b, c) ensures ReadyAt(r, Beside(s, b, c), i) {
      BesideIsClosed(s, b, c, i, i);
      var p := s[i].parent.value;
      assert Untouched(s[i], r[i]) && Untouched(s[p], r[p]);
      forall z | z in r && r[z].parent == Some(i) ensures z in Beside(s, b, c) {
        BesideIsClosed(s, b, c, i, z);
      }
    }
  }

  /** Then everything else below b is completed. */
  lemma BesideThrough(s: Forest, run: seq<Op>, r: Forest, bad: set<Id>, b: Id, c: Id)
    returns (run': seq<Op>, r': Forest)
    requires Built(s) && Path(s, run, r, bad) && Poised(s, r, b, c)
    ensures Path(s, run', r', bad) && Through(r, r', Beside(s, b, c)) && r'[c] == r[c] && r'[b].own.Idle?
  {
    BesideReady(s, r, b, c);
    run', r' := CompleteAll(s, run, r, bad, Beside(s, b, c));
    assert Under(s, c, c);
    forall i | i in Beside(s, b, c) && i in r ensures r[i].parent != Some(c) {
      assert s[i].parent == Some(c) ==> Under(s, i, c);
    }
    if Under(s, b, c) {
      UnderIsAbove(s, b, c);
    }
  }

  /** Then the owner of b reports; b goes on waiting for c. */
  lemma OwnerThrough(s: Forest, run: seq<Op>, r: Forest, bad: set<Id>, b: Id, c: Id)
    returns (run': seq<Op>, x: Bio)
    requires Path(s, run, r, bad) && b in r && c in r && b != c && r[c].parent == Some(b) && r[c].up.Write?
    requires CountOk(r, b) && r[b].own.Idle?
    ensures Path(s, run', r[b := x], bad) && x.own.Gone? && x.chained && x.remaining >= 1 && x.parent == r[b].parent
  {
    ParentWaits(r, c, b);
    var op := Report(b, b in bad);
    PathOn(s, run, r, bad, op);
    var r1 := Apply(r, op);
    PathOn(s, run + [op], r1, bad, Own(b));
    var r2 := Apply(r1, Own(b));
    PathOn(s, run + [op] + [Own(b)], r2, bad, Own(b));
    run' := run + [op] + [Own(b)] + [Own(b)];
    x := Apply(r2, Own(b))[b];
    assert Apply(r2, Own(b)) == r[b := x];
  }

  /** At last c writes its OK, and its notice is delivered. */
  lemma Overwrite(s: Forest, run: seq<Op>, r: Forest, bad: set<Id>, b: Id, c: Id)
    returns (run': seq<Op>, x: Bio)
    requires Path(s, run, r, bad) && b in r && c in r && b != c && r[c].parent == Some(b) && r[c].up.Write?
    requires !r[c].error && r[b].chained && r[b].own.Gone?
    ensures Path(s, run', At(r, c, b, Gone, x), bad) && !x.error && x.own.Gone?
  {
    assert At(r, c, b, Write, r[b]) == r;
    RiseOnce(s, run, r, bad, c, b, Write, r[b]);
    x := SetStatus(r[b], false);
    RiseOnce(s, run + [Up(c)], r, bad, c, b, Test, x);
    RiseOnce(s, run + [Up(c)] + [Up(c)], r, bad, c, b, Drop, x);
    run' := run + [Up(c)] + [Up(c)] + [Up(c)];
    x := Access(x, false, Drop).0;
  }

  /** b has ended, without an error, although one was reported at x. */
  lemma EndsWrong(s: Forest, r: Forest, bad: set<Id>, b: Id, c: Id, x: Id)
    requires Built(s) && Keeping(s, r, bad) && MixedAt(s, bad, b, c, x) && b in s
    requires r[b].own.Gone? && !r[b].error && r[c].up.Gone?
    requires AllGone(r, Beside(s, b, c))
    ensures !AllExact(r)
  {
    forall z | z in r && r[z].parent == Some(b) ensures r[z].up.Gone? {
      ChildIsBeside(s, b, c, z);
    }
    assert Pending(r, b) == {} && CountOk(r, b);
    SameUnder(s, r, x, b);
    assert x == b || x in Beside(s, b, c);
    assert r[x].failed;
  }

  /** Another bio chained to b is not reached through c. */
  lemma ChildIsBeside(s: Forest, b: Id, c: Id, z: Id)
    requires Rooted(s) && b in s && c in s && s[c].parent == Some(b) && z in s && s[z].parent == Some(b)
    ensures z == c || z in Beside(s, b, c)
  {
    assert Under(s, z, b);
    if Under(s, b, c) {
      UnderIsAbove(s, b, c);
    }
  }

  /** These bios have been completed. */
  predicate AllGone(r: Forest, t: set<Id>) {
    forall i :: i in t ==> i in r && r[i].own.Gone? && r[i].up.Gone?
  }

  lemma ThroughGone(s: Forest, r: Forest, r': Forest, b: Id, c: Id, x: Bio)
    requires Rooted(s) && r.Keys == s.Keys && Through(r, r', Beside(s, b, c))
    ensures AllGone(r'[b := x], Beside(s, b, c))
  {
  }

  lemma StillGone(s: Forest, r: Forest, b: Id, c: Id, x: Bio)
    requires Rooted(s) && c in s && c in r && AllGone(r, Beside(s, b, c))
    ensures AllGone(At(r, c, b, Gone, x), Beside(s, b, c))
  {
    assert Under(s, c, c);
  }

  /** Everything at and below b but c has been completed, with b still waiting for c. */
  lemma AllButOne(s: Forest, bad: set<Id>, b: Id, c: Id) returns (run: seq<Op>, r: Forest)
    requires Built(s) && c in s && b in s && s[c].parent == Some(b) && Clean(s, bad, c)
    ensures Path(s, run, r, bad) && b in r && c in r && b != c
    ensures r[c].parent == Some(b) && r[c].up.Write? && !r[c].error
    ensures r[b].own.Gone? && r[b].chained && AllGone(r, Beside(s, b, c))
  {
    var r0, r1, x;
    run, r0 := GetPoised(s, bad, b, c);
    run, r1 := BesideThrough(s, run, r0, bad, b, c);
    assert CountOk(r1, b) by {
      PathKeeps(s, run, r1, bad);
    }
    run, x := OwnerThrough(s, run, r1, bad, b, c);
    ThroughGone(s, r0, r1, b, c, x);
    r := r1[b := x];
  }

  lemma LosingRun(s: Forest, bad: set<Id>, b: Id, c: Id, x: Id) returns (run: seq<Op>)
    requires Built(s) && MixedAt(s, bad, b, c, x)
    ensures Legal(s, run) && Fits(run, bad) && !AllExact(Exec(s, run))
  {
    var r, y;
    run, r := AllButOne(s, bad, b, c);
    run, y := Overwrite(s, run, r, bad, b, c);
    var r1 := At(r, c, b, Gone, y);
    PathKeeps(s, run, r1, bad);
    StillGone(s, r, b, c, y);
    EndsWrong(s, r1, bad, b, c, x);
  }

  // ---------------------------------------------------------------------------------------------
  // The theorem
  // ---------------------------------------------------------------------------------------------

  /** Bios are chained in this way and their owners will report these outcomes: the status of every bio that ends is
      right in every interleaving iff there is no bio to which one is chained that brings no error while something
      else at or under it does. */
  lemma SafeIff(s: Forest, bad: set<Id>)
    requires Built(s)
    ensures (forall run :: Legal(s, run) && Fits(run, bad) ==> AllExact(Exec(s, run))) <==> !Mixed(s, bad)
  {
    if Mixed(s, bad) {
      var b, c, x :| MixedAt(s, bad, b, c, x);
      var run := LosingRun(s, bad, b, c, x);
    } else {
      forall run | Legal(s, run) && Fits(run, bad) ensures AllExact(Exec(s, run)) {
        UnmixedIsExact(s, run, bad);
      }
    }
  }
}
