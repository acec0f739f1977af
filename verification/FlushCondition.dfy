/** Which requests the flush machinery can serve: all but those that need both flushes and carry no data. */
module FlushCondition {
  import opened Lists
  import opened ListWalks
  import opened FlushSequencing
  import opened FlushProofs
  import opened FlushRuns

  /** A run of the environment, whatever the requests ask for. */
  predicate PossibleRun(s: Fq, ops: seq<Op>)
    decreases |ops|
  {
    ops == [] || (Possible(s, ops[0]) && PossibleRun(Apply(s, ops[0]), ops[1..]))
  }

  /** All requests of the run have policy p. */
  predicate AllAsk(ops: seq<Op>, p: Mask) {
    ops == [] || ((ops[0].InsertOp? ==> Policy(ops[0].flags, ops[0].cmd) == p) && AllAsk(ops[1..], p))
  }

  lemma {:induction false} PossibleIsLegal(s: Fq, ops: seq<Op>, p: Mask)
    requires PossibleRun(s, ops) && AllAsk(ops, p) && !Bare(p)
    ensures Legal(s, ops)
    decreases |ops|
  {
    if ops != [] {
      PossibleIsLegal(Apply(s, ops[0]), ops[1..], p);
    }
  }

  lemma {:induction false} Then(s: Fq, ops: seq<Op>, op: Op, p: Mask)
    requires PossibleRun(s, ops) && AllAsk(ops, p) && Possible(Exec(s, ops), op)
    requires op.InsertOp? ==> Policy(op.flags, op.cmd) == p
    ensures PossibleRun(s, ops + [op]) && AllAsk(ops + [op], p) && Exec(s, ops + [op]) == Apply(Exec(s, ops), op)
    decreases |ops|
  {
    if ops == [] {
      assert ops + [op] == [op];
      assert [op][1..] == [];
    } else {
      assert (ops + [op])[1..] == ops[1..] + [op];
      Then(Apply(s, ops[0]), ops[1..], op, p);
    }
  }

  // ---------------------------------------------------------------------------------------------
  // A run that goes wrong
  // ---------------------------------------------------------------------------------------------

  const BARE := Mask(true, false, true)
  const NOW := Reads(0, 0)

  /** Waiting for its first and for its second flush. */
  const FIRST := Mask(false, true, false)
  const SECOND := Mask(true, true, false)

  /** PREFLUSH|FUA without data, on a device with a write cache and without FUA. */
  function Ask(id: Id): Op {
    InsertOp(id, QueueFlags(true, false), Command(0, true, true), NOW)
  }

  /** All this happens at one moment. */
  ghost predicate Still(clock: Id -> Reads) {
    forall id :: clock(id) == NOW
  }

  /** The lists, indices and masks of a queue without a scheduler. */
  predicate Looks(s: Fq, queue0: seq<Id>, queue1: seq<Id>, pending: bool, running: bool, seqs: map<Id, Mask>) {
    && s.queue0 == queue0 && s.queue1 == queue1 && s.inFlight == [] && !s.elevator
    && s.pendingIdx == pending && s.runningIdx == running
    && s.seqs == seqs
  }

  /** One flush is under way, and request 2 has not asked for its second one. */
  predicate Calm(log: seq<Event>) {
    Outstanding(log) == 1 && Queue(2, Post) !in log
  }

  lemma FirstAsks(s: Fq)
    requires s == Init(false, 0)
    ensures
      var r := Apply(s, Ask(0));
      Looks(r, [0], [], true, false, map[0 := FIRST]) && r.policy.Keys == {0} && Calm(r.log)
  {
    var log := [Insert(0, BARE)] + [Queue(0, Pre)];
    OutstandingSnoc([Insert(0, BARE)], Queue(0, Pre));
    OutstandingSnoc(log, Issue);
    assert Apply(s, Ask(0)).log == log + [Issue];
  }

  lemma NextAsks(s: Fq, id: Id, l: seq<Id>, seqs: map<Id, Mask>)
    requires Looks(s, [0], l, true, false, seqs) && id != 0 && id !in l && Distinct(l) && Calm(s.log)
    ensures
      var r := Apply(s, Ask(id));
      Looks(r, [0], l + [id], true, false, seqs[id := FIRST]) && r.policy.Keys == s.policy.Keys + {id} && Calm(r.log)
  {
    WithoutMembers(l, id);
    OutstandingSnoc(s.log, Insert(id, BARE));
    OutstandingSnoc(s.log + [Insert(id, BARE)], Queue(id, Pre));
  }

  lemma WalkOnce(s: Fq, r: bool, id: Id, next: Option<Id>, fuel: nat, clock: Id -> Reads)
    requires Still(clock) && id in s.seqs && fuel > 0 && next == NextOf(s.Queue(r), id)
    ensures Walk(Lister(r), Visitor(false, clock), s, Some(id), fuel)
         == Walk(Lister(r), Visitor(false, clock), Complete(s, id, false, NOW), next, fuel - 1)
  {
  }

  /** Request 0 is visited, asks for its second flush, and the flush for 1, 2 and 0 is issued. */
  lemma VisitZero(r: Fq)
    requires Looks(r, [0], [1, 2], true, true, map[0 := FIRST, 1 := FIRST, 2 := FIRST])
    ensures
      var w := Complete(r, 0, false, NOW);
      && Looks(w, [], [1, 2, 0], false, true, map[0 := SECOND, 1 := FIRST, 2 := FIRST])
      && w.log == r.log + [Finish(0, Pre, false)] + [Queue(0, Post)] + [Issue] && w.policy == r.policy
  {
    NotAmong();
  }

  lemma NotAmong()
    ensures Without([1, 2], 0) == [1, 2]
  {
    WithoutMembers([1, 2], 0);
  }

  lemma FirstFlushLog(log: seq<Event>)
    requires Calm(log)
    ensures Calm(log + [FlushDone(false)] + [Finish(0, Pre, false)] + [Queue(0, Post)] + [Issue])
  {
    OutstandingSnoc(log, FlushDone(false));
    OutstandingSnoc(log + [FlushDone(false)], Finish(0, Pre, false));
    OutstandingSnoc(log + [FlushDone(false)] + [Finish(0, Pre, false)], Queue(0, Post));
    OutstandingSnoc(log + [FlushDone(false)] + [Finish(0, Pre, false)] + [Queue(0, Post)], Issue);
  }

  lemma FirstFlushEnds(s: Fq, clock: Id -> Reads)
    requires Looks(s, [0], [1, 2], true, false, map[0 := FIRST, 1 := FIRST, 2 := FIRST]) && Calm(s.log) && Still(clock)
    ensures
      var r := FlushEndIo(s, false, clock);
      && Looks(r, [], [1, 2, 0], false, true, map[0 := SECOND, 1 := FIRST, 2 := FIRST])
      && Calm(r.log)
  {
    VisitZero(RetireFlush(s, false));
    WalkOnce(RetireFlush(s, false), false, 0, None, 2, clock);
    FirstFlushLog(s.log);
  }

  // The second flush completes: 1, 2, 0 and then 2 again are visited.

  lemma VisitOne(r: Fq)
    requires Looks(r, [], [1, 2, 0], false, false, map[0 := SECOND, 1 := FIRST, 2 := FIRST])
    ensures
      var w := Complete(r, 1, false, NOW);
      && Looks(w, [1], [2, 0], true, false, map[0 := SECOND, 1 := SECOND, 2 := FIRST])
      && w.log == r.log + [Finish(1, Pre, false), Queue(1, Post), Issue]
  {
  }

  lemma VisitTwo(r: Fq)
    requires Looks(r, [1], [2, 0], true, false, map[0 := SECOND, 1 := SECOND, 2 := FIRST])
    ensures
      var w := Complete(r, 2, false, NOW);
      && Looks(w, [1], [0, 2], true, false, map[0 := SECOND, 1 := SECOND, 2 := SECOND])
      && w.log == r.log + [Finish(2, Pre, false), Queue(2, Post)]
  {
    WithoutMembers([1], 2);
  }

  lemma VisitZeroAgain(r: Fq)
    requires Looks(r, [1], [0, 2], true, false, map[0 := SECOND, 1 := SECOND, 2 := SECOND])
    ensures
      var w := Complete(r, 0, false, NOW);
      && Looks(w, [1], [2], true, false, map[1 := SECOND, 2 := SECOND])
      && w.log == r.log + [Finish(0, Post, false), End(0, false)]
  {
    WithoutMembers([1], 0);
  }

  lemma VisitTwoAgain(r: Fq)
    requires Looks(r, [1], [2], true, false, map[1 := SECOND, 2 := SECOND])
    ensures Complete(r, 2, false, NOW).log == r.log + [Finish(2, Post, false), End(2, false)]
  {
  }

  lemma WalkOne(r: Fq, clock: Id -> Reads) returns (c: Fq)
    requires Still(clock) && Looks(r, [], [1, 2, 0], false, false, map[0 := SECOND, 1 := FIRST, 2 := FIRST])
    ensures Looks(c, [1], [2, 0], true, false, map[0 := SECOND, 1 := SECOND, 2 := FIRST])
    ensures c.log == r.log + [Finish(1, Pre, false), Queue(1, Post), Issue]
    ensures Walk(Lister(true), Visitor(false, clock), r, Some(1), 6)
         == Walk(Lister(true), Visitor(false, clock), c, Some(2), 5)
  {
    VisitOne(r);
    c := Complete(r, 1, false, NOW);
    WalkOnce(r, true, 1, Some(2), 6, clock);
  }

  lemma WalkTwo(r: Fq, clock: Id -> Reads) returns (c: Fq)
    requires Still(clock) && Looks(r, [1], [2, 0], true, false, map[0 := SECOND, 1 := SECOND, 2 := FIRST])
    ensures Looks(c, [1], [0, 2], true, false, map[0 := SECOND, 1 := SECOND, 2 := SECOND])
    ensures c.log == r.log + [Finish(2, Pre, false), Queue(2, Post)]
    ensures Walk(Lister(true), Visitor(false, clock), r, Some(2), 5)
         == Walk(Lister(true), Visitor(false, clock), c, Some(0), 4)
  {
    VisitTwo(r);
    c := Complete(r, 2, false, NOW);
    WalkOnce(r, true, 2, Some(0), 5, clock);
  }

  lemma WalkZeroAgain(r: Fq, clock: Id -> Reads) returns (c: Fq)
    requires Still(clock) && Looks(r, [1], [0, 2], true, false, map[0 := SECOND, 1 := SECOND, 2 := SECOND])
    ensures Looks(c, [1], [2], true, false, map[1 := SECOND, 2 := SECOND])
    ensures c.log == r.log + [Finish(0, Post, false), End(0, false)]
    ensures Walk(Lister(true), Visitor(false, clock), r, Some(0), 4)
         == Walk(Lister(true), Visitor(false, clock), c, Some(2), 3)
  {
    VisitZeroAgain(r);
    c := Complete(r, 0, false, NOW);
    WalkOnce(r, true, 0, Some(2), 4, clock);
  }

  lemma WalkTwoAgain(r: Fq, clock: Id -> Reads)
    requires Still(clock) && Looks(r, [1], [2], true, false, map[1 := SECOND, 2 := SECOND])
    ensures Walk(Lister(true), Visitor(false, clock), r, Some(2), 3).log
         == r.log + [Finish(2, Post, false), End(2, false)]
  {
    VisitTwoAgain(r);
    WalkOnce(r, true, 2, None, 3, clock);
  }

  /** When request 1 asks for its second flush that flush is issued at once, which turns the walked list into the
      pending one; request 2 joins its tail, is visited again and is done, with no flush issued after it asked. */
  lemma SecondFlushEnds(s: Fq, clock: Id -> Reads)
    requires Still(clock) && Looks(s, [], [1, 2, 0], false, true, map[0 := SECOND, 1 := FIRST, 2 := FIRST])
    ensures FlushEndIo(s, false, clock).log
         == s.log + [FlushDone(false)] + [Finish(1, Pre, false), Queue(1, Post), Issue]
            + [Finish(2, Pre, false), Queue(2, Post)] + [Finish(0, Post, false), End(0, false)]
            + [Finish(2, Post, false), End(2, false)]
  {
    var c1 := WalkOne(RetireFlush(s, false), clock);
    var c2 := WalkTwo(c1, clock);
    var c3 := WalkZeroAgain(c2, clock);
    WalkTwoAgain(c3, clock);
  }

  lemma NotServed(before: seq<Event>, log: seq<Event>)
    requires log == before + [FlushDone(false)] + [Finish(1, Pre, false), Queue(1, Post), Issue]
                    + [Finish(2, Pre, false), Queue(2, Post)] + [Finish(0, Post, false), End(0, false)]
                    + [Finish(2, Post, false), End(2, false)]
    requires Queue(2, Post) !in before
    ensures !FlushesCover(log)
  {
    var k := |before| + 8;
    assert log[k] == Finish(2, Post, false);
    assert !Served(log, k);
  }

  /** A run of such requests that leads to s. */
  predicate Leads(ops: seq<Op>, s: Fq) {
    PossibleRun(Init(false, 0), ops) && AllAsk(ops, BARE) && Exec(Init(false, 0), ops) == s
  }

  lemma Go(ops: seq<Op>, s: Fq, op: Op) returns (longer: seq<Op>, next: Fq)
    requires Leads(ops, s) && Possible(s, op) && (op.InsertOp? ==> Policy(op.flags, op.cmd) == BARE)
    ensures Leads(longer, next) && next == Apply(s, op)
  {
    Then(Init(false, 0), ops, op, BARE);
    longer := ops + [op];
    next := Apply(s, op);
  }

  lemma ThreeAsk() returns (ops: seq<Op>, s: Fq)
    ensures Leads(ops, s) && Calm(s.log)
    ensures Looks(s, [0], [1, 2], true, false, map[0 := FIRST, 1 := FIRST, 2 := FIRST])
  {
    ops, s := [], Init(false, 0);
    FirstAsks(s);
    ops, s := Go(ops, s, Ask(0));
    NextAsks(s, 1, [], map[0 := FIRST]);
    ops, s := Go(ops, s, Ask(1));
    NextAsks(s, 2, [1], map[0 := FIRST, 1 := FIRST]);
    ops, s := Go(ops, s, Ask(2));
  }

  /** Three such requests and two flushes: the last step of request 2 is finished by no flush. */
  lemma BareIsUnsafe() returns (ops: seq<Op>)
    ensures PossibleRun(Init(false, 0), ops) && AllAsk(ops, BARE)
    ensures !FlushesCover(Exec(Init(false, 0), ops).log)
  {
    var clock := (_: Id) => NOW;
    var s;
    ops, s := ThreeAsk();
    FirstFlushEnds(s, clock);
    ops, s := Go(ops, s, FlushEndOp(false, clock));
    SecondFlushEnds(s, clock);
    NotServed(s.log, FlushEndIo(s, false, clock).log);
    ops, s := Go(ops, s, FlushEndOp(false, clock));
  }

  /** In this run flush steps are finished only by flushes issued after they were asked for. */
  ghost predicate Safe(elevator: bool, timeout: nat, ops: seq<Op>) {
    FlushesCover(Exec(Init(elevator, timeout), ops).log)
  }

  /** Every run in which all requests have policy p is safe if and only if p does not ask for both flushes without
      data between them. */
  lemma SafeIff(p: Mask)
    ensures (forall elevator, timeout, ops ::
               PossibleRun(Init(elevator, timeout), ops) && AllAsk(ops, p) ==> Safe(elevator, timeout, ops))
       <==> !Bare(p)
  {
    if Bare(p) {
      var ops := BareIsUnsafe();
      assert p == BARE;
      assert !Safe(false, 0, ops);
    } else {
      forall elevator, timeout, ops | PossibleRun(Init(elevator, timeout), ops) && AllAsk(ops, p)
        ensures Safe(elevator, timeout, ops)
      {
        PossibleIsLegal(Init(elevator, timeout), ops, p);
        EveryRun(elevator, timeout, ops);
      }
    }
  }
}
