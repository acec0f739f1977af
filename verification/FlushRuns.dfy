/** Whole runs of the flush machinery: what every history satisfies, and that the work drains. */
module FlushRuns {
  import opened Lists
  import opened ListWalks
  import opened FlushSequencing
  import opened FlushProofs

  /** What the outside world may do to the queue.  Clock readings are arbitrary. */
  datatype Op =
    | InsertOp(id: Id, flags: QueueFlags, cmd: Command, t: Reads)
    | DataEndOp(id: Id, error: bool, t: Reads)
    | FlushEndOp(error: bool, clock: Id -> Reads)

  /** The device holds the DATA step of `id`. */
  predicate DataOutstanding(log: seq<Event>, id: Id) {
    Trace(log, id) != [] && Trace(log, id)[|Trace(log, id)| - 1] == Submit(id)
  }

  /** What the environment can do: bring a fresh request, or complete something the device was given and has not
      yet completed. */
  predicate Possible(s: Fq, op: Op) {
    match op
    case InsertOp(id, _, _, _) => id !in s.policy
    case DataEndOp(id, _, _) => DataOutstanding(s.log, id)
    case FlushEndOp(_, _) => Outstanding(s.log) == 1
  }

  /** ... where no request without data needs both flushes. */
  predicate Enabled(s: Fq, op: Op) {
    Possible(s, op) && (op.InsertOp? ==> !Bare(Policy(op.flags, op.cmd)))
  }

  /** The BUG_ON conditions of blk_flush_complete_seq and flush_end_io, negated; the one in the loop of
      flush_end_io at every visit. */
  ghost predicate NoBug(s: Fq, op: Op) {
    match op
    case InsertOp(id, _, _, _) => id !in s.seqs
    case DataEndOp(id, _, _) => id in s.seqs && CurSeq(s.seqs[id]) == Data && id in s.inFlight
    case FlushEndOp(error, clock) =>
      var r, l := s.runningIdx, s.Queue(s.runningIdx);
      && s.pendingIdx != r && l != []
      && Passes(Lister(r), Visitor(error, clock), AtFlushStep(), RetireFlush(s, error), FirstOf(l), 2 * |l|)
  }

  function Apply(s: Fq, op: Op): Fq {
    match op
    case InsertOp(id, flags, cmd, t) => InsertFlush(s, id, Policy(flags, cmd), t)
    case DataEndOp(id, error, t) => if id in s.seqs then Complete(s, id, error, t) else s
    case FlushEndOp(error, clock) => FlushEndIo(s, error, clock)
  }

  lemma OutstandingDataIsLive(s: Fq, id: Id)
    requires Lives(s) && OnPolicy(s) && DataOutstanding(s.log, id)
    ensures id in s.seqs && CurSeq(s.seqs[id]) == Data
  {
    assert id in s.policy && LifeOk(s, id);
  }

  /** No completion the device can deliver finds the queue in a state a BUG check would catch. */
  lemma BugsUnreachable(s: Fq, op: Op)
    requires Inv(s) && Enabled(s, op)
    ensures NoBug(s, op)
  {
    match op
    case InsertOp(_, _, _, _) =>
    case DataEndOp(id, _, _) => OutstandingDataIsLive(s, id);
    case FlushEndOp(error, clock) =>
      FlushEndVisitsSnapshot(s, error, clock);
      RetireWalks(s, error);
  }

  lemma StepKeepsInv(s: Fq, op: Op)
    requires Inv(s) && Enabled(s, op)
    ensures Inv(Apply(s, op))
  {
    BugsUnreachable(s, op);
    match op
    case InsertOp(id, flags, cmd, t) => InsertKeepsInv(s, id, Policy(flags, cmd), t);
    case DataEndOp(id, error, t) => DataEndKeepsInv(s, id, error, t);
    case FlushEndOp(error, clock) => FlushEndKeepsInv(s, error, clock);
  }

  predicate Legal(s: Fq, ops: seq<Op>)
    decreases |ops|
  {
    ops == [] || (Enabled(s, ops[0]) && Legal(Apply(s, ops[0]), ops[1..]))
  }

  function Exec(s: Fq, ops: seq<Op>): Fq
    decreases |ops|
  {
    if ops == [] then s else Exec(Apply(s, ops[0]), ops[1..])
  }

  /** blk_alloc_flush_queue */
  function Init(elevator: bool, timeout: nat): Fq {
    Fq(elevator, timeout, [], [], false, false, [], 0, map[], map[], Times(0, map[], []), 0, [])
  }

  lemma {:induction false} RunKeepsInv(s: Fq, ops: seq<Op>)
    requires Inv(s) && Legal(s, ops)
    ensures Inv(Exec(s, ops))
    decreases |ops|
  {
    if ops != [] {
      StepKeepsInv(s, ops[0]);
      RunKeepsInv(Apply(s, ops[0]), ops[1..]);
    }
  }

  /** Every history of every run: flush steps are finished only by flushes issued after they were asked
      for, at most one flush is in flight, every request goes through exactly the steps of its policy in
      order and is ended once, each unfinished request is on the one list of its current step, and
      nobody waits without a reason. */
  lemma EveryRun(elevator: bool, timeout: nat, ops: seq<Op>)
    requires Legal(Init(elevator, timeout), ops)
    ensures
      var s := Exec(Init(elevator, timeout), ops);
      && FlushesCover(s.log)
      && AtMostOneFlush(s.log)
      && (forall id :: id in s.policy ==> LifeOk(s, id))
      && Partitioned(s) && Matched(s)
      && NotStranded(s)
      && (forall op :: Enabled(s, op) ==> NoBug(s, op))
  {
    var s := Exec(Init(elevator, timeout), ops);
    RunKeepsInv(Init(elevator, timeout), ops);
    forall op | Enabled(s, op) ensures NoBug(s, op) {
      BugsUnreachable(s, op);
    }
  }

  // ---------------------------------------------------------------------------------------------
  // Nobody is stranded: the work drains
  // ---------------------------------------------------------------------------------------------

  /** Steps a request may still have to go through. */
  function Togo(seqs: map<Id, Mask>, id: Id): nat {
    if id !in seqs then 0
    else
      match CurSeq(seqs[id])
      case Pre => 3
      case Data => 2
      case Post => 1
      case Done => 0
  }

  function Load(l: seq<Id>, seqs: map<Id, Mask>): nat {
    if l == [] then 0 else Togo(seqs, l[0]) + Load(l[1..], seqs)
  }

  function Work(s: Fq): nat {
    Load(s.queue0, s.seqs) + Load(s.queue1, s.seqs) + Load(s.inFlight, s.seqs)
  }

  lemma {:induction false} LoadWithout(l: seq<Id>, x: Id, seqs: map<Id, Mask>, later: map<Id, Mask>)
    requires Distinct(l)
    requires forall y :: y != x ==> Togo(later, y) == Togo(seqs, y)
    ensures Load(Without(l, x), later) == Load(l, seqs) - if x in l then Togo(seqs, x) else 0
  {
    if l != [] {
      LoadWithout(l[1..], x, seqs, later);
      if l[0] == x {
        LoadElsewhere(l[1..], x, seqs, later);
      } else {
        assert Without(l, x)[1..] == Without(l[1..], x);
      }
    }
  }

  lemma {:induction false} LoadElsewhere(l: seq<Id>, x: Id, seqs: map<Id, Mask>, later: map<Id, Mask>)
    requires x !in l && forall y :: y != x ==> Togo(later, y) == Togo(seqs, y)
    ensures Load(l, later) == Load(l, seqs)
  {
    if l != [] {
      LoadElsewhere(l[1..], x, seqs, later);
    }
  }

  lemma {:induction false} LoadSnoc(l: seq<Id>, x: Id, seqs: map<Id, Mask>)
    ensures Load(l + [x], seqs) == Load(l, seqs) + Togo(seqs, x)
  {
    if l != [] {
      LoadSnoc(l[1..], x, seqs);
      assert (l + [x])[1..] == l[1..] + [x];
    }
  }

  lemma LoadMoved(l: seq<Id>, x: Id, here: bool, seqs: map<Id, Mask>, later: map<Id, Mask>)
    requires Distinct(l)
    requires forall y :: y != x ==> Togo(later, y) == Togo(seqs, y)
    ensures Load(Moved(l, x, here), later)
         == Load(l, seqs) - (if x in l then Togo(seqs, x) else 0) + if here then Togo(later, x) else 0
  {
    LoadWithout(l, x, seqs, later);
    LoadSnoc(Without(l, x), x, later);
  }

  lemma ProgressTogo(s: Fq, id: Id, error: bool, now: int)
    requires OnPolicy(s) && id in s.seqs
    ensures
      var p := Progress(s, id, error, now);
      Togo(p.seqs, id) < Togo(s.seqs, id) && forall y :: y != id ==> Togo(p.seqs, y) == Togo(s.seqs, y)
  {
    AfterIsNext(s, id, error);
  }

  lemma ProgressWork(s: Fq, id: Id, error: bool, now: int)
    requires Partitioned(s) && OnPolicy(s) && id in s.seqs
    ensures Work(Progress(s, id, error, now)) < Work(s)
  {
    var p, next := Progress(s, id, error, now), After(s, id, error);
    ProgressTogo(s, id, error, now);
    LoadMoved(s.queue0, id, IsFlush(next) && !s.pendingIdx, s.seqs, p.seqs);
    LoadMoved(s.queue1, id, IsFlush(next) && s.pendingIdx, s.seqs, p.seqs);
    LoadMoved(s.inFlight, id, next == Data, s.seqs, p.seqs);
  }

  lemma CompleteWork(s: Fq, id: Id, error: bool, t: Reads)
    requires Partitioned(s) && OnPolicy(s) && id in s.seqs
    ensures Work(Complete(s, id, error, t)) < Work(s)
  {
    ProgressWork(s, id, error, t.queuedAt);
  }

  lemma {:induction false} CompleteAllWork(s: Fq, r: bool, rest: seq<Id>, error: bool, clock: Id -> Reads, j: nat,
                                           m: nat)
    requires Walking(s, r, rest, error, j, m)
    ensures Work(CompleteAll(s, rest, error, clock)) + |rest| <= Work(s)
    decreases |rest|
  {
    if rest != [] {
      HeadIsAtFlushStep(s, r, rest, error, j, m);
      CompleteAllHead(s, rest, error, clock);
      Visit(s, r, rest, error, clock(rest[0]), j, m);
      CompleteWork(s, rest[0], error, clock(rest[0]));
      CompleteAllWork(Complete(s, rest[0], error, clock(rest[0])), r, rest[1..], error, clock, j, m);
    }
  }

  lemma FlushEndWork(s: Fq, error: bool, clock: Id -> Reads)
    requires Inv(s) && Flushing(s)
    ensures Work(FlushEndIo(s, error, clock)) < Work(s)
  {
    RetireWalks(s, error);
    FlushEndVisitsSnapshot(s, error, clock);
    CompleteAllWork(RetireFlush(s, error), s.runningIdx, s.Queue(s.runningIdx), error, clock, s.issuedAt, |s.log|);
  }

  lemma CompletionWorks(s: Fq, op: Op)
    requires Inv(s) && Enabled(s, op) && !op.InsertOp?
    ensures Work(Apply(s, op)) < Work(s)
  {
    BugsUnreachable(s, op);
    match op
    case DataEndOp(id, error, t) => CompleteWork(s, id, error, t);
    case FlushEndOp(error, clock) => FlushEndWork(s, error, clock);
  }

  /** The device holds nothing of this queue. */
  ghost predicate DeviceIdle(s: Fq) {
    Outstanding(s.log) == 0 && forall id :: !DataOutstanding(s.log, id)
  }

  lemma TraceOfInFlight(s: Fq, id: Id)
    requires Inv(s) && id in s.inFlight
    ensures DataOutstanding(s.log, id)
  {
    assert LifeOk(s, id);
  }

  /** Once the device has completed all it was given, all three lists are empty. */
  lemma IdleMeansEmpty(s: Fq)
    requires Inv(s) && DeviceIdle(s)
    ensures s.queue0 == [] && s.queue1 == [] && s.inFlight == [] && s.seqs == map[]
  {
    if s.inFlight != [] {
      TraceOfInFlight(s, s.inFlight[0]);
    }
    assert s.seqs.Keys == {};
  }

  lemma CompletionStep(s: Fq, op: Op)
    requires Inv(s) && Enabled(s, op) && !op.InsertOp?
    ensures Inv(Apply(s, op)) && Work(Apply(s, op)) < Work(s)
  {
    StepKeepsInv(s, op);
    CompletionWorks(s, op);
  }

  predicate OnlyCompletions(ops: seq<Op>) {
    ops == [] || (!ops[0].InsertOp? && OnlyCompletions(ops[1..]))
  }

  lemma {:induction false} CompletionsAreBounded(s: Fq, ops: seq<Op>)
    requires Inv(s) && Legal(s, ops) && OnlyCompletions(ops)
    ensures |ops| + Work(Exec(s, ops)) <= Work(s)
    decreases |ops|
  {
    if ops != [] {
      CompletionStep(s, ops[0]);
      CompletionsAreBounded(Apply(s, ops[0]), ops[1..]);
    }
  }

  /** Without new requests only finitely many completions are possible, and when the device has
      delivered all of them the queue is empty: every request has been ended. */
  lemma Drains(s: Fq, ops: seq<Op>)
    requires Inv(s) && Legal(s, ops) && OnlyCompletions(ops)
    ensures |ops| <= Work(s)
    ensures var r := Exec(s, ops);
      DeviceIdle(r) ==> r.queue0 == [] && r.queue1 == [] && r.inFlight == [] && r.seqs == map[]
  {
    CompletionsAreBounded(s, ops);
    RunKeepsInv(s, ops);
    if DeviceIdle(Exec(s, ops)) {
      IdleMeansEmpty(Exec(s, ops));
    }
  }
}
