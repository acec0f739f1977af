/** When flushes are issued (conditions C2 and C3 of block/blk-flush.c): not while DATA is in flight, unless a request
    has waited too long; and then at the next occasion. */
module FlushTimes {
  import opened Lists
  import opened ListWalks
  import opened FlushSequencing
  import opened FlushProofs
  import opened FlushRuns

  /** flush_pending_since is when the first of the waiting requests joined. */
  predicate SinceFirst(s: Fq) {
    s.Queue(s.pendingIdx) != [] ==> s.since == s.times.JoinedAt(s.Queue(s.pendingIdx)[0])
  }

  /** With a scheduler, a flush was issued while DATA was in flight only if somebody had waited for the timeout. */
  predicate Deferred(s: Fq) {
    forall i :: 0 <= i < |s.times.notes| ==>
      s.elevator && s.times.notes[i].busy ==> s.times.notes[i].waiting + s.timeout <= s.times.notes[i].at
  }

  lemma AdvanceTimes(s: Fq, id: Id, steps: Mask, error: bool, now: int)
    requires id in s.seqs && !s.seqs[id].Meets(steps) && id !in s.Queue(s.pendingIdx) && Distinct(s.Queue(s.pendingIdx))
    requires SinceFirst(s)
    ensures SinceFirst(Advance(s, id, steps, error, now))
  {
    WithoutMembers(s.Queue(s.pendingIdx), id);
  }

  lemma KickTimes(s: Fq, now: int)
    requires SinceFirst(s) && Deferred(s)
    ensures Deferred(Kick(s, now))
    ensures s.Queue(!s.pendingIdx) == [] || Flushing(s) ==> SinceFirst(Kick(s, now))
  {
  }

  lemma InsertTimes(s: Fq, id: Id, p: Mask, t: Reads)
    requires Inv(s) && id !in s.policy && SinceFirst(s) && Deferred(s)
    ensures SinceFirst(InsertFlush(s, id, p, t)) && Deferred(InsertFlush(s, id, p, t))
  {
    if Dispose(p) == Sequenced {
      AdvanceTimes(Admit(s, id, p), id, p.Not(), false, t.queuedAt);
      KickTimes(Enter(s, id, p, t.queuedAt), t.kickedAt);
    }
  }

  lemma CompleteTimes(s: Fq, id: Id, error: bool, t: Reads)
    requires id in s.seqs && id !in s.Queue(s.pendingIdx) && Distinct(s.Queue(s.pendingIdx))
    requires SinceFirst(s) && Deferred(s)
    ensures Deferred(Complete(s, id, error, t))
    ensures Complete(s, id, error, t).pendingIdx == s.pendingIdx ==> SinceFirst(Complete(s, id, error, t))
  {
    AdvanceTimes(Record(s, Finish(id, Cur(s, id), error)), id, Bit(Cur(s, id)), error, t.queuedAt);
    KickTimes(Progress(s, id, error, t.queuedAt), t.kickedAt);
  }

  lemma DataEndTimes(s: Fq, id: Id, error: bool, t: Reads)
    requires Inv(s) && id in s.inFlight && SinceFirst(s) && Deferred(s)
    ensures SinceFirst(Complete(s, id, error, t)) && Deferred(Complete(s, id, error, t))
  {
    CompleteTimes(s, id, error, t);
    DataEndKeepsInv(s, id, error, t);
    ToggledIsEmpty(s, id, error, t);
  }

  /** A flush issued now leaves an empty pending list. */
  lemma ToggledIsEmpty(s: Fq, id: Id, error: bool, t: Reads)
    requires Apart(s) && id in s.seqs && (!Flushing(s) ==> s.Queue(!s.pendingIdx) == [])
    ensures
      var w := Complete(s, id, error, t);
      w.pendingIdx != s.pendingIdx ==> w.Queue(w.pendingIdx) == []
  {
  }

  /** Inside the completion loop the list being walked may be the pending one. */
  predicate WalkTimes(s: Fq, r: bool) {
    Deferred(s) && (s.pendingIdx != r ==> SinceFirst(s))
  }

  lemma WalkedTimes(s: Fq, r: bool, id: Id, error: bool, t: Reads)
    requires id in s.seqs && id !in s.Queue(!r) && Distinct(s.Queue(!r)) && s.runningIdx == !r && WalkTimes(s, r)
    ensures WalkTimes(Complete(s, id, error, t), r)
  {
    if s.pendingIdx != r {
      CompleteTimes(s, id, error, t);
    }
  }

  lemma VisitTimes(s: Fq, r: bool, rest: seq<Id>, error: bool, t: Reads, j: nat, m: nat)
    requires Walking(s, r, rest, error, j, m) && rest != [] && WalkTimes(s, r)
    ensures WalkTimes(Complete(s, rest[0], error, t), r)
  {
    assert rest[0] in s.Queue(r);
    WalkedTimes(s, r, rest[0], error, t);
  }

  lemma {:induction false} CompleteAllTimes(s: Fq, r: bool, rest: seq<Id>, error: bool, clock: Id -> Reads, j: nat,
                                            m: nat)
    requires Walking(s, r, rest, error, j, m) && WalkTimes(s, r)
    ensures WalkTimes(CompleteAll(s, rest, error, clock), r)
    decreases |rest|
  {
    if rest != [] {
      HeadIsAtFlushStep(s, r, rest, error, j, m);
      CompleteAllHead(s, rest, error, clock);
      Visit(s, r, rest, error, clock(rest[0]), j, m);
      VisitTimes(s, r, rest, error, clock(rest[0]), j, m);
      CompleteAllTimes(Complete(s, rest[0], error, clock(rest[0])), r, rest[1..], error, clock, j, m);
    }
  }

  lemma FlushEndTimes(s: Fq, error: bool, clock: Id -> Reads)
    requires Inv(s) && Flushing(s) && SinceFirst(s) && Deferred(s)
    ensures SinceFirst(FlushEndIo(s, error, clock)) && Deferred(FlushEndIo(s, error, clock))
  {
    var r, l := s.runningIdx, s.Queue(s.runningIdx);
    RetireWalks(s, error);
    FlushEndVisitsSnapshot(s, error, clock);
    CompleteAllTimes(RetireFlush(s, error), r, l, error, clock, s.issuedAt, |s.log|);
  }

  lemma StepTimes(s: Fq, op: Op)
    requires Inv(s) && Enabled(s, op) && SinceFirst(s) && Deferred(s)
    ensures SinceFirst(Apply(s, op)) && Deferred(Apply(s, op))
  {
    BugsUnreachable(s, op);
    match op
    case InsertOp(id, flags, cmd, t) => InsertTimes(s, id, Policy(flags, cmd), t);
    case DataEndOp(id, error, t) => DataEndTimes(s, id, error, t);
    case FlushEndOp(error, clock) => FlushEndTimes(s, error, clock);
  }

  lemma {:induction false} RunTimes(s: Fq, ops: seq<Op>)
    requires Inv(s) && Legal(s, ops) && SinceFirst(s) && Deferred(s)
    ensures SinceFirst(Exec(s, ops)) && Deferred(Exec(s, ops))
    decreases |ops|
  {
    if ops != [] {
      StepKeepsInv(s, ops[0]);
      StepTimes(s, ops[0]);
      RunTimes(Apply(s, ops[0]), ops[1..]);
    }
  }

  /** In every run: C2, flushes are deferred while DATA is in flight, but for C3; and C3, whenever the machinery rests
      with requests waiting and no flush under way, there is a scheduler, DATA is in flight, and at the last occasion
      the request that has waited longest had not waited for the timeout. */
  lemma FlushTiming(elevator: bool, timeout: nat, ops: seq<Op>)
    requires Legal(Init(elevator, timeout), ops)
    ensures
      var s := Exec(Init(elevator, timeout), ops);
      && Deferred(s)
      && (!Flushing(s) && s.Queue(s.pendingIdx) != [] ==>
            s.elevator && s.inFlight != [] && s.times.lastKick < s.times.JoinedAt(s.Queue(s.pendingIdx)[0]) + s.timeout)
  {
    RunKeepsInv(Init(elevator, timeout), ops);
    RunTimes(Init(elevator, timeout), ops);
  }
}
