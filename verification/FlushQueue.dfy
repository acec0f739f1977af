/** The flush queue as the mutable object it is (struct blk_flush_queue), its methods following the code
    of block/blk-flush.c statement by statement, each tied to the transition function it implements. */
module FlushQueues {
  import opened Lists
  import opened ListWalks
  import opened FlushSequencing
  import opened FlushProofs
  import opened FlushRuns

  class FlushQueue {
    const elevator: bool
    const timeout: nat
    var queue0: seq<Id>
    var queue1: seq<Id>
    var pendingIdx: bool
    var runningIdx: bool
    var inFlight: seq<Id>
    var since: int
    var seqs: map<Id, Mask>
    ghost var policy: map<Id, Mask>
    ghost var times: Times
    ghost var issuedAt: nat
    ghost var log: seq<Event>

    ghost function State(): Fq
      reads this
    {
      Fq(elevator, timeout, queue0, queue1, pendingIdx, runningIdx, inFlight, since, seqs, policy, times, issuedAt, log)
    }

    constructor (elevator: bool, timeout: nat)
      ensures State() == Init(elevator, timeout)
    {
      this.elevator, this.timeout := elevator, timeout;
      queue0, queue1, inFlight := [], [], [];
      pendingIdx, runningIdx := false, false;
      since, seqs := 0, map[];
      policy, times, issuedAt, log := map[], Times(0, map[], []), 0, [];
    }

    function List(k: bool): seq<Id>
      reads this
    {
      if k then queue1 else queue0
    }

    /** blk_kick_flush */
    method KickFlush(now: int)
      modifies this
      ensures State() == Kick(old(State()), now)
    {
      if pendingIdx != runningIdx || List(pendingIdx) == [] {
        times := times.Kicked(now);
        return;
      }
      if inFlight != [] && elevator && now < since + timeout {
        times := times.Kicked(now);
        return;
      }
      times := times.Issued(now, inFlight != [], List(pendingIdx)[0]);
      pendingIdx := !pendingIdx;
      issuedAt, log := |log|, log + [Issue];
    }

    /** The switch of blk_flush_complete_seq: list_move_tail or list_del_init. */
    method Move(id: Id, next: Step, now: int)
      modifies this`queue0, this`queue1, this`inFlight, this`since
      ensures queue0 == Moved(old(queue0), id, IsFlush(next) && !pendingIdx)
      ensures queue1 == Moved(old(queue1), id, IsFlush(next) && pendingIdx)
      ensures inFlight == Moved(old(inFlight), id, next == Data)
      ensures since == if IsFlush(next) && old(List(pendingIdx)) == [] then now else old(since)
    {
      if IsFlush(next) && List(pendingIdx) == [] {
        since := now;
      }
      queue0, queue1, inFlight := Without(queue0, id), Without(queue1, id), Without(inFlight, id);
      match next {
        case Done =>
        case Data => inFlight := inFlight + [id];
        case _ =>
          if pendingIdx {
            queue1 := queue1 + [id];
          } else {
            queue0 := queue0 + [id];
          }
      }
    }

    /** The steps are recorded, and the request moves on. */
    method MoveOn(id: Id, steps: Mask, error: bool, now: int)
      requires id in seqs && !seqs[id].Meets(steps)
      modifies this
      ensures State() == Advance(old(State()), id, steps, error, now)
    {
      ghost var s := State();
      var seqDone := seqs[id].Or(steps);
      var next := NextStep(seqDone, error);
      Move(id, next, now);
      seqs := if next == Done then seqs - {id} else seqs[id := seqDone];
      times := if IsFlush(next) then times.Join(id, now) else times;
      log := log + [NextEvent(id, next, error)];
      AdvanceIs(s, State(), id, steps, error, now);
    }

    /** blk_flush_complete_seq */
    method CompleteSeq(id: Id, steps: Mask, error: bool, t: Reads)
      requires id in seqs && !seqs[id].Meets(steps)
      modifies this
      ensures State() == Kick(Advance(old(State()), id, steps, error, t.queuedAt), t.kickedAt)
    {
      MoveOn(id, steps, error, t.queuedAt);
      KickFlush(t.kickedAt);
    }

    /** The current step of `id` is over. */
    method StepDone(id: Id, error: bool, t: Reads)
      requires id in seqs
      modifies this
      ensures State() == Complete(old(State()), id, error, t)
    {
      var step := CurSeq(seqs[id]);
      log := log + [Finish(id, step, error)];
      CompleteSeq(id, Bit(step), error, t);
    }

    /** flush_end_io.  The loop reads the successor of an entry before completing the entry, while
        completing it unlinks the entry and may make the walked list the pending one. */
    method FlushEnd(error: bool, clock: Id -> Reads)
      requires Inv(State()) && Outstanding(log) == 1
      modifies this
      ensures State() == FlushEndIo(old(State()), error, clock)
    {
      var r := runningIdx;
      ghost var rest := Retired(State(), error, clock);
      RetireRunning(error);
      WalkList(r, rest, error, clock, old(issuedAt), old(|log|));
    }

    /** The running list is no longer the running one. */
    method RetireRunning(error: bool)
      modifies this
      ensures State() == RetireFlush(old(State()), error)
    {
      runningIdx := !runningIdx;
      log := log + [FlushDone(error)];
    }

    method WalkList(r: bool, ghost l: seq<Id>, error: bool, clock: Id -> Reads, ghost j: nat, ghost m: nat)
      requires Walking(State(), r, l, error, j, m)
      modifies this
      ensures State() == CompleteAll(old(State()), l, error, clock)
    {
      ghost var rest, goal := l, CompleteAll(State(), l, error, clock);
      var cursor := FirstOf(List(r));
      while cursor.Some?
        invariant Walking(State(), r, rest, error, j, m)
        invariant cursor == FirstOf(rest)
        invariant CompleteAll(State(), rest, error, clock) == goal
        decreases |rest|
      {
        cursor := Visit(cursor.value, r, rest, error, clock, j, m, goal);
        rest := rest[1..];
      }
    }

    /** The body of the loop: the successor is read first. */
    method Visit(rq: Id, r: bool, ghost rest: seq<Id>, error: bool, clock: Id -> Reads, ghost j: nat, ghost m: nat,
                 ghost goal: Fq)
      returns (n: Option<Id>)
      requires Walking(State(), r, rest, error, j, m) && rest != [] && rq == rest[0]
      requires CompleteAll(State(), rest, error, clock) == goal
      modifies this
      ensures Walking(State(), r, rest[1..], error, j, m)
      ensures CompleteAll(State(), rest[1..], error, clock) == goal
      ensures n == FirstOf(rest[1..])
    {
      n := NextOf(List(r), rq);
      HeadIsAtFlushStep(State(), r, rest, error, j, m);
      CompleteAllHead(State(), rest, error, clock);
      FlushProofs.Visit(State(), r, rest, error, clock(rq), j, m);
      StepDone(rq, error, clock(rq));
    }

    /** mq_flush_data_end_io */
    method DataEnd(id: Id, error: bool, t: Reads)
      requires Inv(State()) && DataOutstanding(log, id)
      modifies this
      ensures State() == Apply(old(State()), DataEndOp(id, error, t))
    {
      OutstandingDataIsLive(State(), id);
      StepDone(id, error, t);
    }

    /** blk_insert_flush */
    method Insert(id: Id, flags: QueueFlags, cmd: Command, t: Reads) returns (d: Disposition)
      modifies this
      ensures
        var flush := flags.writeCache && (cmd.preflush || (cmd.fua && !flags.fua));
        && (d == EndedNow <==> !flush && cmd.sectors == 0)
        && (d == Bypassed <==> !flush && cmd.sectors > 0)
        && (!flush ==> State() == old(State()))
      ensures State() == InsertFlush(old(State()), id, Policy(flags, cmd), t)
    {
      var p := Policy(flags, cmd);
      if p == NOTHING {
        return EndedNow;
      }
      if p.data && !p.pre && !p.post {
        return Bypassed;
      }
      seqs := seqs[id := NOTHING];
      policy, log := policy[id := p], log + [FlushSequencing.Insert(id, p)];
      CompleteSeq(id, p.Not(), false, t);
      d := Sequenced;
    }
  }

  /** The new state, field by field. */
  lemma AdvanceIs(s: Fq, r: Fq, id: Id, steps: Mask, error: bool, now: int)
    requires id in s.seqs && !s.seqs[id].Meets(steps)
    requires
      var next := NextStep(s.seqs[id].Or(steps), error);
      && r == s.(queue0 := r.queue0, queue1 := r.queue1, inFlight := r.inFlight, since := r.since, seqs := r.seqs,
                 times := r.times, log := r.log)
      && r.queue0 == Moved(s.queue0, id, IsFlush(next) && !s.pendingIdx)
      && r.queue1 == Moved(s.queue1, id, IsFlush(next) && s.pendingIdx)
      && r.inFlight == Moved(s.inFlight, id, next == Data)
      && r.since == (if IsFlush(next) && s.Queue(s.pendingIdx) == [] then now else s.since)
      && r.seqs == (if next == Done then s.seqs - {id} else s.seqs[id := s.seqs[id].Or(steps)])
      && r.times == (if IsFlush(next) then s.times.Join(id, now) else s.times)
      && r.log == s.log + [NextEvent(id, next, error)]
    ensures r == Advance(s, id, steps, error, now)
  {
  }

  /** The list a completed flush was running for. */
  lemma Retired(s: Fq, error: bool, clock: Id -> Reads) returns (l: seq<Id>)
    requires Inv(s) && Outstanding(s.log) == 1
    ensures l == s.Queue(s.runningIdx)
    ensures Walking(RetireFlush(s, error), s.runningIdx, l, error, s.issuedAt, |s.log|)
    ensures FlushEndIo(s, error, clock) == CompleteAll(RetireFlush(s, error), l, error, clock)
  {
    l := s.Queue(s.runningIdx);
    RetireWalks(s, error);
    FlushEndVisitsSnapshot(s, error, clock);
  }
}
