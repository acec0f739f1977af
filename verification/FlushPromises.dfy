/** What a PREFLUSH or FUA request gets (the header of block/blk-flush.c), in terms of the flags of the queue and of the
    request alone. */
module FlushPromises {
  import opened Lists
  import opened ListWalks
  import opened FlushSequencing
  import opened FlushProofs
  import opened FlushRuns

  /** The device cache has to be flushed before the request. */
  predicate NeedsPre(q: QueueFlags, c: Command) {
    q.writeCache && c.preflush
  }

  /** ... and after it: the data must not stay in the cache, and the device cannot see to that itself. */
  predicate NeedsPost(q: QueueFlags, c: Command) {
    q.writeCache && c.fua && !q.fua
  }

  predicate HasData(c: Command) {
    c.sectors > 0
  }

  /** What blk_insert_flush does at once: end the request if there is nothing to do, pass it on if there is only data to
      transfer. */
  lemma Disposed(q: QueueFlags, c: Command)
    ensures
      var d, flush := Dispose(Policy(q, c)), NeedsPre(q, c) || NeedsPost(q, c);
      && (d == EndedNow <==> !flush && !HasData(c))
      && (d == Bypassed <==> !flush && HasData(c))
      && (d == Sequenced <==> flush)
  {
  }

  // ---------------------------------------------------------------------------------------------
  // Positions in a history
  // ---------------------------------------------------------------------------------------------

  lemma {:induction false} TracePrefix(log: seq<Event>, k: nat, id: Id)
    requires k < |log| && About(log[k], id)
    ensures
      var n := |Trace(log[..k], id)|;
      n < |Trace(log, id)| && Trace(log, id)[n] == log[k] && Trace(log, id)[..n] == Trace(log[..k], id)
  {
    var m := |log| - 1;
    TraceSnoc(log[..m], log[m], id);
    assert log == log[..m] + [log[m]];
    if k < m {
      TracePrefix(log[..m], k, id);
      assert log[..m][..k] == log[..k];
    }
  }

  lemma {:induction false} TraceAt(log: seq<Event>, id: Id, n: nat) returns (k: nat)
    requires n < |Trace(log, id)|
    ensures k < |log| && log[k] == Trace(log, id)[n] && About(log[k], id) && |Trace(log[..k], id)| == n
  {
    var m := |log| - 1;
    TraceSnoc(log[..m], log[m], id);
    assert log == log[..m] + [log[m]];
    if n == |Trace(log[..m], id)| {
      k := m;
    } else {
      k := TraceAt(log[..m], id, n);
      assert log[..m][..k] == log[..k];
    }
  }

  /** What happened to the request before position e, in order. */
  lemma Earlier(log: seq<Event>, e: nat, id: Id, x: Event) returns (k: nat)
    requires e <= |log| && x in Trace(log[..e], id)
    ensures k < e && log[k] == x
  {
    var n :| 0 <= n < |Trace(log[..e], id)| && Trace(log[..e], id)[n] == x;
    k := TraceAt(log[..e], id, n);
  }

  /** A life, complete or not. */
  ghost predicate IsLife(w: seq<Event>, id: Id, p: Mask) {
    || w == Script(id, p)
    || (exists step :: p.Has(step) && (w == Upto(id, p, step) || w == FailedAt(id, p, step)))
  }

  lemma LifeIs(s: Fq, id: Id)
    requires Inv(s) && id in s.policy
    ensures IsLife(Trace(s.log, id), id, s.policy[id])
  {
    assert LifeOk(s, id);
  }

  lemma BeforeEnd(w: seq<Event>, id: Id, p: Mask, n: nat)
    requires IsLife(w, id, p) && n < |w| && w[n] == End(id, false)
    ensures w[..n] == PostEvents(id, p)
  {
    if w == Script(id, p) {
      var m := |PostEvents(id, p)|;
      assert w[..m] == PostEvents(id, p);
    }
  }

  lemma BeforeSubmit(w: seq<Event>, id: Id, p: Mask, n: nat)
    requires IsLife(w, id, p) && n < |w| && w[n] == Submit(id)
    ensures w[..n] == PreEvents(id, p)
  {
  }

  lemma BeforePost(w: seq<Event>, id: Id, p: Mask, n: nat)
    requires IsLife(w, id, p) && n < |w| && w[n] == Queue(id, Post)
    ensures w[..n] == DataEvents(id, p)
  {
  }

  // ---------------------------------------------------------------------------------------------
  // The policy of a request is fixed when it is inserted
  // ---------------------------------------------------------------------------------------------

  lemma {:induction false} WalkPolicy(r: bool, error: bool, clock: Id -> Reads, s: Fq, cursor: Option<Id>, fuel: nat)
    ensures Walk(Lister(r), Visitor(error, clock), s, cursor, fuel).policy == s.policy
    decreases fuel
  {
    if cursor.Some? && fuel > 0 {
      WalkPolicy(r, error, clock, Visitor(error, clock)(s, cursor.value), NextOf(Lister(r)(s), cursor.value), fuel - 1);
    }
  }

  lemma StepPolicy(s: Fq, op: Op, id: Id)
    requires Enabled(s, op) && id in s.policy
    ensures id in Apply(s, op).policy && Apply(s, op).policy[id] == s.policy[id]
  {
    if op.FlushEndOp? {
      var l := s.Queue(s.runningIdx);
      WalkPolicy(s.runningIdx, op.error, op.clock, RetireFlush(s, op.error), FirstOf(l), 2 * |l|);
    }
  }

  lemma {:induction false} PolicyStays(s: Fq, ops: seq<Op>, id: Id)
    requires Legal(s, ops) && id in s.policy
    ensures id in Exec(s, ops).policy && Exec(s, ops).policy[id] == s.policy[id]
    decreases |ops|
  {
    if ops != [] {
      StepPolicy(s, ops[0], id);
      PolicyStays(Apply(s, ops[0]), ops[1..], id);
    }
  }

  lemma {:induction false} InsertedPolicy(s: Fq, ops: seq<Op>, i: nat)
    requires Legal(s, ops) && i < |ops| && ops[i].InsertOp? && (NeedsPre(ops[i].flags, ops[i].cmd)
             || NeedsPost(ops[i].flags, ops[i].cmd))
    ensures ops[i].id in Exec(s, ops).policy
    ensures
      var q, c := ops[i].flags, ops[i].cmd;
      Exec(s, ops).policy[ops[i].id] == Mask(NeedsPre(q, c), HasData(c), NeedsPost(q, c))
    decreases |ops|
  {
    if i == 0 {
      Disposed(ops[0].flags, ops[0].cmd);
      PolicyStays(Apply(s, ops[0]), ops[1..], ops[0].id);
    } else {
      InsertedPolicy(Apply(s, ops[0]), ops[1..], i - 1);
    }
  }

  // ---------------------------------------------------------------------------------------------
  // The promises
  // ---------------------------------------------------------------------------------------------

  /** Before position e the data of the request has been transferred. */
  ghost predicate DataDone(log: seq<Event>, e: nat, id: Id) {
    exists d :: 0 <= d < e && d < |log| && log[d] == Finish(id, Data, false)
  }

  /** Before position e the cache was flushed for the request, by a flush issued after it had asked. */
  ghost predicate FlushedFirst(log: seq<Event>, e: nat, id: Id) {
    exists k :: 0 <= k < e && k < |log| && log[k] == Finish(id, Pre, false) && Served(log, k)
  }

  /** Before position e a flush that was issued after the data of the request had been transferred, if it has any, was
      completed for it. */
  ghost predicate Durable(log: seq<Event>, e: nat, id: Id, data: bool) {
    exists k, j, m :: DurableBy(log, e, id, data, k, j, m)
  }

  ghost predicate DurableBy(log: seq<Event>, e: nat, id: Id, data: bool, k: nat, j: nat, m: nat) {
    && k < e && k < |log| && log[k] == Finish(id, Post, false) && ServedBy(log, k, j, m)
    && (data ==> DataDone(log, j, id))
  }

  lemma DataIsDone(log: seq<Event>, e: nat, id: Id)
    requires e <= |log| && Finish(id, Data, false) in Trace(log[..e], id)
    ensures DataDone(log, e, id)
  {
    var d := Earlier(log, e, id, Finish(id, Data, false));
  }

  lemma IsFlushedFirst(log: seq<Event>, e: nat, id: Id)
    requires e <= |log| && Finish(id, Pre, false) in Trace(log[..e], id) && FlushesCover(log)
    ensures FlushedFirst(log, e, id)
  {
    var k := Earlier(log, e, id, Finish(id, Pre, false));
  }

  /** Who asks for the flush after the data has transferred the data. */
  lemma AskedAfterData(log: seq<Event>, j: nat, id: Id, p: Mask)
    requires IsLife(Trace(log, id), id, p) && p.data && QueuedBefore(log, j, id, Post)
    ensures DataDone(log, j, id)
  {
    var i :| 0 <= i < j && i < |log| && log[i] == Queue(id, Post);
    TracePrefix(log, i, id);
    BeforePost(Trace(log, id), id, p, |Trace(log[..i], id)|);
    assert Finish(id, Data, false) == DataEvents(id, p)[|DataEvents(id, p)| - 1];
    DataIsDone(log, i, id);
  }

  lemma IsDurable(log: seq<Event>, e: nat, id: Id, p: Mask)
    requires e <= |log| && Finish(id, Post, false) in Trace(log[..e], id) && FlushesCover(log)
    requires IsLife(Trace(log, id), id, p)
    ensures Durable(log, e, id, p.data)
  {
    var k := Earlier(log, e, id, Finish(id, Post, false));
    assert Served(log, k);
    var j, m :| ServedBy(log, k, j, m);
    if p.data {
      AskedAfterData(log, j, id, p);
    }
    assert DurableBy(log, e, id, p.data, k, j, m);
  }

  lemma AllSteps(id: Id, p: Mask)
    ensures p.pre ==> Finish(id, Pre, false) in PostEvents(id, p)
    ensures p.data ==> Finish(id, Data, false) in PostEvents(id, p)
    ensures p.post ==> Finish(id, Post, false) in PostEvents(id, p)
  {
    var w := PostEvents(id, p);
    if p.pre {
      assert w[2] == Finish(id, Pre, false);
    }
    if p.data {
      assert w[|DataEvents(id, p)| - 1] == Finish(id, Data, false);
    }
    if p.post {
      assert w[|w| - 1] == Finish(id, Post, false);
    }
  }

  /** A request that is ended without error has got what it needed. */
  lemma KeptAtEnd(s: Fq, id: Id, e: nat)
    requires Inv(s) && id in s.policy && e < |s.log| && s.log[e] == End(id, false)
    ensures
      var p := s.policy[id];
      && (p.pre ==> FlushedFirst(s.log, e, id))
      && (p.data ==> DataDone(s.log, e, id))
      && (p.post ==> Durable(s.log, e, id, p.data))
  {
    var p := s.policy[id];
    LifeIs(s, id);
    TracePrefix(s.log, e, id);
    BeforeEnd(Trace(s.log, id), id, p, |Trace(s.log[..e], id)|);
    AllSteps(id, p);
    if p.pre {
      IsFlushedFirst(s.log, e, id);
    }
    if p.data {
      DataIsDone(s.log, e, id);
    }
    if p.post {
      IsDurable(s.log, e, id, p);
    }
  }

  lemma KeptAtSubmit(s: Fq, id: Id, u: nat)
    requires Inv(s) && id in s.policy && u < |s.log| && s.log[u] == Submit(id) && s.policy[id].pre
    ensures FlushedFirst(s.log, u, id)
  {
    LifeIs(s, id);
    TracePrefix(s.log, u, id);
    BeforeSubmit(Trace(s.log, id), id, s.policy[id], |Trace(s.log[..u], id)|);
    assert Finish(id, Pre, false) == PreEvents(id, s.policy[id])[2];
    IsFlushedFirst(s.log, u, id);
  }

  /** In every run, for every request with PREFLUSH or FUA on a queue where that matters: with PREFLUSH its data is not
      handed out before the cache has been flushed for it; and when it is ended without error, its data has been
      transferred and, with FUA on a device that does not do that itself, the cache has been flushed after that. */
  lemma EveryPromise(elevator: bool, timeout: nat, ops: seq<Op>, i: nat)
    requires Legal(Init(elevator, timeout), ops) && i < |ops| && ops[i].InsertOp?
    requires NeedsPre(ops[i].flags, ops[i].cmd) || NeedsPost(ops[i].flags, ops[i].cmd)
    ensures
      var log, id, q, c := Exec(Init(elevator, timeout), ops).log, ops[i].id, ops[i].flags, ops[i].cmd;
      && (forall u :: 0 <= u < |log| && log[u] == Submit(id) && NeedsPre(q, c) ==> FlushedFirst(log, u, id))
      && (forall e :: 0 <= e < |log| && log[e] == End(id, false) ==>
            && (NeedsPre(q, c) ==> FlushedFirst(log, e, id))
            && (HasData(c) ==> DataDone(log, e, id))
            && (NeedsPost(q, c) ==> Durable(log, e, id, HasData(c))))
  {
    var s, id := Exec(Init(elevator, timeout), ops), ops[i].id;
    RunKeepsInv(Init(elevator, timeout), ops);
    InsertedPolicy(Init(elevator, timeout), ops, i);
    forall u | 0 <= u < |s.log| && s.log[u] == Submit(id) && s.policy[id].pre ensures FlushedFirst(s.log, u, id) {
      KeptAtSubmit(s, id, u);
    }
    forall e | 0 <= e < |s.log| && s.log[e] == End(id, false)
      ensures s.policy[id].pre ==> FlushedFirst(s.log, e, id)
      ensures s.policy[id].data ==> DataDone(s.log, e, id)
      ensures s.policy[id].post ==> Durable(s.log, e, id, s.policy[id].data)
    {
      KeptAtEnd(s, id, e);
    }
  }

  /** The request has been ended: with an error iff one of its steps failed. */
  ghost predicate Ended(log: seq<Event>, id: Id) {
    exists e, error :: 0 <= e < |log| && log[e] == End(id, error)
      && (error <==> exists k, step :: 0 <= k < |log| && log[k] == Finish(id, step, true))
  }

  lemma LifeEnds(log: seq<Event>, id: Id, p: Mask)
    requires Trace(log, id) == Script(id, p) || exists step :: p.Has(step) && Trace(log, id) == FailedAt(id, p, step)
    ensures Ended(log, id)
  {
    var w := Trace(log, id);
    var e := TraceAt(log, id, |w| - 1);
    forall k, step | 0 <= k < |log| && log[k] == Finish(id, step, true) ensures log[k] in w {
      TracePrefix(log, k, id);
    }
    if w != Script(id, p) {
      var step :| p.Has(step) && w == FailedAt(id, p, step);
      assert w[|w| - 2] == Finish(id, step, true);
      var k := TraceAt(log, id, |w| - 2);
      assert log[e] == End(id, true);
    } else {
      assert log[e] == End(id, false);
    }
  }

  /** And it is ended: once the device has completed all it was given, with an error iff one of its steps failed. */
  lemma EveryoneEnds(elevator: bool, timeout: nat, ops: seq<Op>, i: nat)
    requires Legal(Init(elevator, timeout), ops) && i < |ops| && ops[i].InsertOp?
    requires NeedsPre(ops[i].flags, ops[i].cmd) || NeedsPost(ops[i].flags, ops[i].cmd)
    requires DeviceIdle(Exec(Init(elevator, timeout), ops))
    ensures Ended(Exec(Init(elevator, timeout), ops).log, ops[i].id)
  {
    var s := Exec(Init(elevator, timeout), ops);
    RunKeepsInv(Init(elevator, timeout), ops);
    InsertedPolicy(Init(elevator, timeout), ops, i);
    IdleMeansEmpty(s);
    assert LifeOk(s, ops[i].id);
    LifeEnds(s.log, ops[i].id, s.policy[ops[i].id]);
  }
}
