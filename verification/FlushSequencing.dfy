/** Sequencing of PREFLUSH/FUA requests (block/blk-flush.c).

    A request is decomposed into up to three steps, PREFLUSH, DATA and POSTFLUSH.  All requests of a
    queue share one double-buffered flush queue: requests wait on queue[pendingIdx], one device flush
    serves the list queue[runningIdx], and the two one-bit indices (false is 0) differ exactly while that flush is
    in flight.  `Fq` is the value of `struct blk_flush_queue` together with the `flush.seq` of every
    request under sequencing and a history of what happened.  Every function below is one critical
    section (or part of one) under `mq_flush_lock`. */
module FlushSequencing {
  import opened Lists
  import opened ListWalks

  type Id = nat

  /** REQ_FSEQ_PREFLUSH, REQ_FSEQ_DATA, REQ_FSEQ_POSTFLUSH and REQ_FSEQ_DONE. */
  datatype Step = Pre | Data | Post | Done

  /** A set of REQ_FSEQ_ACTIONS bits. */
  datatype Mask = Mask(pre: bool, data: bool, post: bool) {
    predicate Has(s: Step) {
      match s
      case Pre => pre
      case Data => data
      case Post => post
      case Done => false
    }

    function Or(m: Mask): Mask {
      Mask(pre || m.pre, data || m.data, post || m.post)
    }

    /** REQ_FSEQ_ACTIONS & ~this */
    function Not(): Mask {
      Mask(!pre, !data, !post)
    }

    predicate Meets(m: Mask) {
      (pre && m.pre) || (data && m.data) || (post && m.post)
    }
  }

  const NOTHING := Mask(false, false, false)

  function Bit(s: Step): Mask {
    Mask(s.Pre?, s.Data?, s.Post?)
  }

  /** blk_flush_cur_seq: the lowest clear bit of flush.seq. */
  function CurSeq(seqDone: Mask): Step {
    if !seqDone.pre then Pre
    else if !seqDone.data then Data
    else if !seqDone.post then Post
    else Done
  }

  datatype QueueFlags = QueueFlags(writeCache: bool, fua: bool)
  datatype Command = Command(sectors: nat, preflush: bool, fua: bool)

  /** blk_flush_policy */
  function Policy(q: QueueFlags, c: Command): Mask {
    Mask(q.writeCache && c.preflush, c.sectors != 0, q.writeCache && !q.fua && c.fua)
  }

  /** The steps whose flush has to be issued by this machinery. */
  predicate IsFlush(s: Step) {
    s.Pre? || s.Post?
  }

  /** What the history records. */
  datatype Event =
    | Insert(id: Id, policy: Mask)
    | Queue(id: Id, step: Step)               // joins the pending list for a flush step
    | Submit(id: Id)                          // DATA handed to the dispatcher
    | Finish(id: Id, step: Step, error: bool) // one step of the sequence is over
    | End(id: Id, error: bool)                // blk_mq_end_request
    | Issue                                   // a device flush is issued
    | FlushDone(error: bool)                  // the device flush completes

  /** About one device flush: when it was issued, whether DATA was in flight then, and since when the request that had
      waited longest had been waiting. */
  datatype Note = Note(at: int, busy: bool, waiting: int)

  /** When things happened: the last kick, when each request last joined the pending list, and the device flushes. */
  datatype Times = Times(lastKick: int, joined: map<Id, int>, notes: seq<Note>) {
    function JoinedAt(id: Id): int {
      if id in joined then joined[id] else 0
    }

    function Join(id: Id, now: int): Times {
      this.(joined := joined[id := now])
    }

    function Kicked(now: int): Times {
      this.(lastKick := now)
    }

    function Issued(now: int, busy: bool, first: Id): Times {
      this.(lastKick := now, notes := notes + [Note(now, busy, JoinedAt(first))])
    }
  }

  /** The flush queue.  `policy`, `times`, `issuedAt` and `log` are history: no code reads them. */
  datatype Fq = Fq(
    elevator: bool,
    timeout: nat,
    queue0: seq<Id>,
    queue1: seq<Id>,
    pendingIdx: bool,
    runningIdx: bool,
    inFlight: seq<Id>,
    since: int,
    seqs: map<Id, Mask>,
    policy: map<Id, Mask>,
    times: Times,
    issuedAt: nat,
    log: seq<Event>)
  {
    /** flush_queue[k] */
    function Queue(k: bool): seq<Id> {
      if k then queue1 else queue0
    }
  }

  /** The two jiffies readings one completion may take. */
  datatype Reads = Reads(queuedAt: int, kickedAt: int)

  function Record(s: Fq, e: Event): Fq {
    s.(log := s.log + [e])
  }

  /** list_move_tail and list_del_init: the entry leaves the list it was on; if `here`, it joins this one. */
  function Moved(l: seq<Id>, id: Id, here: bool): seq<Id> {
    if here then Without(l, id) + [id] else Without(l, id)
  }

  /** blk_kick_flush */
  function Kick(s: Fq, now: int): (r: Fq)
  {
    var k := s.(times := s.times.Kicked(now));
    if s.pendingIdx != s.runningIdx || s.Queue(s.pendingIdx) == [] then k
    else if s.inFlight != [] && s.elevator && now < s.since + s.timeout then k
    else
      var times := s.times.Issued(now, s.inFlight != [], s.Queue(s.pendingIdx)[0]);
      Record(s.(times := times, pendingIdx := !s.pendingIdx, issuedAt := |s.log|), Issue)
  }

  /** What blk_flush_complete_seq does next with a request whose flush.seq has become `seqDone`. */
  function NextStep(seqDone: Mask, error: bool): Step {
    if error then Done else CurSeq(seqDone)
  }

  function NextEvent(id: Id, next: Step, error: bool): Event {
    match next
    case Done => End(id, error)
    case Data => Submit(id)
    case step => Queue(id, step)
  }

  /** blk_flush_complete_seq up to the final kick: record `steps`, then move the request to the pending
      list, to the data list, or out of the machinery. */
  function Advance(s: Fq, id: Id, steps: Mask, error: bool, now: int): (r: Fq)
    requires id in s.seqs
    requires !s.seqs[id].Meets(steps)
  {
    var seqDone := s.seqs[id].Or(steps);
    var next := NextStep(seqDone, error);
    s.(queue0 := Moved(s.queue0, id, IsFlush(next) && !s.pendingIdx),
       queue1 := Moved(s.queue1, id, IsFlush(next) && s.pendingIdx),
       inFlight := Moved(s.inFlight, id, next == Data),
       since := if IsFlush(next) && s.Queue(s.pendingIdx) == [] then now else s.since,
       seqs := if next == Done then s.seqs - {id} else s.seqs[id := seqDone],
       times := if IsFlush(next) then s.times.Join(id, now) else s.times,
       log := s.log + [NextEvent(id, next, error)])
  }

  /** blk_flush_complete_seq, called when the current step of `id` is over. */
  function Progress(s: Fq, id: Id, error: bool, now: int): (r: Fq)
    requires id in s.seqs
  {
    var step := CurSeq(s.seqs[id]);
    Advance(Record(s, Finish(id, step, error)), id, Bit(step), error, now)
  }

  function Complete(s: Fq, id: Id, error: bool, t: Reads): (r: Fq)
    requires id in s.seqs
  {
    Kick(Progress(s, id, error, t.queuedAt), t.kickedAt)
  }

  /** What blk_insert_flush does with a request. */
  datatype Disposition = EndedNow | Bypassed | Sequenced

  function Dispose(p: Mask): Disposition {
    if p == NOTHING then EndedNow
    else if p.data && !p.pre && !p.post then Bypassed
    else Sequenced
  }

  /** The request joins the machinery with an empty flush.seq. */
  function Admit(s: Fq, id: Id, p: Mask): (r: Fq)
  {
    Record(s.(seqs := s.seqs[id := NOTHING], policy := s.policy[id := p]), Insert(id, p))
  }

  function InsertFlush(s: Fq, id: Id, p: Mask, t: Reads): (r: Fq)
  {
    if Dispose(p) != Sequenced then s
    else Kick(Advance(Admit(s, id, p), id, p.Not(), false, t.queuedAt), t.kickedAt)
  }

  /** flush_end_io: the completed flush gives up the running index. */
  function RetireFlush(s: Fq, error: bool): (r: Fq)
  {
    Record(s.(runningIdx := !s.runningIdx), FlushDone(error))
  }

  /** The list flush_end_io walks over. */
  function Lister(r: bool): Fq -> seq<Id> {
    (s: Fq) => s.Queue(r)
  }

  /** The body of its loop. */
  function Visitor(error: bool, clock: Id -> Reads): (Fq, Id) -> Fq {
    (s: Fq, id: Id) => if id in s.seqs then Complete(s, id, error, clock(id)) else s
  }

  /** flush_end_io.  The body may change the list being walked.  A request has at most two flush steps, so two
      visits per entry are enough. */
  function FlushEndIo(s: Fq, error: bool, clock: Id -> Reads): (r: Fq)
  {
    var l := s.Queue(s.runningIdx);
    Walk(Lister(s.runningIdx), Visitor(error, clock), RetireFlush(s, error), FirstOf(l), 2 * |l|)
  }

  // ---------------------------------------------------------------------------------------------
  // What the history should look like
  // ---------------------------------------------------------------------------------------------

  predicate FlushEvent(e: Event) {
    e.Issue? || e.FlushDone?
  }

  predicate About(e: Event, id: Id) {
    !FlushEvent(e) && e.id == id
  }

  /** The part of the history that concerns one request. */
  function Trace(log: seq<Event>, id: Id): seq<Event> {
    if log == [] then []
    else
      var last := log[|log| - 1];
      Trace(log[..|log| - 1], id) + if About(last, id) then [last] else []
  }

  /** Device flushes issued and not yet completed. */
  function Outstanding(log: seq<Event>): int {
    if log == [] then 0
    else
      var last := log[|log| - 1];
      Outstanding(log[..|log| - 1]) + if last.Issue? then 1 else if last.FlushDone? then -1 else 0
  }

  ghost predicate AtMostOneFlush(log: seq<Event>) {
    forall n :: 0 <= n <= |log| ==> 0 <= Outstanding(log[..n]) <= 1
  }

  ghost predicate QueuedBefore(log: seq<Event>, n: nat, id: Id, step: Step) {
    exists i :: 0 <= i < n && i < |log| && log[i] == Queue(id, step)
  }

  ghost predicate NoFlushEvent(log: seq<Event>, a: nat, b: nat) {
    forall i :: a < i < b && i < |log| ==> !FlushEvent(log[i])
  }

  /** The step finished at position k was waited for before position j, where a device flush was
      issued, and that very flush completed successfully at position m. */
  ghost predicate ServedBy(log: seq<Event>, k: nat, j: nat, m: nat) {
    && j < m < k < |log|
    && log[j] == Issue
    && log[m] == FlushDone(false)
    && NoFlushEvent(log, j, m)
    && log[k].Finish?
    && QueuedBefore(log, j, log[k].id, log[k].step)
  }

  ghost predicate Served(log: seq<Event>, k: nat) {
    exists j, m :: ServedBy(log, k, j, m)
  }

  /** No flush step is ever finished by a flush that was issued before the request asked for it. */
  ghost predicate FlushesCover(log: seq<Event>) {
    forall k :: 0 <= k < |log| && log[k].Finish? && IsFlush(log[k].step) && !log[k].error ==> Served(log, k)
  }

  function PreEvents(id: Id, p: Mask): seq<Event> {
    [Insert(id, p)] + if p.pre then [Queue(id, Pre), Finish(id, Pre, false)] else []
  }

  function DataEvents(id: Id, p: Mask): seq<Event> {
    PreEvents(id, p) + if p.data then [Submit(id), Finish(id, Data, false)] else []
  }

  function PostEvents(id: Id, p: Mask): seq<Event> {
    DataEvents(id, p) + if p.post then [Queue(id, Post), Finish(id, Post, false)] else []
  }

  /** The whole life of a request: the steps of its policy, each once, in order, then the end. */
  function Script(id: Id, p: Mask): seq<Event> {
    PostEvents(id, p) + [End(id, false)]
  }

  /** The script up to the point where `step` is in progress. */
  function Upto(id: Id, p: Mask, step: Step): seq<Event> {
    match step
    case Pre => [Insert(id, p), Queue(id, Pre)]
    case Data => PreEvents(id, p) + [Submit(id)]
    case Post => DataEvents(id, p) + [Queue(id, Post)]
    case Done => PostEvents(id, p)
  }

  /** The life of a request whose `step` failed. */
  function FailedAt(id: Id, p: Mask, step: Step): seq<Event> {
    Upto(id, p, step) + [Finish(id, step, true), End(id, true)]
  }

  ghost predicate LifeOk(s: Fq, id: Id)
    requires id in s.policy
  {
    var p := s.policy[id];
    if id in s.seqs then Trace(s.log, id) == Upto(id, p, CurSeq(s.seqs[id]))
    else
      || Trace(s.log, id) == Script(id, p)
      || exists step :: p.Has(step) && Trace(s.log, id) == FailedAt(id, p, step)
  }

  // ---------------------------------------------------------------------------------------------
  // The invariant
  // ---------------------------------------------------------------------------------------------

  /** Nobody is on two lists, or twice on one. */
  ghost predicate Apart(s: Fq) {
    && Distinct(s.queue0) && Distinct(s.queue1) && Distinct(s.inFlight)
    && (forall id :: id in s.queue0 ==> id !in s.queue1 && id !in s.inFlight)
    && (forall id :: id in s.queue1 ==> id !in s.inFlight)
  }

  /** Every request under sequencing is on exactly one of the three lists, and nobody else is. */
  ghost predicate Partitioned(s: Fq) {
    Apart(s) && forall id :: id in s.seqs <==> id in s.queue0 || id in s.queue1 || id in s.inFlight
  }

  /** ... and it is the list of its current step. */
  ghost predicate Matched(s: Fq)
    requires Partitioned(s)
  {
    && (forall id :: id in s.queue0 ==> IsFlush(CurSeq(s.seqs[id])))
    && (forall id :: id in s.queue1 ==> IsFlush(CurSeq(s.seqs[id])))
    && (forall id :: id in s.inFlight ==> CurSeq(s.seqs[id]) == Data)
  }

  /** Both flushes and nothing between them. */
  predicate Bare(p: Mask) {
    p.pre && p.post && !p.data
  }

  /** A policy that reaches the machinery, and does not ask for two flushes in a row. */
  predicate Sensible(p: Mask) {
    (p.pre || p.post) && !Bare(p)
  }

  function Before(step: Step): Mask {
    Mask(!step.Pre?, step.Post? || step.Done?, step.Done?)
  }

  /** flush.seq holds the steps outside the policy and the ones already done. */
  ghost predicate OnPolicy(s: Fq) {
    && s.seqs.Keys <= s.policy.Keys
    && forall id :: id in s.seqs ==>
      var p, cur := s.policy[id], CurSeq(s.seqs[id]);
      Sensible(p) && p.Has(cur) && s.seqs[id] == p.Not().Or(Before(cur))
  }

  ghost predicate Lives(s: Fq) {
    && (forall id :: id in s.policy ==> LifeOk(s, id))
    && (forall id :: id !in s.policy ==> Trace(s.log, id) == [])
  }

  ghost predicate Waiting(s: Fq)
    requires Partitioned(s)
  {
    && (forall id :: id in s.queue0 ==> QueuedBefore(s.log, |s.log|, id, CurSeq(s.seqs[id])))
    && (forall id :: id in s.queue1 ==> QueuedBefore(s.log, |s.log|, id, CurSeq(s.seqs[id])))
  }

  predicate Flushing(s: Fq) {
    s.pendingIdx != s.runningIdx
  }

  /** While a flush runs, everybody on the running list asked before it was issued. */
  ghost predicate Covered(s: Fq)
    requires Partitioned(s)
  {
    && Outstanding(s.log) == (if Flushing(s) then 1 else 0)
    && (Flushing(s) ==>
          && s.Queue(s.runningIdx) != []
          && s.issuedAt < |s.log| && s.log[s.issuedAt] == Issue
          && NoFlushEvent(s.log, s.issuedAt, |s.log|)
          && forall id :: id in s.Queue(s.runningIdx) ==>
               QueuedBefore(s.log, s.issuedAt, id, CurSeq(s.seqs[id])))
  }

  /** What holds at every moment, also inside the completion loop. */
  ghost predicate Base(s: Fq) {
    && Partitioned(s) && Matched(s)
    && OnPolicy(s)
    && Lives(s)
    && Waiting(s) && Covered(s)
    && FlushesCover(s.log)
    && AtMostOneFlush(s.log)
  }

  /** A waiting request is left alone only for the reasons C1, or C2 without C3. */
  predicate NotStranded(s: Fq)
  {
    !Flushing(s) && s.Queue(s.pendingIdx) != [] ==>
      s.elevator && s.inFlight != [] && s.times.lastKick < s.since + s.timeout
  }

  /** What holds whenever the flush lock is free. */
  ghost predicate Inv(s: Fq) {
    Base(s) && NotStranded(s) && (!Flushing(s) ==> s.Queue(!s.pendingIdx) == [])
  }
}
