/** Every step of the flush machinery keeps the invariant, hence every run does. */
module FlushProofs {
  import opened Lists
  import opened ListWalks
  import opened FlushSequencing

  // ---------------------------------------------------------------------------------------------
  // Lists and histories
  // ---------------------------------------------------------------------------------------------

  lemma MovedMembers(l: seq<Id>, x: Id, here: bool)
    requires Distinct(l)
    ensures Distinct(Moved(l, x, here))
    ensures x !in l && !here ==> Moved(l, x, here) == l
    ensures forall y :: y in Moved(l, x, here) <==> if y == x then here else y in l
  {
    WithoutMembers(l, x);
    if here {
      DistinctSnoc(Without(l, x), x);
    }
  }

  lemma TraceSnoc(log: seq<Event>, e: Event, id: Id)
    ensures Trace(log + [e], id) == Trace(log, id) + if About(e, id) then [e] else []
  {
    assert (log + [e])[..|log|] == log;
  }

  lemma OutstandingSnoc(log: seq<Event>, e: Event)
    ensures Outstanding(log + [e]) == Outstanding(log) + if e.Issue? then 1 else if e.FlushDone? then -1 else 0
  {
    assert (log + [e])[..|log|] == log;
  }

  lemma AtMostOneSnoc(log: seq<Event>, e: Event)
    requires AtMostOneFlush(log) && 0 <= Outstanding(log + [e]) <= 1
    ensures AtMostOneFlush(log + [e])
  {
    forall n | 0 <= n <= |log + [e]| ensures 0 <= Outstanding((log + [e])[..n]) <= 1 {
      if n <= |log| {
        assert (log + [e])[..n] == log[..n];
      } else {
        assert (log + [e])[..n] == log + [e];
      }
    }
  }

  lemma QueuedSnoc(log: seq<Event>, e: Event, n: nat, id: Id, step: Step)
    requires QueuedBefore(log, n, id, step)
    ensures QueuedBefore(log + [e], n, id, step)
    ensures forall m: nat :: n <= m ==> QueuedBefore(log + [e], m, id, step)
  {
    var i :| 0 <= i < n && i < |log| && log[i] == Queue(id, step);
    assert (log + [e])[i] == Queue(id, step);
  }

  lemma ServedSnoc(log: seq<Event>, e: Event, k: nat)
    requires k < |log| && Served(log, k)
    ensures Served(log + [e], k)
  {
    var j, m :| ServedBy(log, k, j, m);
    QueuedSnoc(log, e, j, log[k].id, log[k].step);
    assert ServedBy(log + [e], k, j, m);
  }

  lemma CoverSnoc(log: seq<Event>, e: Event)
    requires FlushesCover(log)
    requires e.Finish? && IsFlush(e.step) && !e.error ==> Served(log + [e], |log|)
    ensures FlushesCover(log + [e])
  {
    var l := log + [e];
    forall k | 0 <= k < |l| && l[k].Finish? && IsFlush(l[k].step) && !l[k].error ensures Served(l, k) {
      if k < |log| {
        ServedSnoc(log, e, k);
      }
    }
  }

  /** Appending an event that is not about flush completion keeps all that is said about the log alone. */
  lemma LogSnoc(log: seq<Event>, e: Event)
    requires FlushesCover(log) && AtMostOneFlush(log)
    requires e.Finish? && IsFlush(e.step) && !e.error ==> Served(log + [e], |log|)
    requires e.Issue? ==> Outstanding(log) == 0
    requires e.FlushDone? ==> Outstanding(log) == 1
    ensures FlushesCover(log + [e]) && AtMostOneFlush(log + [e])
    ensures Outstanding(log + [e]) == if e.Issue? then 1 else if e.FlushDone? then 0 else Outstanding(log)
  {
    CoverSnoc(log, e);
    OutstandingSnoc(log, e);
    assert log[..|log|] == log;
    AtMostOneSnoc(log, e);
  }

  lemma WaitingSnoc(s: Fq, e: Event)
    requires Partitioned(s) && Waiting(s)
    ensures Waiting(Record(s, e))
  {
    forall id | id in s.queue0 ensures QueuedBefore(s.log + [e], |s.log| + 1, id, CurSeq(s.seqs[id])) {
      QueuedSnoc(s.log, e, |s.log|, id, CurSeq(s.seqs[id]));
    }
    forall id | id in s.queue1 ensures QueuedBefore(s.log + [e], |s.log| + 1, id, CurSeq(s.seqs[id])) {
      QueuedSnoc(s.log, e, |s.log|, id, CurSeq(s.seqs[id]));
    }
  }

  // ---------------------------------------------------------------------------------------------
  // One request moves on
  // ---------------------------------------------------------------------------------------------

  /** Partitioned, except that `id` may still be on no list. */
  ghost predicate PartitionedBut(s: Fq, id: Id) {
    && Apart(s)
    && id in s.seqs
    && forall x :: x != id ==> (x in s.seqs <==> x in s.queue0 || x in s.queue1 || x in s.inFlight)
  }

  /** Where everybody is afterwards: nobody but `id` moved, and `id` is on the list of its next step. */
  lemma AdvanceMoves(s: Fq, id: Id, steps: Mask, error: bool, now: int)
    requires Apart(s) && id in s.seqs && !s.seqs[id].Meets(steps)
    ensures
      var r, next := Advance(s, id, steps, error, now), NextStep(s.seqs[id].Or(steps), error);
      && (forall y :: y in r.queue0 <==> if y == id then IsFlush(next) && !s.pendingIdx else y in s.queue0)
      && (forall y :: y in r.queue1 <==> if y == id then IsFlush(next) && s.pendingIdx else y in s.queue1)
      && (forall y :: y in r.inFlight <==> if y == id then next == Data else y in s.inFlight)
      && Distinct(r.queue0) && Distinct(r.queue1) && Distinct(r.inFlight)
  {
    var next := NextStep(s.seqs[id].Or(steps), error);
    MovedMembers(s.queue0, id, IsFlush(next) && !s.pendingIdx);
    MovedMembers(s.queue1, id, IsFlush(next) && s.pendingIdx);
    MovedMembers(s.inFlight, id, next == Data);
  }

  lemma AdvancePartition(s: Fq, id: Id, steps: Mask, error: bool, now: int)
    requires PartitionedBut(s, id) && !s.seqs[id].Meets(steps)
    ensures Partitioned(Advance(s, id, steps, error, now))
  {
    AdvanceMoves(s, id, steps, error, now);
  }

  /** The current step of `id`, and what follows it. */
  function Cur(s: Fq, id: Id): Step
    requires id in s.seqs
  {
    CurSeq(s.seqs[id])
  }

  function After(s: Fq, id: Id, error: bool): Step
    requires id in s.seqs
  {
    NextStep(s.seqs[id].Or(Bit(Cur(s, id))), error)
  }

  /** With a sensible policy a finished flush step is never followed by another flush step. */
  lemma AfterIsNext(s: Fq, id: Id, error: bool)
    requires OnPolicy(s) && id in s.seqs
    ensures IsFlush(Cur(s, id)) ==> !IsFlush(After(s, id, error))
    ensures After(s, id, error) != Done ==>
      && s.policy[id].Has(After(s, id, error))
      && s.seqs[id].Or(Bit(Cur(s, id))) == s.policy[id].Not().Or(Before(After(s, id, error)))
    ensures !error && After(s, id, error) == Done ==>
      Upto(id, s.policy[id], Cur(s, id)) + [Finish(id, Cur(s, id), false)] == PostEvents(id, s.policy[id])
    ensures After(s, id, error) != Done ==>
      Upto(id, s.policy[id], Cur(s, id)) + [Finish(id, Cur(s, id), false)] + [NextEvent(id, After(s, id, error), false)]
      == Upto(id, s.policy[id], After(s, id, error))
  {
  }

  lemma ProgressMatched(s: Fq, id: Id, error: bool, now: int)
    requires Partitioned(s) && Matched(s) && id in s.seqs
    ensures
      var r := Progress(s, id, error, now);
      Partitioned(r) && Matched(r)
  {
    ProgressPartitioned(s, id, error, now);
    AdvanceMoves(Record(s, Finish(id, Cur(s, id), error)), id, Bit(Cur(s, id)), error, now);
  }

  lemma ProgressPartitioned(s: Fq, id: Id, error: bool, now: int)
    requires Partitioned(s) && id in s.seqs
    ensures Partitioned(Progress(s, id, error, now))
  {
    AdvancePartition(Record(s, Finish(id, Cur(s, id), error)), id, Bit(Cur(s, id)), error, now);
  }

  lemma ProgressOnPolicy(s: Fq, id: Id, error: bool, now: int)
    requires OnPolicy(s) && id in s.seqs
    ensures OnPolicy(Progress(s, id, error, now))
  {
    AfterIsNext(s, id, error);
  }

  lemma ProgressLists(s: Fq, id: Id, error: bool, now: int)
    requires Partitioned(s) && Matched(s) && OnPolicy(s) && id in s.seqs
    ensures
      var r := Progress(s, id, error, now);
      Partitioned(r) && Matched(r) && OnPolicy(r)
  {
    ProgressMatched(s, id, error, now);
    ProgressOnPolicy(s, id, error, now);
  }

  lemma TwoSnoc(log: seq<Event>, d: Event, e: Event, id: Id)
    requires About(d, id) && About(e, id)
    ensures Trace(log + [d] + [e], id) == Trace(log, id) + [d] + [e]
    ensures forall x :: x != id ==> Trace(log + [d] + [e], x) == Trace(log, x)
  {
    forall x ensures Trace(log + [d] + [e], x) == Trace(log, x) + if x != id then [] else [d] + [e] {
      TraceSnoc(log, d, x);
      TraceSnoc(log + [d], e, x);
    }
  }

  lemma ProgressLife(s: Fq, id: Id, error: bool, now: int)
    requires OnPolicy(s) && id in s.seqs && LifeOk(s, id)
    ensures LifeOk(Progress(s, id, error, now), id)
  {
    var r, p, cur := Progress(s, id, error, now), s.policy[id], Cur(s, id);
    AfterIsNext(s, id, error);
    TwoSnoc(s.log, Finish(id, cur, error), NextEvent(id, After(s, id, error), error), id);
    assert Trace(s.log, id) == Upto(id, p, cur);
    if error {
      assert Trace(r.log, id) == FailedAt(id, p, cur);
    }
  }

  lemma SameLife(s: Fq, r: Fq, x: Id)
    requires x in s.policy && x in r.policy && r.policy[x] == s.policy[x] && Trace(r.log, x) == Trace(s.log, x)
    requires (x in r.seqs <==> x in s.seqs) && (x in s.seqs ==> r.seqs[x] == s.seqs[x]) && LifeOk(s, x)
    ensures LifeOk(r, x)
  {
  }

  lemma ProgressLives(s: Fq, id: Id, error: bool, now: int)
    requires OnPolicy(s) && Lives(s) && id in s.seqs
    ensures Lives(Progress(s, id, error, now))
  {
    var r := Progress(s, id, error, now);
    TwoSnoc(s.log, Finish(id, Cur(s, id), error), NextEvent(id, After(s, id, error), error), id);
    forall x | x in r.policy ensures LifeOk(r, x) {
      if x == id {
        ProgressLife(s, id, error, now);
      } else {
        SameLife(s, r, x);
      }
    }
  }

  lemma ProgressWaiting(s: Fq, id: Id, error: bool, now: int)
    requires Partitioned(s) && Matched(s) && OnPolicy(s) && Waiting(s) && id in s.seqs
    ensures Partitioned(Progress(s, id, error, now)) && Waiting(Progress(s, id, error, now))
  {
    var r, cur, next := Progress(s, id, error, now), Cur(s, id), After(s, id, error);
    ProgressLists(s, id, error, now);
    AdvanceMoves(Record(s, Finish(id, cur, error)), id, Bit(cur), error, now);
    forall x | x in r.queue0 || x in r.queue1 ensures QueuedBefore(r.log, |r.log|, x, CurSeq(r.seqs[x])) {
      if x == id {
        assert r.log[|r.log| - 1] == Queue(id, next);
      } else {
        QueuedSnoc(s.log, Finish(id, cur, error), |s.log|, x, CurSeq(s.seqs[x]));
        QueuedSnoc(s.log + [Finish(id, cur, error)], NextEvent(id, next, error), |s.log|, x, CurSeq(s.seqs[x]));
      }
    }
  }

  /** Nobody joins or leaves the list a flush is running for. */
  lemma ProgressRunning(s: Fq, id: Id, error: bool, now: int)
    requires Partitioned(s) && id in s.seqs && Flushing(s) && id !in s.Queue(s.runningIdx)
    ensures Progress(s, id, error, now).Queue(s.runningIdx) == s.Queue(s.runningIdx)
  {
    var next := After(s, id, error);
    MovedMembers(s.queue0, id, IsFlush(next) && !s.pendingIdx);
    MovedMembers(s.queue1, id, IsFlush(next) && s.pendingIdx);
  }

  lemma QueuedTwoSnoc(log: seq<Event>, d: Event, e: Event, n: nat, id: Id, step: Step)
    requires QueuedBefore(log, n, id, step)
    ensures QueuedBefore(log + [d] + [e], n, id, step)
  {
    QueuedSnoc(log, d, n, id, step);
    QueuedSnoc(log + [d], e, n, id, step);
  }

  /** Two events that are not about the device flush leave the running list covered. */
  lemma CoveredTwoSnoc(s: Fq, r: Fq, d: Event, e: Event)
    requires Partitioned(s) && Covered(s) && Partitioned(r)
    requires !FlushEvent(d) && !FlushEvent(e) && r.log == s.log + [d] + [e]
    requires r.pendingIdx == s.pendingIdx && r.runningIdx == s.runningIdx && r.issuedAt == s.issuedAt
    requires Flushing(s) ==> r.Queue(s.runningIdx) == s.Queue(s.runningIdx)
    requires Flushing(s) ==> forall x :: x in s.Queue(s.runningIdx) ==> r.seqs[x] == s.seqs[x]
    ensures Covered(r)
  {
    OutstandingSnoc(s.log, d);
    OutstandingSnoc(s.log + [d], e);
    if Flushing(s) {
      forall x | x in s.Queue(s.runningIdx) ensures QueuedBefore(r.log, r.issuedAt, x, CurSeq(r.seqs[x])) {
        QueuedTwoSnoc(s.log, d, e, s.issuedAt, x, CurSeq(s.seqs[x]));
      }
    }
  }

  lemma ProgressCovered(s: Fq, id: Id, error: bool, now: int)
    requires Partitioned(s) && Matched(s) && Covered(s) && id in s.seqs
    requires Flushing(s) ==> id !in s.Queue(s.runningIdx)
    ensures Partitioned(Progress(s, id, error, now)) && Covered(Progress(s, id, error, now))
  {
    ProgressMatched(s, id, error, now);
    if Flushing(s) {
      ProgressRunning(s, id, error, now);
    }
    CoveredTwoSnoc(s, Progress(s, id, error, now), Finish(id, Cur(s, id), error), NextEvent(id, After(s, id, error),
        error));
  }

  /** A device flush issued at j, after `id` had asked for `step`, completed at m. */
  ghost predicate Granted(log: seq<Event>, j: nat, m: nat, error: bool, id: Id, step: Step) {
    && j < m < |log|
    && log[j] == Issue
    && log[m] == FlushDone(error)
    && NoFlushEvent(log, j, m)
    && QueuedBefore(log, j, id, step)
  }

  lemma GrantedSnoc(log: seq<Event>, e: Event, j: nat, m: nat, error: bool, id: Id, step: Step)
    requires Granted(log, j, m, error, id, step)
    ensures Granted(log + [e], j, m, error, id, step)
  {
    QueuedSnoc(log, e, j, id, step);
  }

  lemma ProgressLog(s: Fq, id: Id, error: bool, now: int, j: nat, m: nat)
    requires id in s.seqs
    requires FlushesCover(s.log) && AtMostOneFlush(s.log)
    requires IsFlush(Cur(s, id)) ==> Granted(s.log, j, m, error, id, Cur(s, id))
    ensures
      var r := Progress(s, id, error, now);
      FlushesCover(r.log) && AtMostOneFlush(r.log)
  {
    var cur := Cur(s, id);
    var e := Finish(id, cur, error);
    if IsFlush(cur) && !error {
      GrantedSnoc(s.log, e, j, m, error, id, cur);
      assert ServedBy(s.log + [e], |s.log|, j, m);
    }
    LogSnoc(s.log, e);
    LogSnoc(s.log + [e], NextEvent(id, After(s, id, error), error));
  }

  /** Completing a step keeps everything, provided flush steps are completed by a flush issued in time. */
  lemma ProgressBase(s: Fq, id: Id, error: bool, now: int, j: nat, m: nat)
    requires Base(s) && id in s.seqs
    requires Flushing(s) ==> id !in s.Queue(s.runningIdx)
    requires IsFlush(Cur(s, id)) ==> Granted(s.log, j, m, error, id, Cur(s, id))
    ensures Base(Progress(s, id, error, now))
  {
    ProgressLists(s, id, error, now);
    ProgressLives(s, id, error, now);
    ProgressWaiting(s, id, error, now);
    ProgressCovered(s, id, error, now);
    ProgressLog(s, id, error, now, j, m);
  }

  lemma IssueBase(s: Fq, r: Fq)
    requires Base(s) && !Flushing(s) && s.Queue(s.pendingIdx) != []
    requires r == Record(s.(times := r.times, pendingIdx := !s.pendingIdx, issuedAt := |s.log|), Issue)
    ensures Base(r)
  {
    LogSnoc(s.log, Issue);
    WaitingSnoc(s, Issue);
    LivesFlushEvent(s, r, Issue);
    forall x | x in s.Queue(s.pendingIdx) ensures QueuedBefore(r.log, r.issuedAt, x, CurSeq(r.seqs[x])) {
      QueuedSnoc(s.log, Issue, |s.log|, x, CurSeq(s.seqs[x]));
    }
  }

  lemma IdleKickBase(s: Fq, r: Fq)
    requires Base(s) && r == s.(times := r.times)
    ensures Base(r)
  {
    forall x | x in r.policy ensures LifeOk(r, x) {
      assert LifeOk(s, x);
    }
  }

  lemma KickStrandsNobody(s: Fq, now: int)
    ensures NotStranded(Kick(s, now))
  {
  }

  /** Kicking never strands anybody, whatever the clock says. */
  lemma KickBase(s: Fq, now: int)
    requires Base(s)
    ensures Base(Kick(s, now)) && NotStranded(Kick(s, now))
  {
    var r := Kick(s, now);
    KickStrandsNobody(s, now);
    if r.pendingIdx != s.pendingIdx {
      IssueBase(s, r);
    } else {
      IdleKickBase(s, r);
    }
  }

  // ---------------------------------------------------------------------------------------------
  // The three entry points
  // ---------------------------------------------------------------------------------------------

  lemma IdleStaysEmpty(s: Fq, id: Id, error: bool, t: Reads)
    requires id in s.seqs
    requires !Flushing(s) ==> s.Queue(!s.pendingIdx) == []
    ensures var w := Complete(s, id, error, t);
      !Flushing(w) ==> w.Queue(!w.pendingIdx) == []
  {
  }

  lemma CompleteBase(s: Fq, id: Id, error: bool, t: Reads, j: nat, m: nat)
    requires Base(s) && id in s.seqs
    requires Flushing(s) ==> id !in s.Queue(s.runningIdx)
    requires IsFlush(Cur(s, id)) ==> Granted(s.log, j, m, error, id, Cur(s, id))
    ensures Base(Complete(s, id, error, t)) && NotStranded(Complete(s, id, error, t))
  {
    ProgressBase(s, id, error, t.queuedAt, j, m);
    KickBase(Progress(s, id, error, t.queuedAt), t.kickedAt);
  }

  /** mq_flush_data_end_io */
  lemma DataEndKeepsInv(s: Fq, id: Id, error: bool, t: Reads)
    requires Inv(s) && id in s.inFlight
    ensures Inv(Complete(s, id, error, t))
  {
    CompleteBase(s, id, error, t, 0, 0);
    IdleStaysEmpty(s, id, error, t);
  }

  /** Events of the device flush are not about any request. */
  lemma LivesFlushEvent(s: Fq, r: Fq, e: Event)
    requires Lives(s) && FlushEvent(e)
    requires r.log == s.log + [e] && r.seqs == s.seqs && r.policy == s.policy
    ensures Lives(r)
  {
    forall x ensures Trace(r.log, x) == Trace(s.log, x) {
      TraceSnoc(s.log, e, x);
    }
    forall x | x in r.policy ensures LifeOk(r, x) {
      assert LifeOk(s, x);
    }
  }

  lemma RetireBase(s: Fq, error: bool)
    requires Base(s) && Flushing(s)
    ensures Base(RetireFlush(s, error))
  {
    LogSnoc(s.log, FlushDone(error));
    WaitingSnoc(s, FlushDone(error));
    LivesFlushEvent(s, RetireFlush(s, error), FlushDone(error));
  }

  lemma RetireGrants(s: Fq, error: bool)
    requires Partitioned(s) && Covered(s) && Flushing(s)
    ensures forall id :: id in s.Queue(s.runningIdx) ==>
              Granted(RetireFlush(s, error).log, s.issuedAt, |s.log|, error, id, Cur(s, id))
  {
    forall x | x in s.Queue(s.runningIdx)
      ensures Granted(RetireFlush(s, error).log, s.issuedAt, |s.log|, error, x, Cur(s, x))
    {
      QueuedSnoc(s.log, FlushDone(error), s.issuedAt, x, CurSeq(s.seqs[x]));
    }
  }

  /** Inside the completion loop: `rest` is still to be visited, and all of it was served by the flush
      issued at j and completed at m, whether or not the next flush has been issued meanwhile. */
  ghost predicate Walking(s: Fq, r: bool, rest: seq<Id>, error: bool, j: nat, m: nat) {
    && Base(s)
    && s.runningIdx == !r
    && s.Queue(r) == rest
    && forall id :: id in rest ==> Granted(s.log, j, m, error, id, Cur(s, id))
  }

  /** Visiting the head removes it from the walked list, and nobody joins that list. */
  lemma VisitShrinks(s: Fq, r: bool, rest: seq<Id>, error: bool, t: Reads, j: nat, m: nat)
    requires Walking(s, r, rest, error, j, m) && rest != []
    ensures Complete(s, rest[0], error, t).Queue(r) == rest[1..]
  {
    AfterIsNext(s, rest[0], error);
    assert Without(rest, rest[0]) == rest[1..];
  }

  lemma GrantedTwoSnoc(log: seq<Event>, d: Event, e: Event, j: nat, m: nat, error: bool, id: Id, step: Step)
    requires Granted(log, j, m, error, id, step)
    ensures Granted(log + [d] + [e], j, m, error, id, step)
  {
    GrantedSnoc(log, d, j, m, error, id, step);
    GrantedSnoc(log + [d], e, j, m, error, id, step);
  }

  lemma CompleteGrants(s: Fq, id: Id, error: bool, t: Reads, j: nat, m: nat, x: Id)
    requires id in s.seqs && x in s.seqs && x != id
    requires Granted(s.log, j, m, error, x, Cur(s, x))
    ensures
      var w := Complete(s, id, error, t);
      x in w.seqs && Granted(w.log, j, m, error, x, Cur(w, x))
  {
    var p := Progress(s, id, error, t.queuedAt);
    GrantedTwoSnoc(s.log, Finish(id, Cur(s, id), error), NextEvent(id, After(s, id, error), error), j, m, error, x,
        Cur(s, x));
    GrantedSnoc(p.log, Issue, j, m, error, x, Cur(s, x));
  }

  lemma VisitGrants(s: Fq, rest: seq<Id>, error: bool, t: Reads, j: nat, m: nat)
    requires rest != [] && Distinct(rest)
    requires forall x :: x in rest ==> x in s.seqs && Granted(s.log, j, m, error, x, Cur(s, x))
    ensures
      var w := Complete(s, rest[0], error, t);
      forall x :: x in rest[1..] ==> x in w.seqs && Granted(w.log, j, m, error, x, Cur(w, x))
  {
    forall x | x in rest[1..]
      ensures var w := Complete(s, rest[0], error, t); x in w.seqs && Granted(w.log, j, m, error, x, Cur(w, x))
    {
      CompleteGrants(s, rest[0], error, t, j, m, x);
    }
  }

  lemma VisitBase(s: Fq, r: bool, rest: seq<Id>, error: bool, t: Reads, j: nat, m: nat)
    requires Walking(s, r, rest, error, j, m) && rest != []
    ensures Base(Complete(s, rest[0], error, t)) && NotStranded(Complete(s, rest[0], error, t))
  {
    CompleteBase(s, rest[0], error, t, j, m);
  }

  lemma VisitRest(s: Fq, r: bool, rest: seq<Id>, error: bool, t: Reads, j: nat, m: nat)
    requires Walking(s, r, rest, error, j, m) && rest != []
    ensures
      var w := Complete(s, rest[0], error, t);
      forall x :: x in rest[1..] ==> x in w.seqs && Granted(w.log, j, m, error, x, Cur(w, x))
  {
    VisitGrants(s, rest, error, t, j, m);
  }

  lemma Visit(s: Fq, r: bool, rest: seq<Id>, error: bool, t: Reads, j: nat, m: nat)
    requires Walking(s, r, rest, error, j, m) && rest != []
    ensures
      var w := Complete(s, rest[0], error, t);
      Walking(w, r, rest[1..], error, j, m) && NotStranded(w)
  {
    VisitBase(s, r, rest, error, t, j, m);
    VisitShrinks(s, r, rest, error, t, j, m);
    VisitRest(s, r, rest, error, t, j, m);
  }

  /** The requests of `l`, in order, each completed once. */
  function CompleteAll(s: Fq, l: seq<Id>, error: bool, clock: Id -> Reads): (r: Fq) {
    VisitAll(Visitor(error, clock), s, l)
  }

  lemma CompleteAllHead(s: Fq, l: seq<Id>, error: bool, clock: Id -> Reads)
    requires l != [] && l[0] in s.seqs
    ensures CompleteAll(s, l, error, clock) == CompleteAll(Complete(s, l[0], error, clock(l[0])), l[1..], error, clock)
  {
  }

  /** The check at the head of the loop body, negated. */
  function AtFlushStep(): (Fq, Id) -> bool {
    (s: Fq, id: Id) => id in s.seqs && IsFlush(CurSeq(s.seqs[id]))
  }

  ghost function WalkInv(r: bool, error: bool, j: nat, m: nat): (Fq, seq<Id>) -> bool {
    (s: Fq, rest: seq<Id>) => Walking(s, r, rest, error, j, m)
  }

  lemma HeadIsAtFlushStep(s: Fq, r: bool, rest: seq<Id>, error: bool, j: nat, m: nat)
    requires Walking(s, r, rest, error, j, m) && rest != []
    ensures rest[0] in s.seqs && IsFlush(CurSeq(s.seqs[rest[0]]))
  {
    assert rest[0] in s.Queue(r);
  }

  lemma WalkShrinks(r: bool, error: bool, clock: Id -> Reads, j: nat, m: nat)
    ensures Shrinks(Lister(r), Visitor(error, clock), AtFlushStep(), WalkInv(r, error, j, m))
  {
    forall s, rest | WalkInv(r, error, j, m)(s, rest)
      ensures Lister(r)(s) == rest
      ensures rest != [] ==> AtFlushStep()(s, rest[0])
      ensures rest != [] ==> WalkInv(r, error, j, m)(Visitor(error, clock)(s, rest[0]), rest[1..])
    {
      if rest != [] {
        HeadIsAtFlushStep(s, r, rest, error, j, m);
        Visit(s, r, rest, error, clock(rest[0]), j, m);
      }
    }
  }

  lemma {:induction false} CompleteAllStrandsNobody(s: Fq, r: bool, rest: seq<Id>, error: bool, clock: Id -> Reads,
                                                    j: nat, m: nat)
    requires Walking(s, r, rest, error, j, m) && rest != []
    ensures NotStranded(CompleteAll(s, rest, error, clock))
    decreases |rest|
  {
    HeadIsAtFlushStep(s, r, rest, error, j, m);
    CompleteAllHead(s, rest, error, clock);
    Visit(s, r, rest, error, clock(rest[0]), j, m);
    if |rest| > 1 {
      CompleteAllStrandsNobody(Complete(s, rest[0], error, clock(rest[0])), r, rest[1..], error, clock, j, m);
    }
  }

  /** Everything the loop of flush_end_io is started with. */
  lemma RetireWalks(s: Fq, error: bool)
    requires Inv(s) && Flushing(s)
    ensures Walking(RetireFlush(s, error), s.runningIdx, s.Queue(s.runningIdx), error, s.issuedAt, |s.log|)
    ensures s.Queue(s.runningIdx) != []
  {
    RetireBase(s, error);
    RetireGrants(s, error);
  }

  /** The loop over a list that changes under it visits exactly the requests that were on the list when the flush
      completed, each once and in order, and finds each of them at a flush step. */
  lemma FlushEndVisitsSnapshot(s: Fq, error: bool, clock: Id -> Reads)
    requires Inv(s) && Flushing(s)
    ensures
      var r, l := s.runningIdx, s.Queue(s.runningIdx);
      && FlushEndIo(s, error, clock) == CompleteAll(RetireFlush(s, error), l, error, clock)
      && Passes(Lister(r), Visitor(error, clock), AtFlushStep(), RetireFlush(s, error), FirstOf(l), 2 * |l|)
      && Walking(FlushEndIo(s, error, clock), r, [], error, s.issuedAt, |s.log|)
  {
    var r, l := s.runningIdx, s.Queue(s.runningIdx);
    RetireWalks(s, error);
    WalkShrinks(r, error, clock, s.issuedAt, |s.log|);
    WalkVisitsSnapshot(Lister(r), Visitor(error, clock), AtFlushStep(), WalkInv(r, error, s.issuedAt, |s.log|),
                       RetireFlush(s, error), l, 2 * |l|);
  }

  /** flush_end_io */
  lemma FlushEndKeepsInv(s: Fq, error: bool, clock: Id -> Reads)
    requires Inv(s) && Flushing(s)
    ensures Inv(FlushEndIo(s, error, clock))
  {
    RetireWalks(s, error);
    FlushEndVisitsSnapshot(s, error, clock);
    CompleteAllStrandsNobody(RetireFlush(s, error), s.runningIdx, s.Queue(s.runningIdx), error, clock, s.issuedAt,
        |s.log|);
  }

  // blk_insert_flush

  /** The request enters the machinery: everything of InsertFlush but the kick. */
  function Enter(s: Fq, id: Id, p: Mask, now: int): Fq {
    Advance(Admit(s, id, p), id, p.Not(), false, now)
  }

  lemma EnterMatched(s: Fq, id: Id, p: Mask, now: int)
    requires Partitioned(s) && Matched(s) && id !in s.seqs && Sensible(p)
    ensures
      var r := Enter(s, id, p, now);
      Partitioned(r) && Matched(r)
  {
    EnterPartitioned(s, id, p, now);
    AdvanceMoves(Admit(s, id, p), id, p.Not(), false, now);
  }

  lemma EnterPartitioned(s: Fq, id: Id, p: Mask, now: int)
    requires Partitioned(s) && id !in s.seqs && Sensible(p)
    ensures Partitioned(Enter(s, id, p, now))
  {
    AdvancePartition(Admit(s, id, p), id, p.Not(), false, now);
  }

  lemma EnterOnPolicy(s: Fq, id: Id, p: Mask, now: int)
    requires OnPolicy(s) && id !in s.policy && Sensible(p)
    ensures OnPolicy(Enter(s, id, p, now))
  {
    var r := Enter(s, id, p, now);
    assert r.seqs[id] == p.Not().Or(Before(CurSeq(p.Not())));
  }

  lemma UptoFirst(id: Id, p: Mask)
    requires Sensible(p)
    ensures Upto(id, p, CurSeq(p.Not())) == [Insert(id, p)] + [NextEvent(id, CurSeq(p.Not()), false)]
  {
  }

  lemma EnterShape(s: Fq, id: Id, p: Mask, now: int)
    requires Sensible(p)
    ensures
      var r := Enter(s, id, p, now);
      && r.log == s.log + [Insert(id, p)] + [NextEvent(id, CurSeq(p.Not()), false)]
      && id in r.seqs && r.seqs[id] == p.Not() && id in r.policy && r.policy[id] == p
  {
  }

  lemma FirstLife(log: seq<Event>, r: Fq, id: Id, p: Mask)
    requires Trace(log, id) == [] && Sensible(p)
    requires r.log == log + [Insert(id, p)] + [NextEvent(id, CurSeq(p.Not()), false)]
    requires id in r.seqs && r.seqs[id] == p.Not() && id in r.policy && r.policy[id] == p
    ensures LifeOk(r, id)
  {
    TwoSnoc(log, Insert(id, p), NextEvent(id, CurSeq(p.Not()), false), id);
    UptoFirst(id, p);
  }

  lemma EnterLife(s: Fq, id: Id, p: Mask, now: int)
    requires Trace(s.log, id) == [] && Sensible(p)
    ensures id in Enter(s, id, p, now).policy && LifeOk(Enter(s, id, p, now), id)
  {
    EnterShape(s, id, p, now);
    FirstLife(s.log, Enter(s, id, p, now), id, p);
  }

  lemma EnterLives(s: Fq, id: Id, p: Mask, now: int)
    requires Lives(s) && id !in s.policy && Sensible(p)
    ensures Lives(Enter(s, id, p, now))
  {
    var r := Enter(s, id, p, now);
    TwoSnoc(s.log, Insert(id, p), NextEvent(id, CurSeq(p.Not()), false), id);
    forall x | x in r.policy ensures LifeOk(r, x) {
      if x == id {
        EnterLife(s, id, p, now);
      } else {
        assert LifeOk(s, x);
        assert Trace(r.log, x) == Trace(s.log, x);
      }
    }
  }

  lemma EnterWaiting(s: Fq, id: Id, p: Mask, now: int)
    requires Partitioned(s) && Matched(s) && Waiting(s) && id !in s.seqs && Sensible(p)
    ensures Partitioned(Enter(s, id, p, now)) && Waiting(Enter(s, id, p, now))
  {
    var r, first := Enter(s, id, p, now), CurSeq(p.Not());
    EnterMatched(s, id, p, now);
    AdvanceMoves(Admit(s, id, p), id, p.Not(), false, now);
    forall x | x in r.queue0 || x in r.queue1 ensures QueuedBefore(r.log, |r.log|, x, CurSeq(r.seqs[x])) {
      if x == id {
        assert r.log[|r.log| - 1] == Queue(id, first);
      } else {
        QueuedTwoSnoc(s.log, Insert(id, p), NextEvent(id, first, false), |s.log|, x, CurSeq(s.seqs[x]));
      }
    }
  }

  lemma EnterRunning(s: Fq, id: Id, p: Mask, now: int)
    requires Partitioned(s) && id !in s.seqs && Flushing(s)
    ensures Enter(s, id, p, now).Queue(s.runningIdx) == s.Queue(s.runningIdx)
  {
    MovedMembers(s.queue0, id, false);
    MovedMembers(s.queue1, id, false);
  }

  lemma EnterCovered(s: Fq, id: Id, p: Mask, now: int)
    requires Partitioned(s) && Matched(s) && Covered(s) && id !in s.seqs && Sensible(p)
    ensures Partitioned(Enter(s, id, p, now)) && Covered(Enter(s, id, p, now))
  {
    EnterMatched(s, id, p, now);
    if Flushing(s) {
      EnterRunning(s, id, p, now);
    }
    CoveredTwoSnoc(s, Enter(s, id, p, now), Insert(id, p), NextEvent(id, CurSeq(p.Not()), false));
  }

  lemma EnterLog(log: seq<Event>, id: Id, p: Mask)
    requires FlushesCover(log) && AtMostOneFlush(log) && Sensible(p)
    ensures
      var r := log + [Insert(id, p)] + [NextEvent(id, CurSeq(p.Not()), false)];
      FlushesCover(r) && AtMostOneFlush(r) && Outstanding(r) == Outstanding(log)
  {
    LogSnoc(log, Insert(id, p));
    LogSnoc(log + [Insert(id, p)], NextEvent(id, CurSeq(p.Not()), false));
  }

  lemma EnterBase(s: Fq, id: Id, p: Mask, now: int)
    requires Base(s) && id !in s.policy && Sensible(p)
    ensures Base(Enter(s, id, p, now))
  {
    EnterMatched(s, id, p, now);
    EnterOnPolicy(s, id, p, now);
    EnterLives(s, id, p, now);
    EnterWaiting(s, id, p, now);
    EnterCovered(s, id, p, now);
    EnterLog(s.log, id, p);
  }

  lemma InsertKeepsInv(s: Fq, id: Id, p: Mask, t: Reads)
    requires Inv(s) && id !in s.policy && !Bare(p)
    ensures Inv(InsertFlush(s, id, p, t))
  {
    if Dispose(p) == Sequenced {
      EnterBase(s, id, p, t.queuedAt);
      KickBase(Enter(s, id, p, t.queuedAt), t.kickedAt);
    }
  }
}
