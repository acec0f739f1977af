/** blk_mq_dispatch_rq_list (block/blk-mq.c) for one hardware queue: requests go to the driver in order, each
    with a budget and a driver tag, until the driver or a resource says stop. */
module Dispatch {
  import opened Lists

  type Id = nat

  /** blk_status_t as queue_rq returns it. */
  datatype Status = Ok | Resource | DevResource | IoError

  predicate Busy(st: Status) {
    st == Resource || st == DevResource
  }

  /** What the environment answers in one round: does the driver grant a budget, is a tag free (at the first
      attempt, and at the second after queueing for one), is one free for the next request, is the tag set
      shared with other active queues, and what does queue_rq say. */
  datatype Reply = Reply(budget: bool, tag: bool, tagLater: bool, nextTag: bool, shared: bool, status: Status)

  /** One call of queue_rq. */
  datatype Call = Call(rq: Id, last: bool, status: Status)

  /** A budget and a driver tag can be had. */
  predicate Granted(r: Reply, gotBudget: bool, hasTag: bool, blocked: bool) {
    (gotBudget || r.budget) && (hasTag || r.tag || (r.tagLater && !blocked))
  }

  /** The driver tags after a round that dealt with the first request of l. */
  ghost predicate TagsAfter(l: seq<Id>, r: Reply, before: set<Id>, after: set<Id>)
    requires l != []
  {
    && (l[0] in after <==> r.status == Ok)
    && forall x :: x != l[0] ==> (x in after <==> x in before || (|l| > 1 && x == l[1] && r.nextTag))
  }

  /** The call for the first request of l. */
  function FirstCall(l: seq<Id>, r: Reply, tagged: set<Id>): Call
    requires l != []
  {
    Call(l[0], |l| == 1 || !(l[1] in tagged || r.nextTag), r.status)
  }

  /** What one round for the first request of l does: whether the request is dealt with, the call made, if any, and
      the driver tags; marked: a freed tag will start the queue again. */
  ghost predicate RoundDid(l: seq<Id>, gotBudget: bool, r: Reply, blocked: bool, before: set<Id>, done: bool,
                           c: seq<Call>, after: set<Id>, marked: bool)
    requires l != []
  {
    var sent := Granted(r, gotBudget, l[0] in before, blocked);
    && (done <==> sent && (r.status == Ok || r.status == IoError))
    && c == (if sent then [FirstCall(l, r, before)] else [])
    && (!sent && (gotBudget || r.budget) ==> marked)
    && (done ==> TagsAfter(l, r, before, after))
    && (forall x :: x !in l ==> (x in after <==> x in before))
  }

  /** What a dispatch run starts from: the list, a budget that may come with it, the requests that hold a driver
      tag, whether waiting for one is ruled out because the wait entry is queued already, and the answers of the
      environment, one for each request. */
  datatype Start = Start(list: seq<Id>, gotBudget: bool, tagged: set<Id>, blocked: bool, oracle: nat -> Reply) {
    /** Does request i hold a driver tag when its turn comes?  One may have been reserved a round before. */
    predicate HasTag(i: nat)
      requires i < |list|
    {
      list[i] in tagged || (i > 0 && oracle(i - 1).nextTag)
    }

    /** Is request i given to the driver, if its turn comes? */
    predicate Sent(i: nat)
      requires i < |list|
    {
      Granted(oracle(i), gotBudget, HasTag(i), blocked)
    }

    predicate Handled(i: nat)
      requires i < |list|
    {
      Sent(i) && (oracle(i).status == Ok || oracle(i).status == IoError)
    }

    function CallAt(i: nat): Call
      requires i < |list|
    {
      Call(list[i], i + 1 == |list| || !HasTag(i + 1), oracle(i).status)
    }

    /** The first k requests are handled and the next one, if there is one, is not.  The driver gets a call for each
        handled request, in order, and one more if it refuses the next.  It is told to expect more exactly if the
        request that follows already holds a tag. */
    ghost predicate Runs(k: nat, cs: seq<Call>) {
      && k <= |list|
      && (forall i :: 0 <= i < k ==> Handled(i))
      && (k < |list| ==> !Handled(k))
      && |cs| == (if k < |list| && Sent(k) then k + 1 else k)
      && (forall i :: 0 <= i < |cs| ==> cs[i] == CallAt(i))
    }

    /** Of the first k requests the accepted ones hold a tag, and nothing changes outside the list. */
    ghost predicate Settled(k: nat, now: set<Id>)
      requires k <= |list|
    {
      && (forall i :: 0 <= i < k ==> (list[i] in now <==> oracle(i).status == Ok))
      && (forall x :: x !in list ==> (x in now <==> x in tagged))
    }

    lemma SettledStays(k: nat, now: set<Id>, next: set<Id>)
      requires k <= |list| && Distinct(list) && Settled(k, now)
      requires forall x :: x !in list[k..] ==> (x in next <==> x in now)
      ensures Settled(k, next)
    {
      forall i | 0 <= i < k ensures list[i] !in list[k..] {
        forall j | k <= j < |list| ensures list[i] != list[j] {
          DistinctAt(list, i, j);
        }
      }
    }

    /** Which requests hold a tag before the turn of request k. */
    ghost predicate Tags(k: nat, now: set<Id>)
      requires k <= |list|
    {
      && Settled(k, now)
      && (k < |list| ==> (list[k] in now <==> HasTag(k)))
      && (forall i :: k < i < |list| ==> (list[i] in now <==> list[i] in tagged))
    }

    /** The run stops at request k for want of a tag. */
    predicate NoTag(k: nat) {
      k < |list| && (gotBudget || oracle(k).budget) && !Sent(k)
    }

    lemma TagsNext(k: nat, now: set<Id>, next: set<Id>)
      requires k < |list| && Distinct(list) && Tags(k, now) && TagsAfter(list[k..], oracle(k), now, next)
      ensures Tags(k + 1, next)
    {
      forall i | 0 <= i < |list| && i != k ensures list[i] != list[k] {
        DistinctAt(list, if i < k then i else k, if i < k then k else i);
      }
      if k + 1 < |list| {
        assert list[k..][1] == list[k + 1];
        forall i | 0 <= i < |list| && i != k + 1 ensures list[i] != list[k + 1] {
          DistinctAt(list, if i <= k then i else k + 1, if i <= k then k + 1 else i);
        }
      }
    }

    ghost predicate RunsSoFar(k: nat, cs: seq<Call>) {
      && k == |cs| <= |list|
      && (forall i :: 0 <= i < k ==> Handled(i))
      && (forall i :: 0 <= i < k ==> cs[i] == CallAt(i))
    }

    /** The run before the turn of request k. */
    ghost predicate Going(k: nat, cs: seq<Call>, now: set<Id>) {
      RunsSoFar(k, cs) && Tags(k, now)
    }

    ghost predicate Stopped(k: nat, cs: seq<Call>, now: set<Id>, marked: bool) {
      Runs(k, cs) && Settled(k, now) && (NoTag(k) ==> marked)
    }

    lemma FirstCallIs(k: nat, now: set<Id>)
      requires k < |list| && Tags(k, now)
      ensures FirstCall(list[k..], oracle(k), now) == CallAt(k)
      ensures Granted(oracle(k), gotBudget, list[k..][0] in now, blocked) <==> Sent(k)
    {
    }

    lemma CallsOn(k: nat, cs: seq<Call>)
      requires k < |list| && RunsSoFar(k, cs)
      ensures Handled(k) ==> RunsSoFar(k + 1, cs + [CallAt(k)])
      ensures !Handled(k) ==> Runs(k, cs + if Sent(k) then [CallAt(k)] else [])
    {
    }

    lemma RunsOn(k: nat, cs: seq<Call>, before: set<Id>, done: bool, c: seq<Call>, after: set<Id>, marked: bool)
      requires k < |list| && Distinct(list) && Going(k, cs, before)
      requires RoundDid(list[k..], gotBudget, oracle(k), blocked, before, done, c, after, marked)
      ensures if done then Going(k + 1, cs + c, after) else Stopped(k, cs + c, after, marked)
    {
      FirstCallIs(k, before);
      CallsOn(k, cs);
      if done {
        TagsNext(k, before, after);
      } else {
        SettledStays(k, before, after);
      }
    }

    /** The driver is left waiting for more: everything is handled, and after the last request it accepted, which
        did not look like the last one, it failed all the others. */
    predicate LeftWaiting() {
      && (forall i :: 0 <= i < |list| ==> Handled(i))
      && (exists j :: 0 <= j < |list| && AcceptedLast(j) && !CallAt(j).last)
    }

    /** Request j would be accepted and all that follow would fail. */
    predicate AcceptedLast(j: nat)
      requires j < |list|
    {
      oracle(j).status == Ok && forall i :: j < i < |list| ==> oracle(i).status == IoError
    }
  }

  class HwQueue {
    const tagShared: bool         // BLK_MQ_F_TAG_SHARED
    var dispatch: seq<Id>         // hctx->dispatch
    var nrActive: int             // hctx->nr_active
    var tagged: set<Id>           // requests with a driver tag
    var sched: set<Id>            // requests with a scheduler tag
    var inflight: set<Id>         // requests flagged RQF_MQ_INFLIGHT
    var waiting: bool             // dispatch_wait is queued for a tag
    var restart: bool             // BLK_MQ_S_SCHED_RESTART
    ghost var held: int           // budgets taken and neither passed on nor returned
    ghost var calls: seq<Call>    // what the driver was given
    ghost var committed: bool     // commit_rqs was called after the last queue_rq

    ghost predicate Counted()
      reads this
    {
      nrActive == |inflight| && inflight <= tagged
    }

    /** blk_mq_get_driver_tag */
    method GetDriverTag(rq: Id, free: bool, shared: bool) returns (got: bool)
      requires Counted()
      modifies this`tagged, this`inflight, this`nrActive
      ensures Counted()
      ensures got <==> rq in tagged
      ensures got <==> rq in old(tagged) || free
      ensures tagged == if got then old(tagged) + {rq} else old(tagged)
      ensures inflight == if rq !in old(tagged) && free && shared then old(inflight) + {rq} else old(inflight)
    {
      if rq in tagged {
        return true;
      }
      if free {
        tagged := tagged + {rq};
        if shared {
          inflight := inflight + {rq};
          nrActive := nrActive + 1;
        }
      }
      return free;
    }

    /** blk_mq_put_driver_tag: only a request with a scheduler tag can do without its driver tag. */
    method PutDriverTag(rq: Id)
      requires Counted()
      modifies this`tagged, this`inflight, this`nrActive
      ensures Counted()
      ensures rq in sched ==> rq !in tagged
      ensures tagged == if rq in sched then old(tagged) - {rq} else old(tagged)
      ensures inflight == if rq in sched then old(inflight) - {rq} else old(inflight)
    {
      if rq in tagged && rq in sched {
        tagged := tagged - {rq};
        if rq in inflight {
          inflight := inflight - {rq};
          nrActive := nrActive - 1;
        }
      }
    }

    /** blk_mq_end_request and the freeing of the request. */
    method EndRequest(rq: Id)
      requires Counted()
      modifies this`tagged, this`inflight, this`nrActive
      ensures Counted()
      ensures tagged == old(tagged) - {rq} && inflight == old(inflight) - {rq}
    {
      if rq in inflight {
        nrActive := nrActive - 1;
      }
      tagged, inflight := tagged - {rq}, inflight - {rq};
    }

    /** blk_mq_mark_tag_wait: a last attempt after arranging to be woken when a tag is freed. */
    method MarkTagWait(rq: Id, free: bool, shared: bool) returns (got: bool)
      requires Counted() && rq !in tagged
      modifies this`tagged, this`inflight, this`nrActive, this`waiting, this`restart
      ensures Counted()
      ensures got <==> rq in tagged
      ensures got <==> free && !(tagShared && old(waiting))
      ensures tagged == if got then old(tagged) + {rq} else old(tagged)
      ensures waiting == (old(waiting) || (tagShared && !got)) && restart == (old(restart) || !tagShared)
    {
      if !tagShared {
        restart := true;
        got := GetDriverTag(rq, free, shared);
        return;
      }
      if waiting {
        return false;
      }
      waiting := true;
      got := GetDriverTag(rq, free, shared);
      if got {
        waiting := false;
      }
    }

    /** Only the first request of the list may have a driver tag it could do without. */
    ghost predicate TailUntagged(l: seq<Id>)
      reads this
    {
      forall i :: 0 < i < |l| && l[i] in sched ==> l[i] !in tagged
    }

    ghost predicate AllUntagged(l: seq<Id>)
      reads this
    {
      forall i :: 0 <= i < |l| && l[i] in sched ==> l[i] !in tagged
    }

    /** The first part of a round: a budget and a driver tag for the first request. */
    method TakeResources(l: seq<Id>, gotBudget: bool, r: Reply) returns (ok: bool)
      requires l != [] && Distinct(l) && Counted() && TailUntagged(l)
      requires held == if gotBudget then 1 else 0
      modifies this`tagged, this`inflight, this`nrActive, this`waiting, this`restart, this`held
      ensures Counted()
      ensures ok <==> Granted(r, gotBudget, l[0] in old(tagged), tagShared && old(waiting))
      ensures ok ==> held == 1 && tagged == old(tagged) + {l[0]} && waiting == old(waiting) && TailUntagged(l)
      ensures !ok ==> held == 0 && tagged <= old(tagged) <= tagged + {l[0]} && AllUntagged(l)
      ensures !ok && (gotBudget || r.budget) ==> waiting || restart
    {
      var rq := l[0];
      if !gotBudget {
        if !r.budget {
          PutDriverTag(rq);
          return false;
        }
        held := held + 1;
      }
      ok := GetDriverTag(rq, r.tag, r.shared);
      if !ok {
        ok := MarkTagWait(rq, r.tagLater, r.shared);
        if !ok {
          held := held - 1;
        }
      }
    }

    /** blk_mq_handle_dev_resource: the request goes back to the front; neither it nor the next one keeps a
        driver tag. */
    method HandleDevResource(l: seq<Id>)
      requires l != [] && Distinct(l) && Counted() && TailUntagged(l[1..])
      modifies this`tagged, this`inflight, this`nrActive
      ensures Counted() && AllUntagged(l)
      ensures forall x :: x !in l ==> (x in tagged <==> x in old(tagged))
    {
      if |l| > 1 {
        PutDriverTag(l[1]);
        assert l[1..][0] == l[1];
      }
      PutDriverTag(l[0]);
      forall i | 0 <= i < |l| && l[i] in sched ensures l[i] !in tagged {
        assert i > 1 ==> l[i] == l[1..][i - 1];
      }
    }

    /** Does the driver learn that this is the last request for now?  A tag is reserved for the next one. */
    method PeekNext(l: seq<Id>, r: Reply) returns (last: bool)
      requires l != [] && Distinct(l) && Counted() && TailUntagged(l)
      modifies this`tagged, this`inflight, this`nrActive
      ensures Counted() && TailUntagged(l[1..])
      ensures !last <==> |l| > 1 && (l[1] in old(tagged) || r.nextTag)
      ensures tagged == if last then old(tagged) else old(tagged) + {l[1]}
    {
      last := true;
      if |l| > 1 {
        var next := GetDriverTag(l[1], r.nextTag, r.shared);
        last := !next;
        TailDistinct(l);
      }
    }

    /** The second part of a round: the first request, with its budget, goes to the driver.  `done`: it was
        accepted or ended. */
    method Send(l: seq<Id>, r: Reply) returns (done: bool)
      requires l != [] && Distinct(l) && Counted() && TailUntagged(l) && held == 1 && l[0] in tagged
      modifies this`tagged, this`inflight, this`nrActive, this`held, this`calls
      ensures Counted() && held == 0
      ensures done <==> r.status == Ok || r.status == IoError
      ensures if done then TailUntagged(l[1..]) && TagsAfter(l, r, old(tagged), tagged) else AllUntagged(l)
      ensures forall x :: x !in l ==> (x in tagged <==> x in old(tagged))
      ensures calls == old(calls) + [FirstCall(l, r, old(tagged))]
    {
      var last := PeekNext(l, r);
      held := held - 1;
      calls := calls + [Call(l[0], last, r.status)];
      if Busy(r.status) {
        HandleDevResource(l);
        return false;
      }
      if r.status != Ok {
        EndRequest(l[0]);
      }
      return true;
    }

    lemma TailDistinct(l: seq<Id>)
      requires |l| > 1 && Distinct(l)
      ensures forall i :: 1 < i < |l| ==> l[i] != l[1]
    {
      assert l[1..][1..] == l[2..];
      assert l[1] !in l[2..];
    }

    /** One round of the loop: the call it makes, if any, and whether the first request is dealt with. */
    method Round(l: seq<Id>, gotBudget: bool, r: Reply) returns (done: bool, ghost c: seq<Call>)
      requires l != [] && Distinct(l) && Counted() && TailUntagged(l)
      requires held == if gotBudget then 1 else 0
      modifies this`tagged, this`inflight, this`nrActive, this`waiting, this`restart, this`held, this`calls
      ensures Counted() && held == 0
      ensures RoundDid(l, gotBudget, r, tagShared && old(waiting), old(tagged), done, c, tagged, waiting || restart)
      ensures calls == old(calls) + c
      ensures if done then TailUntagged(l[1..]) && waiting == old(waiting) else AllUntagged(l)
    {
      c := [];
      done := TakeResources(l, gotBudget, r);
      if done {
        assert |l| > 1 ==> l[1] != l[0];
        c := [FirstCall(l, r, tagged)];
        done := Send(l, r);
      }
    }

    /** The round at the turn of request k. */
    method Turn(l: seq<Id>, gotBudget: bool, r: Reply, ghost x: Start, ghost k: nat, ghost cs: seq<Call>)
      returns (done: bool, ghost c: seq<Call>)
      requires k < |x.list| && l == x.list[k..] && r == x.oracle(k) && Distinct(x.list) && Distinct(l)
      requires x.gotBudget == gotBudget && x.blocked == (tagShared && waiting) && x.Going(k, cs, tagged)
      requires Counted() && TailUntagged(l) && held == if gotBudget then 1 else 0
      modifies this`tagged, this`inflight, this`nrActive, this`waiting, this`restart, this`held, this`calls
      ensures Counted() && held == 0 && calls == old(calls) + c
      ensures done ==> x.Going(k + 1, cs + c, tagged) && TailUntagged(l[1..]) && waiting == old(waiting)
      ensures !done ==> x.Stopped(k, cs + c, tagged, waiting || restart) && AllUntagged(l)
    {
      ghost var before := tagged;
      done, c := Round(l, gotBudget, r);
      x.RunsOn(k, cs, before, done, c, tagged, waiting || restart);
    }

    /** The loop of blk_mq_dispatch_rq_list: returns what is left of the list. */
    method Loop(list: seq<Id>, gotBudget: bool, oracle: nat -> Reply) returns (l: seq<Id>, ghost k: nat,
                ghost cs: seq<Call>)
      requires list != [] && Distinct(list) && Counted() && TailUntagged(list)
      requires gotBudget ==> |list| == 1
      requires held == if gotBudget then 1 else 0
      modifies this`tagged, this`inflight, this`nrActive, this`waiting, this`restart, this`held, this`calls
      ensures Counted() && held == 0
      ensures k <= |list| && l == list[k..] && AllUntagged(l)
      ensures calls == old(calls) + cs
      ensures
        var x := Start(list, gotBudget, old(tagged), tagShared && old(waiting), oracle);
        x.Stopped(k, cs, tagged, waiting || restart)
    {
      k, cs, l := 0, [], list;
      ghost var x := Start(list, gotBudget, tagged, tagShared && waiting, oracle);
      var i, go := 0, true;
      while l != [] && go
        invariant i == k <= |list| && l == list[k..] && Distinct(l)
        invariant Counted() && held == if gotBudget && k == 0 && go then 1 else 0
        invariant if go then TailUntagged(l) && waiting == old(waiting) else AllUntagged(l)
        invariant if go then x.Going(k, cs, tagged) else x.Stopped(k, cs, tagged, waiting || restart)
        invariant calls == old(calls) + cs
        decreases |l|, go
      {
        ghost var c;
        go, c := Turn(l, gotBudget, oracle(i), x, k, cs);
        cs := cs + c;
        if go {
          l, i, k := l[1..], i + 1, k + 1;
        }
      }
    }

    /** blk_mq_dispatch_rq_list.  What is handled, what the driver is told and whether it is left waiting for more
        follows from the list, the tags held and the answers; what is not handled goes to the end of hctx->dispatch
        in order; all budgets are accounted for.  Returns whether everything was handled. */
    method DispatchRqList(list: seq<Id>, gotBudget: bool, oracle: nat -> Reply)
      returns (more: bool, ghost k: nat, ghost cs: seq<Call>)
      requires Distinct(list) && Counted() && TailUntagged(list)
      requires gotBudget ==> |list| == 1
      requires held == if gotBudget then 1 else 0
      modifies this
      ensures Counted() && sched == old(sched)
      ensures
        var x := Start(list, gotBudget, old(tagged), tagShared && old(waiting), oracle);
        && x.Stopped(k, cs, tagged, waiting || restart)
        && (Expecting(cs) && !committed <==> x.LeftWaiting())
      ensures dispatch == old(dispatch) + list[k..]
      ensures calls == old(calls) + cs
      ensures held == 0
      ensures AllUntagged(list[k..])
      ensures more <==> list != [] && k == |list|
    {
      committed := false;
      ghost var x := Start(list, gotBudget, tagged, tagShared && waiting, oracle);
      if list == [] {
        return false, 0, [];
      }
      var l;
      l, k, cs := Loop(list, gotBudget, oracle);
      if l != [] {
        committed := true;
        dispatch := dispatch + l;
        more := false;
      } else {
        assert list[k..] == [];
        more := true;
      }
      LeftWaitingIff(x, k, cs);
    }
  }

  /** The last call the driver accepted told it to expect more. */
  predicate Expecting(cs: seq<Call>) {
    cs != [] && var c := cs[|cs| - 1];
      if c.status == Ok then !c.last else Expecting(cs[..|cs| - 1])
  }

  /** commit_rqs is called only if something is left over.  When nothing is, the driver is told that no more comes
      by the flag of the last call, which does not help if it fails that call. */
  lemma LeftWaitingIff(x: Start, k: nat, cs: seq<Call>)
    requires x.Runs(k, cs)
    ensures Expecting(cs) && k == |x.list| <==> x.LeftWaiting()
  {
    if k == |x.list| {
      ExpectingIff(cs);
      forall j | 0 <= j < k ensures LastAccepted(cs, j) <==> x.AcceptedLast(j) {
        assert forall i :: 0 <= i < k ==> cs[i] == x.CallAt(i) && x.Handled(i);
        assert forall i :: 0 <= i < k ==> (cs[i].status != Ok <==> x.oracle(i).status == IoError);
      }
    }
  }

  lemma {:induction false} ExpectingIff(cs: seq<Call>)
    ensures Expecting(cs) <==> exists j :: 0 <= j < |cs| && LastAccepted(cs, j) && !cs[j].last
  {
    var n := |cs| - 1;
    if cs != [] && cs[n].status != Ok {
      ExpectingIff(cs[..n]);
      assert forall j :: 0 <= j < n ==> (LastAccepted(cs, j) <==> LastAccepted(cs[..n], j));
    } else if cs != [] {
      assert LastAccepted(cs, n);
    }
  }

  predicate LastAccepted(cs: seq<Call>, j: nat)
    requires j < |cs|
  {
    cs[j].status == Ok && forall i :: j < i < |cs| ==> cs[i].status != Ok
  }

  /** For instance: the driver accepts a, told to expect more, and fails b. */
  method LeaveWaiting(q: HwQueue, a: Id, b: Id) returns (ghost cs: seq<Call>)
    requires a != b && q.Counted() && q.held == 0 && b !in q.tagged
    modifies q
    ensures cs == [Call(a, false, Ok), Call(b, true, IoError)] && q.calls == old(q.calls) + cs
    ensures Expecting(cs) && !q.committed
  {
    var oracle := (i: nat) => Reply(true, true, false, true, false, if i == 0 then Ok else IoError);
    ghost var x := Start([a, b], false, q.tagged, q.tagShared && q.waiting, oracle);
    var more;
    ghost var k;
    more, k, cs := q.DispatchRqList([a, b], false, oracle);
    assert x.Handled(0) && x.Handled(1) && k == 2;
    assert cs == [x.CallAt(0), x.CallAt(1)];
    assert x.AcceptedLast(0);
  }
}
