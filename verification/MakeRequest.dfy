/** generic_make_request (block/blk-core.c): the loop over two lists that replaces recursion through stacked
    drivers. */
module MakeRequest {
  import opened Lists

  /** A bio together with what will happen to it: the queue of its disk, whether
      generic_make_request_checks and blk_queue_enter let it through, and the bios its driver submits in
      turn, in that order, when it is handed the bio. */
  datatype Bio = Bio(id: nat, queue: nat, checksOk: bool, enterOk: bool, spawns: seq<Bio>)

  /** What happens to a bio: the driver gets it, or it is ended with an error. */
  datatype Event = HandedOff(id: nat) | Failed(id: nat)

  function Size(b: Bio): nat {
    1 + SizeAll(b.spawns)
  }

  function SizeAll(bs: seq<Bio>): nat {
    if bs == [] then 0 else Size(bs[0]) + SizeAll(bs[1..])
  }

  /** The bios of `bs` that pass the checks and are for queue q (same) or for another queue. */
  function Pick(bs: seq<Bio>, q: nat, same: bool): seq<Bio> {
    if bs == [] then []
    else if bs[0].checksOk && (bs[0].queue == q) == same then [bs[0]] + Pick(bs[1..], q, same)
    else Pick(bs[1..], q, same)
  }

  function Accepted(bs: seq<Bio>): seq<Bio> {
    if bs == [] then [] else (if bs[0].checksOk then [bs[0]] else []) + Accepted(bs[1..])
  }

  /** list is made of a and b, each in order. */
  predicate Shuffle(list: seq<Bio>, a: seq<Bio>, b: seq<Bio>) {
    if list == [] then a == [] && b == []
    else
      || (a != [] && a[0] == list[0] && Shuffle(list[1..], a[1..], b))
      || (b != [] && b[0] == list[0] && Shuffle(list[1..], a, b[1..]))
  }

  /** What was submitted for other queues than q, and for q. */
  predicate Sorted(list: seq<Bio>, q: nat, lower: seq<Bio>, same: seq<Bio>) {
    && Shuffle(list, lower, same)
    && (forall i :: 0 <= i < |lower| ==> lower[i].queue != q)
    && (forall i :: 0 <= i < |same| ==> same[i].queue == q)
  }

  lemma {:induction false} PickSorts(list: seq<Bio>, q: nat)
    requires forall i :: 0 <= i < |list| ==> list[i].checksOk
    ensures Sorted(list, q, Pick(list, q, false), Pick(list, q, true))
  {
    if list != [] {
      PickSorts(list[1..], q);
      var b := list[0];
      var tail := Pick(list[1..], q, b.queue == q);
      assert ([b] + tail)[1..] == tail;
    }
  }

  lemma {:induction false} PickSizes(bs: seq<Bio>, q: nat)
    ensures SizeAll(Pick(bs, q, false)) + SizeAll(Pick(bs, q, true)) <= SizeAll(bs)
  {
    if bs != [] {
      PickSizes(bs[1..], q);
      var b := bs[0];
      if b.checksOk {
        assert ([b] + Pick(bs[1..], q, b.queue == q))[1..] == Pick(bs[1..], q, b.queue == q);
      }
    }
  }

  // ---------------------------------------------------------------------------------------------
  // Reference: depth-first recursion
  // ---------------------------------------------------------------------------------------------

  /** Hand a bio off, then deal with all it spawns for lower queues, then with all for the same queue. */
  function Visit(b: Bio): seq<Event>
    decreases Size(b), 0
  {
    if !b.enterOk then [Failed(b.id)]
    else
      PickSizes(b.spawns, b.queue);
      [HandedOff(b.id)] + VisitAll(Pick(b.spawns, b.queue, false)) + VisitAll(Pick(b.spawns, b.queue, true))
  }

  function VisitAll(bs: seq<Bio>): seq<Event>
    decreases SizeAll(bs), 1
  {
    if bs == [] then [] else Visit(bs[0]) + VisitAll(bs[1..])
  }

  lemma {:induction false} VisitAllPlus(a: seq<Bio>, b: seq<Bio>)
    ensures VisitAll(a + b) == VisitAll(a) + VisitAll(b)
  {
    if a == [] {
      assert a + b == b;
    } else {
      assert (a + b)[1..] == a[1..] + b;
      VisitAllPlus(a[1..], b);
      assert Visit(a[0]) + (VisitAll(a[1..]) + VisitAll(b)) == VisitAll(a) + VisitAll(b);
    }
  }

  lemma {:induction false} SizeAllPlus(a: seq<Bio>, b: seq<Bio>)
    ensures SizeAll(a + b) == SizeAll(a) + SizeAll(b)
  {
    if a == [] {
      assert a + b == b;
    } else {
      assert (a + b)[1..] == a[1..] + b;
      SizeAllPlus(a[1..], b);
    }
  }

  // ---------------------------------------------------------------------------------------------
  // The order
  // ---------------------------------------------------------------------------------------------

  /** A bio is handed off first; then come the events of all that its driver submitted for other queues, then the
      events of all that it submitted for the same queue, each list in order. */
  ghost predicate InOrder(log: seq<Event>, b: Bio)
    decreases |log|, 0
  {
    if !b.enterOk then log == [Failed(b.id)]
    else
      && log != [] && log[0] == HandedOff(b.id)
      && exists lower, same, n :: Sorted(Accepted(b.spawns), b.queue, lower, same)
           && 1 <= n <= |log| && AllInOrder(log[1..n], lower) && AllInOrder(log[n..], same)
  }

  ghost predicate AllInOrder(log: seq<Event>, bs: seq<Bio>)
    decreases |log|, 1
  {
    if bs == [] then log == []
    else exists n :: 1 <= n <= |log| && InOrder(log[..n], bs[0]) && AllInOrder(log[n..], bs[1..])
  }

  lemma {:induction false} ShuffleHas(list: seq<Bio>, a: seq<Bio>, b: seq<Bio>, x: Bio)
    requires Shuffle(list, a, b) && x in list
    ensures x in a || x in b
  {
    if list[0] != x {
      if a != [] && a[0] == list[0] && Shuffle(list[1..], a[1..], b) {
        ShuffleHas(list[1..], a[1..], b, x);
      } else {
        ShuffleHas(list[1..], a, b[1..], x);
      }
    }
  }

  lemma {:induction false} HasEvent(log: seq<Event>, bs: seq<Bio>, x: Bio) returns (k: nat)
    requires AllInOrder(log, bs) && x in bs
    ensures k < |log| && log[k].id == x.id
    decreases |bs|
  {
    var n :| 1 <= n <= |log| && InOrder(log[..n], bs[0]) && AllInOrder(log[n..], bs[1..]);
    if bs[0] == x {
      k := 0;
    } else {
      k := HasEvent(log[n..], bs[1..], x);
      k := n + k;
    }
  }

  /** Of the bios a driver submitted, one for another queue is dealt with before one for its own queue. */
  lemma LowerFirst(log: seq<Event>, b: Bio, x: Bio, y: Bio, i: nat, j: nat)
    requires b.enterOk && InOrder(log, b) && forall k, l :: 0 <= k < l < |log| ==> log[k].id != log[l].id
    requires x in Accepted(b.spawns) && y in Accepted(b.spawns) && x.queue != b.queue && y.queue == b.queue
    requires i < |log| && j < |log| && log[i].id == x.id && log[j].id == y.id
    ensures 0 < i < j
  {
    var lower, same, n :| Sorted(Accepted(b.spawns), b.queue, lower, same)
      && 1 <= n <= |log| && AllInOrder(log[1..n], lower) && AllInOrder(log[n..], same);
    ShuffleHas(Accepted(b.spawns), lower, same, x);
    ShuffleHas(Accepted(b.spawns), lower, same, y);
    var k := HasEvent(log[1..n], lower, x);
    var l := HasEvent(log[n..], same, y);
    assert log[1 + k].id == x.id && log[n + l].id == y.id;
  }

  lemma {:induction false} VisitInOrder(b: Bio)
    ensures InOrder(Visit(b), b)
    decreases Size(b), 0
  {
    if b.enterOk {
      var lower, same := Pick(b.spawns, b.queue, false), Pick(b.spawns, b.queue, true);
      PickSizes(b.spawns, b.queue);
      AcceptedOk(b.spawns);
      PickAccepted(b.spawns, b.queue, false);
      PickAccepted(b.spawns, b.queue, true);
      PickSorts(Accepted(b.spawns), b.queue);
      VisitAllInOrder(lower);
      VisitAllInOrder(same);
      var log, n := Visit(b), 1 + |VisitAll(lower)|;
      assert log[1..n] == VisitAll(lower) && log[n..] == VisitAll(same);
    }
  }

  lemma {:induction false} VisitAllInOrder(bs: seq<Bio>)
    ensures AllInOrder(VisitAll(bs), bs)
    decreases SizeAll(bs), 1
  {
    if bs != [] {
      VisitInOrder(bs[0]);
      VisitAllInOrder(bs[1..]);
      var log, n := VisitAll(bs), |Visit(bs[0])|;
      assert log[..n] == Visit(bs[0]) && log[n..] == VisitAll(bs[1..]);
    }
  }

  // ---------------------------------------------------------------------------------------------
  // The loop
  // ---------------------------------------------------------------------------------------------

  lemma {:induction false} AcceptedSnoc(bs: seq<Bio>, b: Bio)
    ensures Accepted(bs + [b]) == Accepted(bs) + if b.checksOk then [b] else []
  {
    if bs == [] {
      assert bs + [b] == [b];
    } else {
      assert (bs + [b])[1..] == bs[1..] + [b];
      AcceptedSnoc(bs[1..], b);
      Assoc(if bs[0].checksOk then [bs[0]] else [], Accepted(bs[1..]), if b.checksOk then [b] else []);
    }
  }

  lemma {:induction false} ShuffleSnoc(list: seq<Bio>, a: seq<Bio>, b: seq<Bio>, x: Bio)
    requires Shuffle(list, a, b)
    ensures Shuffle(list + [x], a + [x], b) && Shuffle(list + [x], a, b + [x])
  {
    if list == [] {
      assert list + [x] == [x];
    } else {
      assert (list + [x])[1..] == list[1..] + [x];
      if a != [] && a[0] == list[0] && Shuffle(list[1..], a[1..], b) {
        ShuffleSnoc(list[1..], a[1..], b, x);
        assert (a + [x])[1..] == a[1..] + [x];
      } else {
        ShuffleSnoc(list[1..], a, b[1..], x);
        assert (b + [x])[1..] == b[1..] + [x];
      }
    }
  }

  /** Calls of generic_make_request by the driver: bios that pass the checks go to the list. */
  method Submit(bs: seq<Bio>) returns (list: seq<Bio>, ghost others: seq<Bio>)
    ensures list == Accepted(bs) && Shuffle(bs, list, others)
    ensures forall i :: 0 <= i < |list| ==> list[i].checksOk
    ensures forall i :: 0 <= i < |others| ==> !others[i].checksOk
  {
    list, others := [], [];
    var i := 0;
    while i < |bs|
      invariant i <= |bs| && list == Accepted(bs[..i]) && Shuffle(bs[..i], list, others)
      invariant forall k :: 0 <= k < |list| ==> list[k].checksOk
      invariant forall k :: 0 <= k < |others| ==> !others[k].checksOk
    {
      ShuffleSnoc(bs[..i], list, others, bs[i]);
      AcceptedSnoc(bs[..i], bs[i]);
      assert bs[..i + 1] == bs[..i] + [bs[i]];
      if bs[i].checksOk {
        list := list + [bs[i]];
      } else {
        others := others + [bs[i]];
      }
      i := i + 1;
    }
    assert bs[..i] == bs;
  }

  lemma {:induction false} PickAccepted(bs: seq<Bio>, q: nat, same: bool)
    ensures Pick(Accepted(bs), q, same) == Pick(bs, q, same)
  {
    if bs != [] {
      PickAccepted(bs[1..], q, same);
      if bs[0].checksOk {
        assert Accepted(bs) == [bs[0]] + Accepted(bs[1..]);
        assert Accepted(bs)[1..] == Accepted(bs[1..]);
      } else {
        assert Accepted(bs) == Accepted(bs[1..]);
      }
    }
  }

  /** What the driver submitted for other queues goes before what it submitted for its own. */
  method Sort(list: seq<Bio>, q: nat) returns (lower: seq<Bio>, same: seq<Bio>)
    requires forall i :: 0 <= i < |list| ==> list[i].checksOk
    ensures lower == Pick(list, q, false) && same == Pick(list, q, true)
    ensures Sorted(list, q, lower, same)
  {
    lower, same := [], [];
    var rest := list;
    while rest != []
      invariant forall i :: 0 <= i < |rest| ==> rest[i].checksOk
      invariant lower + Pick(rest, q, false) == Pick(list, q, false)
      invariant same + Pick(rest, q, true) == Pick(list, q, true)
      decreases |rest|
    {
      var bio := rest[0];
      if q == bio.queue {
        same := same + [bio];
      } else {
        lower := lower + [bio];
      }
      rest := rest[1..];
    }
    PickSorts(list, q);
  }

  lemma {:induction false} AcceptedOk(bs: seq<Bio>)
    ensures forall i :: 0 <= i < |Accepted(bs)| ==> Accepted(bs)[i].checksOk
  {
    if bs != [] {
      AcceptedOk(bs[1..]);
    }
  }

  lemma StepEvents(log: seq<Event>, e: Event, lower: seq<Event>, same: seq<Event>, rest: seq<Event>)
    ensures log + ([e] + lower + same) + rest == log + [e] + (lower + same + rest)
  {
  }

  /** Handing off b and putting what it spawned before what was waiting is the first step of the recursion. */
  lemma VisitStep(b: Bio, waiting: seq<Bio>, log: seq<Event>, next: seq<Bio>)
    requires b.enterOk
    requires next == Pick(b.spawns, b.queue, false) + Pick(b.spawns, b.queue, true) + waiting
    ensures log + Visit(b) + VisitAll(waiting) == log + [HandedOff(b.id)] + VisitAll(next)
  {
    var lower, same := Pick(b.spawns, b.queue, false), Pick(b.spawns, b.queue, true);
    VisitAllPlus(lower + same, waiting);
    VisitAllPlus(lower, same);
    StepEvents(log, HandedOff(b.id), VisitAll(lower), VisitAll(same), VisitAll(waiting));
  }

  lemma VisitNext(log: seq<Event>, next: seq<Bio>)
    requires next != []
    ensures log + VisitAll(next) == log + Visit(next[0]) + VisitAll(next[1..])
    ensures SizeAll(next) == Size(next[0]) + SizeAll(next[1..])
  {
  }

  /** ... and makes the work left smaller. */
  lemma VisitShrinks(b: Bio, waiting: seq<Bio>, next: seq<Bio>)
    requires next == Pick(b.spawns, b.queue, false) + Pick(b.spawns, b.queue, true) + waiting
    ensures SizeAll(next) < Size(b) + SizeAll(waiting)
  {
    var lower, same := Pick(b.spawns, b.queue, false), Pick(b.spawns, b.queue, true);
    PickSizes(b.spawns, b.queue);
    SizeAllPlus(lower + same, waiting);
    SizeAllPlus(lower, same);
  }

  /** generic_make_request of a bio that passed its checks: every bio is dealt with in the order of the
      recursion. */
  method GenericMakeRequest(root: Bio) returns (log: seq<Event>)
    ensures log == Visit(root) && InOrder(log, root)
  {
    VisitInOrder(root);
    var list0: seq<Bio>, list1: seq<Bio> := [], [];
    var bio := root;
    log := [];
    assert Visit(root) + VisitAll([]) == Visit(root);
    while true
      invariant log + Visit(bio) + VisitAll(list0) == Visit(root)
      decreases Size(bio) + SizeAll(list0)
    {
      ghost var before := Size(bio) + SizeAll(list0);
      if bio.enterOk {
        list1 := list0;
        ghost var others;
        list0, others := Submit(bio.spawns);
        PickAccepted(bio.spawns, bio.queue, false);
        PickAccepted(bio.spawns, bio.queue, true);
        var lower, same := Sort(list0, bio.queue);
        list0 := lower + same + list1;
        VisitStep(bio, list1, log, list0);
        VisitShrinks(bio, list1, list0);
        log := log + [HandedOff(bio.id)];
      } else {
        log := log + [Failed(bio.id)];
      }
      if list0 == [] {
        return;
      }
      VisitNext(log, list0);
      bio, list0 := list0[0], list0[1..];
    }
  }

  // ---------------------------------------------------------------------------------------------
  // Nobody is lost or dealt with twice
  // ---------------------------------------------------------------------------------------------

  function Ids(es: seq<Event>): multiset<nat> {
    if es == [] then multiset{} else multiset{es[0].id} + Ids(es[1..])
  }

  /** All bios that get as far as a queue. */
  function Nodes(b: Bio): multiset<nat> {
    multiset{b.id} + if b.enterOk then NodesAll(b.spawns) else multiset{}
  }

  function NodesAll(bs: seq<Bio>): multiset<nat> {
    if bs == [] then multiset{}
    else (if bs[0].checksOk then Nodes(bs[0]) else multiset{}) + NodesAll(bs[1..])
  }

  lemma {:induction false} IdsPlus(a: seq<Event>, b: seq<Event>)
    ensures Ids(a + b) == Ids(a) + Ids(b)
  {
    if a == [] {
      assert a + b == b;
    } else {
      assert (a + b)[1..] == a[1..] + b;
      IdsPlus(a[1..], b);
    }
  }

  lemma {:induction false} PickNodes(bs: seq<Bio>, q: nat)
    ensures NodesAll(Pick(bs, q, false)) + NodesAll(Pick(bs, q, true)) == NodesAll(bs)
  {
    if bs != [] {
      PickNodes(bs[1..], q);
      var b := bs[0];
      if b.checksOk {
        var tail := Pick(bs[1..], q, b.queue == q);
        assert ([b] + tail)[1..] == tail;
      }
    }
  }

  /** The events are those of all bios that get as far as a queue, each exactly as often as it occurs. */
  lemma {:induction false} VisitOnce(b: Bio)
    ensures Ids(Visit(b)) == Nodes(b)
    decreases Size(b), 0
  {
    if b.enterOk {
      var lower, same := Pick(b.spawns, b.queue, false), Pick(b.spawns, b.queue, true);
      PickSizes(b.spawns, b.queue);
      PickPasses(b.spawns, b.queue, false);
      PickPasses(b.spawns, b.queue, true);
      VisitAllOnce(lower);
      VisitAllOnce(same);
      PickNodes(b.spawns, b.queue);
      IdsPlus([HandedOff(b.id)] + VisitAll(lower), VisitAll(same));
      IdsPlus([HandedOff(b.id)], VisitAll(lower));
    }
  }

  lemma {:induction false} VisitAllOnce(bs: seq<Bio>)
    requires forall i :: 0 <= i < |bs| ==> bs[i].checksOk
    ensures Ids(VisitAll(bs)) == NodesAll(bs)
    decreases SizeAll(bs), 1
  {
    if bs != [] {
      VisitOnce(bs[0]);
      VisitAllOnce(bs[1..]);
      IdsPlus(Visit(bs[0]), VisitAll(bs[1..]));
    }
  }

  lemma {:induction false} PickPasses(bs: seq<Bio>, q: nat, same: bool)
    ensures forall i :: 0 <= i < |Pick(bs, q, same)| ==> Pick(bs, q, same)[i].checksOk
  {
    if bs != [] {
      PickPasses(bs[1..], q, same);
    }
  }
}
