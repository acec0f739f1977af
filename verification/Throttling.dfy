/** Throttle tokens (block/blk-rq-qos.c): rq_qos_wait and rq_qos_wake_function, as a state machine over any
    number of waiters and wakers.

    A token is a count of rqw->inflight.  It is taken by the compare-and-swap loop of atomic_inc_below,
    whose reading and swapping are separate steps here; a waker takes it on behalf of a waiter, tells the
    waiter, and unlinks it, which are separate steps as well, all under the lock of the wait queue.  So a
    waiter may take a token itself while a waker is giving it one, and then has to return one. */
module Throttling {
  import opened Lists

  type Tid = nat

  /** Where a thread stands in rq_qos_wait. */
  datatype Pc =
    | Outside
    | FastRead                    // !has_sleeper: try without queueing
    | FastSwap(cur: int)
    | Enqueue                     // prepare_to_wait_exclusive next
    | Queued                      // wq_has_single_sleeper next
    | Loop(hasSleeper: bool)      // top of the loop
    | SlowRead
    | SlowSwap(cur: int)
    | Leave                       // got a token itself: finish_wait next
    | LeaveCheck                  // has the waker given one too?
    | Sleep                       // io_schedule
    | Finish                      // finish_wait at the end
    | Holding                     // returned

  /** Where the waker that holds the wait-queue lock stands, and whom it is waking. */
  datatype Waker =
    | NoWaker
    | WakeRead(t: Tid)
    | WakeSwap(t: Tid, cur: int)
    | WakeFlag(t: Tid)            // has the token, got_token next
    | WakeUnlink(t: Tid)          // list_del_init next

  /** `own` are the threads holding a token they took themselves, `given` those with got_token set. */
  datatype State = State(
    limit: nat, inflight: int, queue: seq<Tid>, waker: Waker, pc: map<Tid, Pc>, own: set<Tid>, given: set<Tid>)

  function Init(limit: nat): State {
    State(limit, 0, [], NoWaker, map[], {}, {})
  }

  function At(s: State, t: Tid): Pc {
    if t in s.pc then s.pc[t] else Outside
  }

  function Go(s: State, t: Tid, pc: Pc): State {
    s.(pc := s.pc[t := pc])
  }

  datatype Step =
    | Run(t: Tid)       // the next action of a thread in rq_qos_wait
    | Release(t: Tid)   // the request is done, its token returned
    | StartWaker        // somebody calls wake_up
    | RunWaker          // the next action of rq_qos_wake_function

  /** finish_wait takes the lock only if the entry is still linked. */
  predicate CanUnlink(s: State, t: Tid) {
    t !in s.queue || s.waker == NoWaker
  }

  predicate Enabled(s: State, step: Step) {
    match step
    case Run(t) =>
      (match At(s, t)
       case Enqueue => s.waker == NoWaker
       case Leave => CanUnlink(s, t)
       case Finish => CanUnlink(s, t)
       case Holding => false
       case _ => true)
    case Release(t) => At(s, t) == Holding
    case StartWaker => s.waker == NoWaker && s.queue != []
    case RunWaker => s.waker != NoWaker
  }

  /** atomic_inc_below for a thread: swap, give up, or read again. */
  function SwapOwn(s: State, t: Tid, cur: int, win: Pc, lose: Pc, again: Pc): State {
    if cur >= s.limit then Go(s, t, lose)
    else if s.inflight == cur then Go(s, t, win).(inflight := cur + 1, own := s.own + {t})
    else Go(s, t, again)
  }

  function RunThread(s: State, t: Tid): State {
    match At(s, t)
    case Outside => Go(s, t, if s.queue != [] then Enqueue else FastRead)
    case FastRead => Go(s, t, FastSwap(s.inflight))
    case FastSwap(cur) => SwapOwn(s, t, cur, Holding, Enqueue, FastSwap(s.inflight))
    case Enqueue => Go(s, t, Queued).(queue := s.queue + [t])
    case Queued => Go(s, t, Loop(|s.queue| != 1))
    case Loop(hasSleeper) => Go(s, t, if t in s.given then Finish else if hasSleeper then Sleep else SlowRead)
    case SlowRead => Go(s, t, SlowSwap(s.inflight))
    case SlowSwap(cur) => SwapOwn(s, t, cur, Leave, Sleep, SlowSwap(s.inflight))
    case Leave => Go(s, t, LeaveCheck).(queue := Without(s.queue, t))
    case LeaveCheck =>
      if t in s.given then Go(s, t, Finish).(inflight := s.inflight - 1, own := s.own - {t})
      else Go(s, t, Finish)
    case Sleep => Go(s, t, Loop(true))
    case Finish => Go(s, t, Holding).(queue := Without(s.queue, t))
    case Holding => s
  }

  function RunWakeFunction(s: State): State {
    match s.waker
    case NoWaker => s
    case WakeRead(t) => s.(waker := WakeSwap(t, s.inflight))
    case WakeSwap(t, cur) =>
      if cur >= s.limit then s.(waker := NoWaker)
      else if s.inflight == cur then s.(waker := WakeFlag(t), inflight := cur + 1)
      else s.(waker := WakeSwap(t, s.inflight))
    case WakeFlag(t) => s.(waker := WakeUnlink(t), given := s.given + {t})
    case WakeUnlink(t) => s.(waker := NoWaker, queue := Without(s.queue, t))
  }

  function Apply(s: State, step: Step): State {
    match step
    case Run(t) => RunThread(s, t)
    case Release(t) =>
      Go(s, t, Outside).(inflight := s.inflight - 1, own := s.own - {t}, given := s.given - {t})
    case StartWaker => if s.queue == [] then s else s.(waker := WakeRead(s.queue[0]))
    case RunWaker => RunWakeFunction(s)
  }

  // ---------------------------------------------------------------------------------------------
  // The invariant
  // ---------------------------------------------------------------------------------------------

  /** Every count of inflight is a token somebody has, and the limit is kept. */
  predicate Counted(s: State) {
    && s.inflight == |s.own| + |s.given| + (if s.waker.WakeFlag? then 1 else 0)
    && s.inflight <= s.limit
  }

  /** What a thread at a certain point may own, and whether it may be on the queue. */
  predicate ThreadOk(s: State, t: Tid) {
    var own, given, linked := t in s.own, t in s.given, t in s.queue;
    match At(s, t)
    case Outside => !own && !given && !linked
    case FastRead => !own && !given && !linked
    case FastSwap(_) => !own && !given && !linked
    case Enqueue => !own && !given && !linked
    case Leave => own
    case LeaveCheck => own && !linked
    case Finish => own != given && (own ==> !linked)
    case Holding => own != given && !linked
    case _ => !own
  }

  /** A linked thread that has been given a token is just being unlinked; the waker works on a linked
      thread, which it has not given a token yet, unless it is about to unlink it. */
  ghost predicate QueueOk(s: State) {
    && Distinct(s.queue)
    && (forall t :: t in s.queue && t in s.given ==> s.waker == WakeUnlink(t))
    && (s.waker != NoWaker ==> s.waker.t in s.queue)
    && (s.waker.WakeUnlink? ==> s.waker.t in s.given)
  }

  ghost predicate Inv(s: State) {
    Counted(s) && QueueOk(s) && forall t :: ThreadOk(s, t)
  }

  lemma RunKeepsCount(s: State, t: Tid)
    requires Inv(s) && Enabled(s, Run(t))
    ensures Counted(Apply(s, Run(t)))
  {
    assert ThreadOk(s, t);
  }

  lemma RunKeepsQueue(s: State, t: Tid)
    requires Inv(s) && Enabled(s, Run(t))
    ensures QueueOk(Apply(s, Run(t)))
  {
    assert ThreadOk(s, t);
    WithoutMembers(s.queue, t);
    if At(s, t) == Enqueue {
      DistinctSnoc(s.queue, t);
    }
  }

  lemma RunKeepsSelf(s: State, t: Tid)
    requires Inv(s) && Enabled(s, Run(t))
    ensures ThreadOk(Apply(s, Run(t)), t)
  {
    assert ThreadOk(s, t);
    WithoutMembers(s.queue, t);
  }

  lemma RunKeepsOther(s: State, t: Tid, x: Tid)
    requires Inv(s) && Enabled(s, Run(t)) && x != t
    ensures ThreadOk(Apply(s, Run(t)), x)
  {
    var r := Apply(s, Run(t));
    WithoutMembers(s.queue, t);
    assert At(r, x) == At(s, x) && (x in r.own <==> x in s.own) && r.given == s.given
            && (x in r.queue <==> x in s.queue);
    assert ThreadOk(s, x);
  }

  lemma ReleaseKeepsInv(s: State, t: Tid)
    requires Inv(s) && Enabled(s, Release(t))
    ensures Inv(Apply(s, Release(t)))
  {
    assert ThreadOk(s, t);
    forall x ensures ThreadOk(Apply(s, Release(t)), x) {
      assert ThreadOk(s, x);
    }
  }

  lemma WakerKeepsInv(s: State, step: Step)
    requires Inv(s) && Enabled(s, step) && (step.StartWaker? || step.RunWaker?)
    ensures Inv(Apply(s, step))
  {
    if s.waker != NoWaker {
      WithoutMembers(s.queue, s.waker.t);
      assert ThreadOk(s, s.waker.t);
    }
    forall x ensures ThreadOk(Apply(s, step), x) {
      assert ThreadOk(s, x);
    }
  }

  lemma StepKeepsInv(s: State, step: Step)
    requires Inv(s) && Enabled(s, step)
    ensures Inv(Apply(s, step))
  {
    match step
    case Run(t) =>
      RunKeepsCount(s, t);
      RunKeepsQueue(s, t);
      forall x ensures ThreadOk(Apply(s, step), x) {
        if x == t {
          RunKeepsSelf(s, t);
        } else {
          RunKeepsOther(s, t, x);
        }
      }
    case Release(t) => ReleaseKeepsInv(s, t);
    case StartWaker => WakerKeepsInv(s, step);
    case RunWaker => WakerKeepsInv(s, step);
  }

  predicate Legal(s: State, run: seq<Step>)
    decreases |run|
  {
    run == [] || (Enabled(s, run[0]) && Legal(Apply(s, run[0]), run[1..]))
  }

  function Exec(s: State, run: seq<Step>): State
    decreases |run|
  {
    if run == [] then s else Exec(Apply(s, run[0]), run[1..])
  }

  lemma {:induction false} RunKeepsInv(s: State, run: seq<Step>)
    requires Inv(s) && Legal(s, run)
    ensures Inv(Exec(s, run))
    decreases |run|
  {
    if run != [] {
      StepKeepsInv(s, run[0]);
      RunKeepsInv(Apply(s, run[0]), run[1..]);
    }
  }

  /** In every interleaving of any number of waiters and wakers: whoever has returned from rq_qos_wait has
      exactly one token, whoever has not called it has none, inflight is the number of tokens handed out,
      and it never exceeds the limit. */
  lemma EveryInterleaving(limit: nat, run: seq<Step>)
    requires Legal(Init(limit), run)
    ensures
      var s := Exec(Init(limit), run);
      && (forall t :: At(s, t) == Holding ==> (t in s.own) != (t in s.given))
      && (forall t :: At(s, t) == Outside ==> t !in s.own && t !in s.given)
      && s.inflight == |s.own| + |s.given| + (if s.waker.WakeFlag? then 1 else 0)
      && 0 <= s.inflight <= s.limit
  {
    var s := Exec(Init(limit), run);
    RunKeepsInv(Init(limit), run);
    forall t ensures At(s, t) == Holding ==> (t in s.own) != (t in s.given)
      ensures At(s, t) == Outside ==> t !in s.own && t !in s.given
    {
      assert ThreadOk(s, t);
    }
  }

  // ---------------------------------------------------------------------------------------------
  // The race is real
  // ---------------------------------------------------------------------------------------------

  lemma {:induction false} Then(s: State, run: seq<Step>, step: Step)
    requires Legal(s, run) && Enabled(Exec(s, run), step)
    ensures Legal(s, run + [step]) && Exec(s, run + [step]) == Apply(Exec(s, run), step)
    decreases |run|
  {
    if run == [] {
      assert run + [step] == [step];
      assert Legal(Apply(s, step), [step][1..]);
    } else {
      assert (run + [step])[1..] == run[1..] + [step];
      Then(Apply(s, run[0]), run[1..], step);
    }
  }

  /** A run with a limit of 2 that leads to s. */
  predicate Leads(run: seq<Step>, s: State) {
    Legal(Init(2), run) && Exec(Init(2), run) == s
  }

  lemma Take(run: seq<Step>, s: State, step: Step) returns (longer: seq<Step>, next: State)
    requires Leads(run, s) && Enabled(s, step)
    ensures Leads(longer, next) && next == Apply(s, step)
  {
    Then(Init(2), run, step);
    longer := run + [step];
    next := Apply(s, step);
  }

  /** Waiters 1 and 2 take the tokens, */
  lemma BothTake() returns (run: seq<Step>, s: State)
    ensures Leads(run, s) && s == State(2, 2, [], NoWaker, map[1 := Holding, 2 := Holding], {1, 2}, {})
  {
    run, s := Take([], Init(2), Run(1));
    run, s := Take(run, s, Run(1));
    run, s := Take(run, s, Run(1));
    assert s == State(2, 1, [], NoWaker, map[1 := Holding], {1}, {});
    run, s := Take(run, s, Run(2));
    run, s := Take(run, s, Run(2));
    run, s := Take(run, s, Run(2));
  }

  /** 7 finds none left, */
  lemma SeventhFails() returns (run: seq<Step>, s: State)
    ensures Leads(run, s)
    ensures s == State(2, 2, [], NoWaker, map[1 := Holding, 2 := Holding, 7 := Enqueue], {1, 2}, {})
  {
    run, s := BothTake();
    run, s := Take(run, s, Run(7));
    run, s := Take(run, s, Run(7));
    run, s := Take(run, s, Run(7));
  }

  /** and queues up as the only sleeper, */
  lemma SeventhQueues() returns (run: seq<Step>, s: State)
    ensures Leads(run, s)
    ensures s == State(2, 2, [7], NoWaker, map[1 := Holding, 2 := Holding, 7 := SlowRead], {1, 2}, {})
  {
    run, s := SeventhFails();
    run, s := Take(run, s, Run(7));
    run, s := Take(run, s, Run(7));
    run, s := Take(run, s, Run(7));
  }

  /** both tokens are returned and a waker takes one for 7, */
  lemma WakerTakes() returns (run: seq<Step>, s: State)
    ensures Leads(run, s)
    ensures s == State(2, 1, [7], WakeFlag(7), map[1 := Outside, 2 := Outside, 7 := SlowRead], {}, {})
  {
    run, s := SeventhQueues();
    run, s := Take(run, s, Release(1));
    run, s := Take(run, s, Release(2));
    assert s == State(2, 0, [7], NoWaker, map[1 := Outside, 2 := Outside, 7 := SlowRead], {}, {});
    run, s := Take(run, s, StartWaker);
    run, s := Take(run, s, RunWaker);
    run, s := Take(run, s, RunWaker);
  }

  /** and meanwhile 7 takes one itself: a waiter can really end up with two tokens ... */
  lemma TwoTokensCanHappen() returns (run: seq<Step>)
    ensures Legal(Init(2), run)
    ensures 7 in Exec(Init(2), run).own && 7 in Exec(Init(2), run).given
  {
    var s;
    run, s := WakerTakes();
    run, s := Take(run, s, Run(7));
    run, s := Take(run, s, Run(7));
    assert s == State(2, 2, [7], WakeFlag(7), map[1 := Outside, 2 := Outside, 7 := Leave], {7}, {});
    run, s := Take(run, s, RunWaker);
  }

  /** ... and the check after finish_wait returns one of the two, so that one is left. */
  lemma OneTokenIsReturned(s: State, t: Tid)
    requires Inv(s) && At(s, t) == LeaveCheck
    ensures
      var r := Apply(s, Run(t));
      && (t in r.own) != (t in r.given)
      && r.inflight == if t in s.given then s.inflight - 1 else s.inflight
  {
    assert ThreadOk(s, t);
  }

  // ---------------------------------------------------------------------------------------------
  // The calls
  // ---------------------------------------------------------------------------------------------

  /** t is at pc; everything else is as in s. */
  ghost predicate OnlyAt(r: State, s: State, t: Tid, pc: Pc) {
    At(r, t) == pc && r == s.(pc := r.pc) && forall x :: x != t ==> At(r, x) == At(s, x)
  }

  /** The calls, when nobody interferes: each is a run of the machine, with an exact effect. */
  class RqWait {
    var s: State
    /** The steps since some earlier state. */
    ghost var run: seq<Step>

    ghost predicate Since(from: State)
      reads this
    {
      Legal(from, run) && Exec(from, run) == s
    }

    method Do(step: Step, ghost from: State)
      requires Since(from) && Enabled(s, step)
      modifies this
      ensures Since(from) && s == Apply(old(s), step)
    {
      Then(from, run, step);
      run := run + [step];
      s := Apply(s, step);
    }

    /** The first attempt: a token is taken at once iff nobody is waiting and there is room. */
    method TryFirst(t: Tid) returns (got: bool)
      requires At(s, t) == Outside
      modifies this
      ensures Since(old(s))
      ensures got <==> old(s).queue == [] && old(s).inflight < old(s).limit
      ensures
        var o := old(s);
        if got then OnlyAt(s, o.(inflight := o.inflight + 1, own := o.own + {t}), t, Holding)
        else OnlyAt(s, o, t, Enqueue)
    {
      run := [];
      Do(Run(t), old(s));
      if At(s, t) == FastRead {
        Do(Run(t), old(s));
        Do(Run(t), old(s));
      }
      got := At(s, t) == Holding;
    }

    method Join(t: Tid, ghost from: State)
      requires Since(from) && At(s, t) == Enqueue && s.waker == NoWaker && t !in s.given
      modifies this
      ensures Since(from)
      ensures OnlyAt(s, old(s).(queue := old(s).queue + [t]), t, if old(s).queue == [] then SlowRead else Sleep)
    {
      Do(Run(t), from);
      Do(Run(t), from);
      Do(Run(t), from);
    }

    method TryAgain(t: Tid, ghost from: State)
      requires Since(from) && At(s, t) == SlowRead
      modifies this
      ensures Since(from)
      ensures
        var o := old(s);
        if o.inflight < o.limit then OnlyAt(s, o.(inflight := o.inflight + 1, own := o.own + {t}), t, Leave)
        else OnlyAt(s, o, t, Sleep)
    {
      Do(Run(t), from);
      Do(Run(t), from);
    }

    /** Then the caller queues up at the end; if it is the only one it tries once more, else it sleeps. */
    method QueueUp(t: Tid) returns (got: bool)
      requires At(s, t) == Enqueue && s.waker == NoWaker && t !in s.given
      modifies this
      ensures Since(old(s))
      ensures got <==> old(s).queue == [] && old(s).inflight < old(s).limit
      ensures
        var o := old(s);
        if got then OnlyAt(s, o.(inflight := o.inflight + 1, own := o.own + {t}), t, Holding)
        else OnlyAt(s, o.(queue := o.queue + [t]), t, Sleep)
    {
      run := [];
      Join(t, old(s));
      ghost var a := s;
      got := false;
      if At(s, t) == SlowRead {
        TryAgain(t, old(s));
        ghost var b := s;
        got := At(s, t) == Leave;
        if got {
          Leaving(t, old(s));
          assert Without([t], t) == [] && s.queue == [] == old(s).queue;
        }
        forall x | x != t ensures At(s, x) == At(old(s), x) {
          assert At(b, x) == At(a, x);
        }
      }
    }

    /** A token was taken: finish_wait, and nothing has to be returned. */
    method Leaving(t: Tid, ghost from: State)
      requires Since(from) && At(s, t) == Leave && s.waker == NoWaker && t !in s.given
      modifies this
      ensures Since(from) && OnlyAt(s, old(s).(queue := Without(Without(old(s).queue, t), t)), t, Holding)
    {
      Do(Run(t), from);
      Do(Run(t), from);
      Do(Run(t), from);
    }

    /** wake_up: if there is room, the one that has waited longest gets a token and leaves the queue. */
    method WakeUp() returns (woken: bool)
      requires s.waker == NoWaker && s.queue != []
      modifies this
      ensures Since(old(s))
      ensures woken <==> old(s).inflight < old(s).limit
      ensures
        var o := old(s);
        s == if woken then o.(inflight := o.inflight + 1, given := o.given + {o.queue[0]}, queue := o.queue[1..]) else o
    {
      run := [];
      Do(StartWaker, old(s));
      Do(RunWaker, old(s));
      Do(RunWaker, old(s));
      woken := s.waker != NoWaker;
      if woken {
        Do(RunWaker, old(s));
        Do(RunWaker, old(s));
      }
    }

    /** A sleeper that runs again: it returns iff it was given a token, and then without taking another. */
    method WakeAgain(t: Tid) returns (got: bool)
      requires At(s, t) == Sleep && s.waker == NoWaker && (t in s.given ==> t !in s.queue) && Distinct(s.queue)
      modifies this
      ensures Since(old(s))
      ensures got <==> t in old(s).given
      ensures OnlyAt(s, old(s), t, if got then Holding else Sleep)
    {
      run := [];
      Do(Run(t), old(s));
      Do(Run(t), old(s));
      got := At(s, t) == Finish;
      if got {
        WithoutMembers(s.queue, t);
        Do(Run(t), old(s));
      }
    }
  }
}
