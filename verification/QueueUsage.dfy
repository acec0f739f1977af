/** The usage counter of a request queue, freezing, and runtime power management (blk_queue_enter and
    blk_queue_exit in block/blk-core.c, blk_freeze_queue_start and blk_mq_unfreeze_queue in
    block/blk-mq.c, block/blk-pm.c), as a state machine over any number of threads.

    Every constructor of `Step` is one atomic action of one thread.  In particular taking a reference and
    looking at pm_only are two actions of blk_queue_enter, and everything may happen between them.  The
    callbacks of the PM core are serialized with each other, as that core does. */
module QueueUsage {

  /** One call of blk_queue_enter: who, and whether with BLK_MQ_REQ_PREEMPT. */
  datatype Caller = Caller(id: nat, preempt: bool)

  type Tid = nat

  /** q->rpm_status */
  datatype Rpm = Active | Suspending | Suspended | Resuming

  /** Where the PM callback in progress stands. */
  datatype PmPc =
    | Idle                  // no callback in progress
    | PmOnlySet             // blk_pre_runtime_suspend after blk_set_pm_only
    | Frozen                // ... after blk_freeze_queue_start
    | Checked(zero: bool)   // ... after percpu_ref_is_zero
    | Thawed(zero: bool)    // ... after blk_mq_unfreeze_queue
    | ClearPending          // status decided, blk_clear_pm_only still to come

  /** `usage` counts references beyond the initial one, which percpu_ref_kill drops.
      `got` are the calls that took a reference and have not yet looked at pm_only, `inside` those that
      succeeded and have not exited.  `freezers` called blk_freeze_queue_start, and those in `drained`
      also saw the counter at zero; `pmHolders` are other users of blk_set_pm_only.
      `quiet` is history: a suspend saw zero, and pm_only has not been zero since. */
  datatype State = State(
    usage: int, live: bool, depth: int, pmOnly: int, status: Rpm, pm: PmPc,
    got: set<Caller>, inside: set<Caller>, freezers: set<Tid>, drained: set<Tid>, pmHolders: set<Tid>, quiet: bool)

  const INIT := State(0, true, 0, 0, Active, Idle, {}, {}, {}, {}, {}, false)

  datatype Step =
    | TryGet(c: Caller)             // percpu_ref_tryget_live
    | LookAtPmOnly(c: Caller)       // the rest of blk_queue_enter
    | Exit(c: Caller)
    | FreezeStart(t: Tid)
    | SeeZero(t: Tid)               // blk_mq_freeze_queue_wait returns
    | Unfreeze(t: Tid)
    | SetPmOnly(t: Tid)
    | ClearPmOnly(t: Tid)
    | PreSuspend                    // blk_pre_runtime_suspend, five actions
    | PreFreeze
    | PreCheck
    | PreThaw
    | PreDecide
    | PostSuspend(err: bool)
    | PreResume
    | PostResume(err: bool)
    | SetRuntimeActive
    | FinishClear                   // the blk_clear_pm_only at the end of a callback

  predicate Enabled(s: State, step: Step) {
    match step
    case TryGet(c) => c !in s.got && c !in s.inside
    case LookAtPmOnly(c) => c in s.got
    case Exit(c) => c in s.inside
    case FreezeStart(t) => t !in s.freezers
    case SeeZero(t) => t in s.freezers && IsZero(s)
    case Unfreeze(t) => t in s.freezers
    case SetPmOnly(t) => t !in s.pmHolders
    case ClearPmOnly(t) => t in s.pmHolders
    case PreSuspend => s.pm == Idle && s.status == Active
    case PreFreeze => s.pm == PmOnlySet
    case PreCheck => s.pm == Frozen
    case PreThaw => s.pm.Checked?
    case PreDecide => s.pm.Thawed?
    case PostSuspend(_) => s.pm == Idle && s.status == Suspending
    case PreResume => s.pm == Idle && s.status == Suspended
    case PostResume(_) => s.pm == Idle && s.status == Resuming
    case SetRuntimeActive => s.pm == Idle
    case FinishClear => s.pm == ClearPending
  }

  /** percpu_ref_is_zero: killed, and no reference left. */
  predicate IsZero(s: State) {
    !s.live && s.usage == 0
  }

  /** blk_freeze_queue_start */
  function Freeze(s: State): State {
    s.(depth := s.depth + 1, live := if s.depth + 1 == 1 then false else s.live)
  }

  /** blk_mq_unfreeze_queue */
  function Thaw(s: State): State {
    s.(depth := s.depth - 1, live := if s.depth - 1 == 0 then true else s.live)
  }

  /** blk_clear_pm_only */
  function Clear(s: State): State {
    s.(pmOnly := s.pmOnly - 1, quiet := s.quiet && s.pmOnly - 1 != 0)
  }

  function Apply(s: State, step: Step): State {
    match step
    case TryGet(c) => if s.live then s.(usage := s.usage + 1, got := s.got + {c}) else s
    case LookAtPmOnly(c) =>
      if c.preempt || s.pmOnly == 0 then s.(got := s.got - {c}, inside := s.inside + {c})
      else s.(got := s.got - {c}, usage := s.usage - 1)
    case Exit(c) => s.(inside := s.inside - {c}, usage := s.usage - 1)
    case FreezeStart(t) => Freeze(s).(freezers := s.freezers + {t})
    case SeeZero(t) => s.(drained := s.drained + {t})
    case Unfreeze(t) => Thaw(s).(freezers := s.freezers - {t}, drained := s.drained - {t})
    case SetPmOnly(t) => s.(pmOnly := s.pmOnly + 1, pmHolders := s.pmHolders + {t})
    case ClearPmOnly(t) => Clear(s).(pmHolders := s.pmHolders - {t})
    case PreSuspend => s.(pmOnly := s.pmOnly + 1, pm := PmOnlySet)
    case PreFreeze => Freeze(s).(pm := Frozen)
    case PreCheck => s.(pm := Checked(IsZero(s)), quiet := s.quiet || IsZero(s))
    case PreThaw => if s.pm.Checked? then Thaw(s).(pm := Thawed(s.pm.zero)) else s
    case PreDecide => if s.pm.Thawed? && s.pm.zero then s.(status := Suspending, pm := Idle) else s.(pm := ClearPending)
    case PostSuspend(err) => if err then s.(status := Active, pm := ClearPending) else s.(status := Suspended)
    case PreResume => s.(status := Resuming)
    case PostResume(err) => if err then s.(status := Suspended) else ForceActive(s)
    case SetRuntimeActive => ForceActive(s)
    case FinishClear => Clear(s).(pm := Idle)
  }

  /** blk_set_runtime_active up to the clearing of pm_only. */
  function ForceActive(s: State): State {
    s.(status := Active, pm := if s.status != Active then ClearPending else Idle)
  }

  /** Does runtime PM hold a count of pm_only?  Of the freeze depth? */
  predicate PmHolds(s: State) {
    s.pm != Idle || s.status != Active
  }

  predicate PmFreezes(s: State) {
    s.pm == Frozen || s.pm.Checked?
  }

  /** A suspend has succeeded in its zero check and has not been undone. */
  predicate SuspendPassed(s: State) {
    (s.pm.Checked? && s.pm.zero) || (s.pm.Thawed? && s.pm.zero) || (s.pm == Idle && s.status != Active)
  }

  /** The counters are exact. */
  predicate Counted(s: State) {
    && s.got !! s.inside
    && s.usage == |s.got| + |s.inside|
    && s.depth == |s.freezers| + (if PmFreezes(s) then 1 else 0)
    && s.pmOnly == |s.pmHolders| + (if PmHolds(s) then 1 else 0)
  }

  /** A queue somebody froze and saw empty stays empty. */
  predicate Drained(s: State) {
    s.drained <= s.freezers && (s.drained != {} ==> s.usage == 0)
  }

  /** Once a suspend saw zero, only PREEMPT callers are inside. */
  predicate Quiet(s: State) {
    s.quiet ==> s.pmOnly > 0 && forall c :: c in s.inside ==> c.preempt
  }

  predicate Inv(s: State) {
    && Counted(s)
    && (s.live <==> s.depth == 0)
    && Drained(s)
    && Quiet(s)
    && (SuspendPassed(s) ==> s.quiet)
    && (s.pm != Idle ==> s.status == Active)
  }

  // blk_queue_enter and blk_queue_exit

  lemma EnterKeepsInv(s: State, c: Caller)
    requires Inv(s) && Enabled(s, TryGet(c))
    ensures Inv(Apply(s, TryGet(c)))
  {
  }

  lemma LookKeepsInv(s: State, c: Caller)
    requires Inv(s) && Enabled(s, LookAtPmOnly(c))
    ensures Inv(Apply(s, LookAtPmOnly(c)))
  {
  }

  lemma ExitKeepsInv(s: State, c: Caller)
    requires Inv(s) && Enabled(s, Exit(c))
    ensures Inv(Apply(s, Exit(c)))
  {
  }

  predicate EnterStep(step: Step) {
    step.TryGet? || step.LookAtPmOnly? || step.Exit?
  }

  predicate FreezeStep(step: Step) {
    step.FreezeStart? || step.SeeZero? || step.Unfreeze?
  }

  predicate PmOnlyStep(step: Step) {
    step.SetPmOnly? || step.ClearPmOnly?
  }

  predicate SuspendStep(step: Step) {
    step.PreSuspend? || step.PreFreeze? || step.PreCheck? || step.PreThaw? || step.PreDecide?
  }

  lemma FreezeKeepsInv(s: State, step: Step)
    requires Inv(s) && Enabled(s, step) && FreezeStep(step)
    ensures Inv(Apply(s, step))
  {
  }

  lemma PmOnlyKeepsInv(s: State, step: Step)
    requires Inv(s) && Enabled(s, step) && PmOnlyStep(step)
    ensures Inv(Apply(s, step))
  {
  }

  lemma SuspendKeepsInv(s: State, step: Step)
    requires Inv(s) && Enabled(s, step) && SuspendStep(step)
    ensures Inv(Apply(s, step))
  {
  }

  lemma ResumeKeepsInv(s: State, step: Step)
    requires Inv(s) && Enabled(s, step)
    requires !EnterStep(step) && !FreezeStep(step) && !PmOnlyStep(step) && !SuspendStep(step)
    ensures Inv(Apply(s, step))
  {
  }

  lemma StepKeepsInv(s: State, step: Step)
    requires Inv(s) && Enabled(s, step)
    ensures Inv(Apply(s, step))
  {
    match step
    case TryGet(c) => EnterKeepsInv(s, c);
    case LookAtPmOnly(c) => LookKeepsInv(s, c);
    case Exit(c) => ExitKeepsInv(s, c);
    case _ =>
      if FreezeStep(step) {
        FreezeKeepsInv(s, step);
      } else if PmOnlyStep(step) {
        PmOnlyKeepsInv(s, step);
      } else if SuspendStep(step) {
        SuspendKeepsInv(s, step);
      } else {
        ResumeKeepsInv(s, step);
      }
  }

  // ---------------------------------------------------------------------------------------------
  // Runs
  // ---------------------------------------------------------------------------------------------

  predicate Legal(s: State, run: seq<Step>)
    decreases |run|
  {
    run == [] || (Enabled(s, run[0]) && Legal(Apply(s, run[0]), run[1..]))
  }

  function Exec(s: State, run: seq<Step>): State
    decreases |run|
  {
    if run == [] then s else Exec(Apply(s, run[0]), run[1..])
  }

  lemma {:induction false} RunKeepsInv(s: State, run: seq<Step>)
    requires Inv(s) && Legal(s, run)
    ensures Inv(Exec(s, run))
    decreases |run|
  {
    if run != [] {
      StepKeepsInv(s, run[0]);
      RunKeepsInv(Apply(s, run[0]), run[1..]);
    }
  }

  /** In every interleaving: the reference is live iff nobody freezes; the counters are exact, so the
      warnings about negative ones never fire; a frozen and drained queue is empty; and while the device
      is suspending, suspended or resuming, no normal caller is in the queue. */
  lemma EveryInterleaving(run: seq<Step>)
    requires Legal(INIT, run)
    ensures
      var s := Exec(INIT, run);
      && (s.live <==> s.depth == 0)
      && s.usage == |s.got| + |s.inside|
      && 0 <= s.depth && 0 <= s.pmOnly
      && (s.drained != {} ==> s.inside == {} && s.got == {})
      && (s.pm == Idle && s.status != Active ==> forall c :: c in s.inside ==> c.preempt)
  {
    RunKeepsInv(INIT, run);
  }

  /** pm_only stays above zero all along a run. */
  predicate PmOnlyThroughout(s: State, run: seq<Step>)
    decreases |run|
  {
    s.pmOnly != 0 && (run == [] || PmOnlyThroughout(Apply(s, run[0]), run[1..]))
  }

  lemma StepKeepsQuiet(s: State, step: Step)
    requires s.quiet && Apply(s, step).pmOnly != 0
    ensures Apply(s, step).quiet
  {
  }

  lemma {:induction false} QuietLasts(s: State, run: seq<Step>)
    requires Legal(s, run) && s.quiet && PmOnlyThroughout(s, run)
    ensures Exec(s, run).quiet
    decreases |run|
  {
    if run != [] {
      StepKeepsQuiet(s, run[0]);
      QuietLasts(Apply(s, run[0]), run[1..]);
    }
  }

  /** From the zero check of a suspend on, as long as pm_only does not fall to zero, no successful
      blk_queue_enter without PREEMPT is outstanding, whatever the threads do. */
  lemma QuietAfterZeroCheck(before: seq<Step>, after: seq<Step>)
    requires Legal(INIT, before)
    requires
      var s := Exec(INIT, before);
      s.pm == Frozen && IsZero(s) && Legal(Apply(s, PreCheck), after) && PmOnlyThroughout(Apply(s, PreCheck), after)
    ensures forall c :: c in Exec(Apply(Exec(INIT, before), PreCheck), after).inside ==> c.preempt
  {
    var s := Exec(INIT, before);
    RunKeepsInv(INIT, before);
    StepKeepsInv(s, PreCheck);
    QuietLasts(Apply(s, PreCheck), after);
    RunKeepsInv(Apply(s, PreCheck), after);
  }

  // ---------------------------------------------------------------------------------------------
  // When blk_queue_enter succeeds
  // ---------------------------------------------------------------------------------------------

  /** A call gets a reference iff nobody has the queue frozen. */
  lemma GetsReferenceIff(run: seq<Step>, c: Caller)
    requires Legal(INIT, run) && Enabled(Exec(INIT, run), TryGet(c))
    ensures
      var s, r := Exec(INIT, run), Apply(Exec(INIT, run), TryGet(c));
      if s.freezers == {} && !PmFreezes(s) then r.got == s.got + {c} && r.usage == s.usage + 1 else r == s
  {
    RunKeepsInv(INIT, run);
  }

  /** A call that has one gets in iff it is one of power management, or the device is active, no suspend is under way
      and nobody else restricts the queue; otherwise the reference is given back. */
  lemma GetsInIff(run: seq<Step>, c: Caller)
    requires Legal(INIT, run) && Enabled(Exec(INIT, run), LookAtPmOnly(c))
    ensures
      var s, r := Exec(INIT, run), Apply(Exec(INIT, run), LookAtPmOnly(c));
      && c !in r.got
      && (c in r.inside <==> c.preempt || (s.pmHolders == {} && s.status == Active && s.pm == Idle))
      && r.usage == (if c in r.inside then s.usage else s.usage - 1)
  {
    RunKeepsInv(INIT, run);
  }

  lemma {:induction false} Then(s: State, run: seq<Step>, step: Step)
    requires Legal(s, run) && Enabled(Exec(s, run), step)
    ensures Legal(s, run + [step]) && Exec(s, run + [step]) == Apply(Exec(s, run), step)
    decreases |run|
  {
    if run == [] {
      assert run + [step] == [step];
      assert Legal(Apply(s, step), [step][1..]) && Exec(Apply(s, step), [step][1..]) == Apply(s, step);
    } else {
      assert (run + [step])[1..] == run[1..] + [step];
      Then(Apply(s, run[0]), run[1..], step);
    }
  }

  /** The calls, when nobody interferes: each is a run of the machine, with an exact effect. */
  class RequestQueue {
    var s: State
    /** The steps since some earlier state. */
    ghost var run: seq<Step>

    ghost predicate Since(from: State)
      reads this
    {
      Inv(from) && Legal(from, run) && Exec(from, run) == s
    }

    method Do(step: Step, ghost from: State)
      requires Since(from) && Enabled(s, step)
      modifies this
      ensures Since(from) && s == Apply(old(s), step)
    {
      Then(from, run, step);
      run := run + [step];
      s := Apply(s, step);
    }

    /** One round of blk_queue_enter. */
    method Enter(c: Caller) returns (ok: bool)
      requires Inv(s) && c !in s.got && c !in s.inside
      modifies this
      ensures Since(old(s)) && Inv(s)
      ensures ok <==> old(s).depth == 0 && (c.preempt || old(s).pmOnly == 0)
      ensures s == if ok then old(s).(usage := old(s).usage + 1, inside := old(s).inside + {c}) else old(s)
    {
      run := [];
      Do(TryGet(c), old(s));
      ok := false;
      if c in s.got {
        Do(LookAtPmOnly(c), old(s));
        ok := c in s.inside;
      }
      assert old(s).got + {c} - {c} == old(s).got;
      RunKeepsInv(old(s), run);
    }

    /** Its first four actions: with pm_only set, does anybody hold a reference? */
    method LookForUsers() returns (none: bool)
      requires Inv(s) && s.pm == Idle && s.status == Active
      modifies this
      ensures Since(old(s))
      ensures none <==> old(s).got == {} && old(s).inside == {}
      ensures
        var o := old(s);
        s == o.(pmOnly := o.pmOnly + 1, pm := Thawed(none), quiet := o.quiet || none)
    {
      run := [];
      ghost var o := s.(pmOnly := s.pmOnly + 1);
      Do(PreSuspend, old(s));
      assert s == o.(pm := PmOnlySet);
      Do(PreFreeze, old(s));
      assert s == o.(pm := Frozen, depth := o.depth + 1, live := false);
      Do(PreCheck, old(s));
      none := s.pm.zero;
      assert s == o.(pm := Checked(none), depth := o.depth + 1, live := false, quiet := o.quiet || none);
      Do(PreThaw, old(s));
    }

    /** blk_pre_runtime_suspend succeeds iff nobody holds a reference. */
    method PreRuntimeSuspend() returns (ok: bool)
      requires Inv(s) && s.pm == Idle && s.status == Active
      modifies this
      ensures Since(old(s)) && Inv(s)
      ensures ok <==> old(s).got == {} && old(s).inside == {}
      ensures s == if ok then old(s).(pmOnly := old(s).pmOnly + 1, status := Suspending, quiet := true) else old(s)
    {
      ok := LookForUsers();
      Do(PreDecide, old(s));
      if !ok {
        Do(FinishClear, old(s));
      }
      RunKeepsInv(old(s), run);
    }

    /** blk_post_runtime_suspend */
    method PostRuntimeSuspend(err: bool)
      requires Inv(s) && s.pm == Idle && s.status == Suspending
      modifies this
      ensures Since(old(s)) && Inv(s)
      ensures s == if err then Released(old(s)) else old(s).(status := Suspended)
    {
      run := [];
      Do(PostSuspend(err), old(s));
      if err {
        Do(FinishClear, old(s));
      }
      RunKeepsInv(old(s), run);
    }

    /** blk_pre_runtime_resume */
    method PreRuntimeResume()
      requires Inv(s) && s.pm == Idle && s.status == Suspended
      modifies this
      ensures Since(old(s)) && Inv(s) && s == old(s).(status := Resuming)
    {
      run := [];
      Do(PreResume, old(s));
      RunKeepsInv(old(s), run);
    }

    /** blk_post_runtime_resume */
    method PostRuntimeResume(err: bool)
      requires Inv(s) && s.pm == Idle && s.status == Resuming
      modifies this
      ensures Since(old(s)) && Inv(s)
      ensures s == if err then old(s).(status := Suspended) else Released(old(s))
    {
      run := [];
      Do(PostResume(err), old(s));
      if !err {
        Do(FinishClear, old(s));
      }
      RunKeepsInv(old(s), run);
    }

    /** blk_set_runtime_active */
    method SetActive()
      requires Inv(s) && s.pm == Idle
      modifies this
      ensures Since(old(s)) && Inv(s)
      ensures s == if old(s).status == Active then old(s) else Released(old(s))
    {
      run := [];
      Do(SetRuntimeActive, old(s));
      if s.pm == ClearPending {
        Do(FinishClear, old(s));
      }
      RunKeepsInv(old(s), run);
    }

    /** A whole suspend and resume: if nobody was using the queue, everything is as before. */
    method SuspendAndResume() returns (ok: bool)
      requires Inv(s) && s.pm == Idle && s.status == Active
      modifies this
      ensures Inv(s) && s.(quiet := false) == old(s).(quiet := false)
      ensures ok <==> old(s).usage == 0
    {
      ok := PreRuntimeSuspend();
      if ok {
        PostRuntimeSuspend(false);
        PreRuntimeResume();
        PostRuntimeResume(false);
      }
    }
  }

  /** The device is active, and runtime PM no longer restricts the queue. */
  function Released(s: State): State {
    s.(status := Active, pmOnly := s.pmOnly - 1, quiet := s.quiet && s.pmOnly > 1)
  }
}
