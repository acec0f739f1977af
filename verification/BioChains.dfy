/** Chained bios (block/bio.c): bio_chain, bio_remaining_done, __bio_chain_endio and bio_endio, as a state
    machine in which any number of bio_endio calls run at the same time, one access to a bio per step.

    A call of bio_endio is a notice on its way.  The one of the owner of a bio is delivered at that bio; when
    the last notice has been delivered the bio ends, and its own notice goes on to its parent: it reads the
    status of the parent, perhaps writes it, and is delivered there.  So what the calls are doing is written
    down with the bios: `own` is where the notice of the owner is, `up` where the notice to the parent is.

    Bios are numbered so that a parent has a smaller number than the bios chained to it; since chaining
    never makes a cycle, every forest of bios can be numbered that way. */
module BioChains {
  import opened Lists

  type Id = nat

  /** Idle: not yet on its way.  Look: about to read the status of the parent.  Write: about to write it.
      Test: about to test BIO_CHAIN.  Drop: about to check and drop the count.  Gone: delivered. */
  datatype Stage = Idle | Look | Write | Test | Drop | Gone

  /** `chained` is BIO_CHAIN, `error` whether bi_status is set.  History: `failed` says whether the owner
      reported an error, `ends` how often the bio has ended, and `lost` that an OK status was written over an
      error and no error has been written since. */
  datatype Bio = Bio(parent: Option<Id>, remaining: int, chained: bool, error: bool, own: Stage, up: Stage,
                     failed: bool, ends: nat, lost: bool)
  {
    predicate Ended() {
      ends > 0
    }

    /** Its notice is past the status of the parent. */
    predicate Passed() {
      up.Test? || up.Drop? || up.Gone?
    }
  }

  type Forest = map<Id, Bio>

  /** bio_init */
  const FRESH := Bio(None, 1, false, false, Idle, Idle, false, 0, false)

  /** bio_chain: c is chained to p. */
  function Chain(s: Forest, c: Id, p: Id): Forest
    requires c in s && p in s && c != p
  {
    s[c := s[c].(parent := Some(p))][p := s[p].(chained := true, remaining := s[p].remaining + 1)]
  }

  /** The owner reports the outcome and calls bio_endio. */
  function Reported(b: Bio, failed: bool): Bio {
    b.(own := Test, failed := failed, error := b.error || failed, lost := b.lost && !failed)
  }

  /** The bio ends: its notice sets out for the parent, or bi_end_io runs. */
  function Finish(b: Bio): Bio {
    b.(ends := b.ends + 1, up := if b.parent.Some? then Look else Gone)
  }

  /** bio_remaining_done, one access: the test of the flag, or the drop of the count.  Gives the bio, and
      where the notice is afterwards. */
  function Receive(b: Bio, at: Stage): (Bio, Stage) {
    if at.Test? then (if b.chained then (b, Drop) else (Finish(b), Gone))
    else if b.remaining - 1 == 0 then (Finish(b.(remaining := 0, chained := false)), Gone)
    else (b.(remaining := b.remaining - 1), Gone)
  }

  /** A plain write of the status. */
  function SetStatus(b: Bio, error: bool): Bio {
    b.(error := error, lost := !error && (b.error || b.lost))
  }

  /** Parents come first. */
  predicate Rooted(s: Forest) {
    forall b :: b in s && s[b].parent.Some? ==> s[b].parent.value in s && s[b].parent.value < b
  }

  /** The next access of the owner's call, at b itself. */
  function OwnStep(s: Forest, b: Id): Forest
    requires b in s
  {
    var (x, at) := Receive(s[b], s[b].own);
    s[b := x.(own := at)]
  }

  /** The next access of the call that goes on from c to its parent: __bio_chain_endio and the next round. */
  function UpStep(s: Forest, c: Id): Forest
    requires c in s && s[c].parent.Some? && s[c].parent.value in s
  {
    var p := s[c].parent.value;
    match s[c].up
    case Look => s[c := s[c].(up := if s[p].error then Test else Write)]
    case Write => s[p := SetStatus(s[p], s[c].error)][c := s[c].(up := Test)]
    case _ =>
      var (x, at) := Receive(s[p], s[c].up);
      s[p := x][c := s[c].(up := at)]
  }

  // ---------------------------------------------------------------------------------------------
  // Runs
  // ---------------------------------------------------------------------------------------------

  datatype Op =
    | New(id: Id)
    | ChainTo(c: Id, p: Id)
    | Report(b: Id, failed: bool)
    | Own(b: Id)
    | Up(c: Id)

  predicate Moving(at: Stage) {
    !at.Idle? && !at.Gone?
  }

  /** A bio is chained before it is completed, to one whose owner still has it; each is completed once; and
      every call of bio_endio takes its next step at any time. */
  predicate Enabled(s: Forest, op: Op) {
    match op
    case New(id) => id !in s
    case ChainTo(c, p) => c in s && p in s && p < c && s[c].parent == None && s[c].own.Idle? && s[p].own.Idle?
    case Report(b, _) => b in s && s[b].own.Idle?
    case Own(b) => b in s && Moving(s[b].own)
    case Up(c) => c in s && Moving(s[c].up)
  }

  function Apply(s: Forest, op: Op): Forest
    requires Enabled(s, op)
  {
    match op
    case New(id) => s[id := FRESH]
    case ChainTo(c, p) => Chain(s, c, p)
    case Report(b, failed) => s[b := Reported(s[b], failed)]
    case Own(b) => OwnStep(s, b)
    case Up(c) => if s[c].parent.Some? && s[c].parent.value in s then UpStep(s, c) else s
  }

  predicate Legal(s: Forest, run: seq<Op>)
    decreases |run|
  {
    run == [] || (Enabled(s, run[0]) && Legal(Apply(s, run[0]), run[1..]))
  }

  function Exec(s: Forest, run: seq<Op>): Forest
    requires Legal(s, run)
    decreases |run|
  {
    if run == [] then s else Exec(Apply(s, run[0]), run[1..])
  }

  // ---------------------------------------------------------------------------------------------
  // The invariant
  // ---------------------------------------------------------------------------------------------

  /** The bios chained to p whose notice has not been delivered. */
  function Pending(s: Forest, p: Id): set<Id> {
    set c | c in s && s[c].parent == Some(p) && !s[c].up.Gone?
  }

  function Owed(b: Bio): int {
    if b.own.Gone? then 0 else 1
  }

  /** What a bio looks like that waits for `left` notices: it counts them, and it has ended iff there is none,
      and then its own notice is on its way. */
  predicate CountIs(b: Bio, left: int) {
    && b.ends <= 1
    && (b.Ended() ==> left == 0 && !b.up.Idle? && !b.chained)
    && (!b.Ended() ==> b.up.Idle? && b.remaining == left > 0)
    && (!b.Ended() && !b.chained ==> left == 1)
  }

  /** The notices b still waits for. */
  function Left(s: Forest, b: Id): int
    requires b in s
  {
    Owed(s[b]) + |Pending(s, b)|
  }

  predicate CountOk(s: Forest, b: Id)
    requires b in s
  {
    CountIs(s[b], Left(s, b))
  }

  predicate StagesOk(b: Bio) {
    && !b.own.Look? && !b.own.Write?
    && (b.parent.None? ==> b.up.Idle? || b.up.Gone?)
    && (b.failed ==> !b.own.Idle?)
  }

  /** There is a reason for an error status: the owner reported one, or a chained bio that ended with one is
      past the status. */
  ghost predicate Cause(s: Forest, b: Id)
    requires b in s
  {
    s[b].failed || exists c :: c in s && s[c].parent == Some(b) && s[c].Passed() && s[c].error
  }

  /** The status is an error iff there is a reason and it was not lost. */
  ghost predicate StatusOk(s: Forest, b: Id)
    requires b in s
  {
    (s[b].error <==> Cause(s, b) && !s[b].lost) && (s[b].lost ==> Cause(s, b))
  }

  predicate Counted(s: Forest) {
    Rooted(s) && forall b :: b in s ==> CountOk(s, b) && StagesOk(s[b])
  }

  ghost predicate Told(s: Forest) {
    forall b :: b in s ==> StatusOk(s, b)
  }

  ghost predicate Inv(s: Forest) {
    Counted(s) && Told(s)
  }

  // ---------------------------------------------------------------------------------------------
  // One bio changes, or one bio and its parent
  // ---------------------------------------------------------------------------------------------

  /** For the others it makes no difference. */
  predicate Alike(x: Bio, y: Bio) {
    x.parent == y.parent && (x.up.Gone? <==> y.up.Gone?)
  }

  lemma PendingSame(s: Forest, r: Forest, x: Id)
    requires r.Keys == s.Keys && forall y :: y in s && s[y].parent == Some(x) ==> Alike(s[y], r[y])
    requires forall y :: y in s ==> r[y].parent == s[y].parent
    ensures Pending(r, x) == Pending(s, x)
  {
  }

  /** As a reason for its parent the bio counts as before. */
  predicate SameReason(x: Bio, y: Bio) {
    x.parent == y.parent && (x.parent.Some? ==> (x.Passed() && x.error <==> y.Passed() && y.error))
  }

  lemma CauseSame(s: Forest, r: Forest, x: Id)
    requires x in s && r.Keys == s.Keys && r[x].failed == s[x].failed
    requires forall y :: y in s ==> r[y].parent == s[y].parent
    requires forall y :: y in s && s[y].parent == Some(x) ==> SameReason(s[y], r[y])
    ensures Cause(r, x) <==> Cause(s, x)
  {
    if c :| c in s && s[c].parent == Some(x) && s[c].Passed() && s[c].error {
      assert SameReason(s[c], r[c]);
    }
    if c :| c in r && r[c].parent == Some(x) && r[c].Passed() && r[c].error {
      assert SameReason(s[c], r[c]);
    }
  }

  /** A step that gives no bio a new reason or status. */
  lemma StatusStays(s: Forest, r: Forest)
    requires Told(s) && r.Keys == s.Keys && forall y :: y in s ==> SameReason(s[y], r[y])
    requires forall y :: y in s ==> r[y].failed == s[y].failed && r[y].error == s[y].error && r[y].lost == s[y].lost
    ensures Told(r)
  {
    forall b | b in r ensures StatusOk(r, b) {
      assert StatusOk(s, b);
      CauseSame(s, r, b);
    }
  }

  // New

  lemma NewCounts(s: Forest, id: Id, b: Id)
    requires id !in s && (b in s ==> CountOk(s, b) && StagesOk(s[b])) && Rooted(s) && (b in s || b == id)
    ensures CountOk(s[id := FRESH], b) && StagesOk(s[id := FRESH][b])
  {
    assert Pending(s[id := FRESH], b) == if b == id then {} else Pending(s, b);
  }

  lemma NewStatus(s: Forest, id: Id, b: Id)
    requires id !in s && (b in s ==> StatusOk(s, b)) && Rooted(s) && (b in s || b == id)
    ensures StatusOk(s[id := FRESH], b)
  {
    var r := s[id := FRESH];
    if b in s && Cause(s, b) && !s[b].failed {
      var c :| c in s && s[c].parent == Some(b) && s[c].Passed() && s[c].error;
      assert r[c] == s[c];
    }
  }

  lemma NewKeepsInv(s: Forest, id: Id)
    requires Inv(s) && id !in s
    ensures Inv(s[id := FRESH])
  {
    var r := s[id := FRESH];
    forall b | b in r ensures CountOk(r, b) && StagesOk(r[b]) {
      NewCounts(s, id, b);
    }
    forall b | b in r ensures StatusOk(r, b) {
      NewStatus(s, id, b);
    }
  }

  // ChainTo

  lemma ChainPending(s: Forest, c: Id, p: Id, x: Id)
    requires c in s && p in s && p < c && s[c].parent == None && s[c].up.Idle?
    ensures Pending(Chain(s, c, p), x) == if x == p then Pending(s, p) + {c} else Pending(s, x)
    ensures c !in Pending(s, p)
  {
  }

  lemma ChainCounts(s: Forest, c: Id, p: Id, b: Id)
    requires c in s && p in s && p < c && s[c].parent == None && s[c].own.Idle? && s[p].own.Idle? && s[c].up.Idle?
    requires b in s && CountOk(s, b) && StagesOk(s[b])
    ensures CountOk(Chain(s, c, p), b) && StagesOk(Chain(s, c, p)[b])
  {
    ChainPending(s, c, p, b);
  }

  lemma ChainStatus(s: Forest, c: Id, p: Id, x: Id)
    requires c in s && p in s && p < c && s[c].parent == None && s[c].up.Idle? && x in s && StatusOk(s, x)
    ensures StatusOk(Chain(s, c, p), x)
  {
    var r := Chain(s, c, p);
    if y :| y in s && s[y].parent == Some(x) && s[y].Passed() && s[y].error {
      assert r[y].parent == Some(x) && r[y].Passed() && r[y].error;
    }
    if y :| y in r && r[y].parent == Some(x) && r[y].Passed() && r[y].error {
      assert y != c && s[y].parent == Some(x) && s[y].Passed() && s[y].error;
    }
  }

  lemma ChainKeepsInv(s: Forest, c: Id, p: Id)
    requires Inv(s) && Enabled(s, ChainTo(c, p))
    ensures Inv(Chain(s, c, p))
  {
    var r := Chain(s, c, p);
    assert CountOk(s, c);
    forall b | b in r ensures CountOk(r, b) && StagesOk(r[b]) {
      ChainCounts(s, c, p, b);
    }
    forall b | b in r ensures StatusOk(r, b) {
      ChainStatus(s, c, p, b);
    }
  }

  // Report

  lemma ReportCounts(s: Forest, b: Id, failed: bool, x: Id)
    requires b in s && x in s && s[b].own.Idle? && CountOk(s, x) && StagesOk(s[x])
    ensures
      var r := s[b := Reported(s[b], failed)];
      CountOk(r, x) && StagesOk(r[x])
  {
    PendingSame(s, s[b := Reported(s[b], failed)], x);
  }

  lemma ReportStatus(s: Forest, b: Id, failed: bool, x: Id)
    requires b in s && x in s && s[b].up.Idle? && !s[b].failed && StatusOk(s, x)
    ensures StatusOk(s[b := Reported(s[b], failed)], x)
  {
    if x != b || !failed {
      CauseSame(s, s[b := Reported(s[b], failed)], x);
    }
  }

  lemma ReportKeepsInv(s: Forest, b: Id, failed: bool)
    requires Inv(s) && b in s && s[b].own.Idle?
    ensures Inv(s[b := Reported(s[b], failed)])
  {
    var r := s[b := Reported(s[b], failed)];
    assert CountOk(s, b) && StagesOk(s[b]);
    forall x | x in r ensures CountOk(r, x) && StagesOk(r[x]) {
      ReportCounts(s, b, failed, x);
    }
    forall x | x in r ensures StatusOk(r, x) {
      ReportStatus(s, b, failed, x);
    }
  }

  // ---------------------------------------------------------------------------------------------
  // A notice is delivered
  // ---------------------------------------------------------------------------------------------

  /** What a delivery leaves alone, and what it does to the notice of the bio itself. */
  predicate Kept(b: Bio, x: Bio) {
    && x.parent == b.parent && x.own == b.own
    && x.failed == b.failed && x.error == b.error && x.lost == b.lost
    && (x.up == b.up || x.up == if b.parent.Some? then Look else Gone)
  }

  /** Testing the flag delivers the notice to a bio nothing is chained to, dropping the count in any case; the
      last notice ends the bio. */
  lemma ReceiveCounts(b: Bio, at: Stage, left: int)
    requires (at.Test? || at.Drop?) && !b.Ended() && CountIs(b, left)
    ensures
      var (x, next) := Receive(b, at);
      CountIs(x, if next.Gone? then left - 1 else left) && (next.Drop? || next.Gone?) && Kept(b, x)
  {
  }

  lemma OwnCounts(s: Forest, b: Id, x: Id)
    requires b in s && Moving(s[b].own) && CountOk(s, b) && StagesOk(s[b])
    requires x in s && CountOk(s, x) && StagesOk(s[x])
    ensures CountOk(OwnStep(s, b), x) && StagesOk(OwnStep(s, b)[x])
  {
    ReceiveCounts(s[b], s[b].own, Left(s, b));
    PendingSame(s, OwnStep(s, b), x);
  }

  lemma OwnStatus(s: Forest, b: Id, y: Id)
    requires b in s && Moving(s[b].own) && CountOk(s, b) && StagesOk(s[b]) && y in s
    ensures
      var r := OwnStep(s, b);
      && r.Keys == s.Keys && SameReason(s[y], r[y])
      && r[y].failed == s[y].failed && r[y].error == s[y].error && r[y].lost == s[y].lost
  {
    ReceiveCounts(s[b], s[b].own, Left(s, b));
  }

  lemma OwnKeepsInv(s: Forest, b: Id)
    requires Inv(s) && b in s && Moving(s[b].own)
    ensures Inv(OwnStep(s, b))
  {
    var r := OwnStep(s, b);
    assert CountOk(s, b) && StagesOk(s[b]);
    forall y | y in s ensures SameReason(s[y], r[y]) && r[y].failed == s[y].failed
                              && r[y].error == s[y].error && r[y].lost == s[y].lost
    {
      OwnStatus(s, b, y);
    }
    forall x | x in r ensures CountOk(r, x) && StagesOk(r[x]) {
      OwnCounts(s, b, x);
    }
    StatusStays(s, r);
  }

  // ---------------------------------------------------------------------------------------------
  // A notice goes up
  // ---------------------------------------------------------------------------------------------

  /** c has ended, and its notice is on its way to p, which waits for it. */
  predicate Climbing(s: Forest, c: Id, p: Id) {
    && c in s && p in s && p < c && s[c].parent == Some(p) && Moving(s[c].up)
    && s[c].Ended() && !s[p].Ended() && s[p].up.Idle?
  }

  lemma ClimbingIs(s: Forest, c: Id) returns (p: Id)
    requires Counted(s) && c in s && Moving(s[c].up)
    ensures s[c].parent == Some(p) && Climbing(s, c, p)
  {
    assert CountOk(s, c) && StagesOk(s[c]);
    p := s[c].parent.value;
    assert CountOk(s, p);
    assert c in Pending(s, p);
  }

  // Look

  lemma LookStatus(s: Forest, c: Id, p: Id, x: Id)
    requires Climbing(s, c, p) && s[c].up.Look? && x in s && StatusOk(s, x)
    ensures StatusOk(UpStep(s, c), x)
  {
    var r := UpStep(s, c);
    if x != p || !s[p].error {
      CauseSame(s, r, x);
    } else if !s[x].failed {
      var y :| y in s && s[y].parent == Some(x) && s[y].Passed() && s[y].error;
      assert r[y] == s[y];
    }
  }

  lemma LookCounts(s: Forest, c: Id, p: Id, x: Id)
    requires Climbing(s, c, p) && s[c].up.Look? && x in s && CountOk(s, x) && StagesOk(s[x])
    ensures CountOk(UpStep(s, c), x) && StagesOk(UpStep(s, c)[x])
  {
    PendingSame(s, UpStep(s, c), x);
  }

  lemma LookKeepsInv(s: Forest, c: Id, p: Id)
    requires Inv(s) && Climbing(s, c, p) && s[c].up.Look?
    ensures Inv(UpStep(s, c))
  {
    var r := UpStep(s, c);
    forall x | x in r ensures CountOk(r, x) && StagesOk(r[x]) {
      LookCounts(s, c, p, x);
    }
    forall x | x in r ensures StatusOk(r, x) {
      LookStatus(s, c, p, x);
    }
  }

  // Write

  lemma WriteCounts(s: Forest, c: Id, p: Id, x: Id)
    requires Climbing(s, c, p) && s[c].up.Write? && x in s && CountOk(s, x) && StagesOk(s[x])
    ensures CountOk(UpStep(s, c), x) && StagesOk(UpStep(s, c)[x])
  {
    PendingSame(s, UpStep(s, c), x);
  }

  lemma WriteStatus(s: Forest, c: Id, p: Id, x: Id)
    requires Climbing(s, c, p) && s[c].up.Write? && x in s && StatusOk(s, x)
    ensures StatusOk(UpStep(s, c), x)
  {
    var r := UpStep(s, c);
    if x == p && s[c].error {
      assert r[c].parent == Some(p) && r[c].Passed() && r[c].error;
    } else {
      CauseSame(s, r, x);
    }
  }

  lemma WriteKeepsInv(s: Forest, c: Id, p: Id)
    requires Inv(s) && Climbing(s, c, p) && s[c].up.Write?
    ensures Inv(UpStep(s, c))
  {
    var r := UpStep(s, c);
    forall x | x in r ensures CountOk(r, x) && StagesOk(r[x]) {
      WriteCounts(s, c, p, x);
    }
    forall x | x in r ensures StatusOk(r, x) {
      WriteStatus(s, c, p, x);
    }
  }

  // Test and Drop

  lemma UpPending(s: Forest, c: Id, p: Id, x: Id)
    requires Climbing(s, c, p) && (s[c].up.Test? || s[c].up.Drop?) && CountOk(s, p)
    ensures
      var r := UpStep(s, c);
      Pending(r, x) == if x == p && r[c].up.Gone? then Pending(s, x) - {c} else Pending(s, x)
    ensures c in Pending(s, p)
  {
    ReceiveCounts(s[p], s[c].up, Left(s, p));
  }

  lemma UpCounts(s: Forest, c: Id, p: Id, x: Id)
    requires Climbing(s, c, p) && (s[c].up.Test? || s[c].up.Drop?) && CountOk(s, p) && StagesOk(s[p])
    requires x in s && CountOk(s, x) && StagesOk(s[x])
    ensures CountOk(UpStep(s, c), x) && StagesOk(UpStep(s, c)[x])
  {
    ReceiveCounts(s[p], s[c].up, Left(s, p));
    UpPending(s, c, p, x);
  }

  lemma DeliveryStatus(s: Forest, c: Id, p: Id, y: Id)
    requires Climbing(s, c, p) && (s[c].up.Test? || s[c].up.Drop?) && CountOk(s, p) && y in s
    ensures
      var r := UpStep(s, c);
      && r.Keys == s.Keys && SameReason(s[y], r[y])
      && r[y].failed == s[y].failed && r[y].error == s[y].error && r[y].lost == s[y].lost
  {
    ReceiveCounts(s[p], s[c].up, Left(s, p));
  }

  lemma DeliveryKeepsInv(s: Forest, c: Id, p: Id)
    requires Inv(s) && Climbing(s, c, p) && (s[c].up.Test? || s[c].up.Drop?)
    ensures Inv(UpStep(s, c))
  {
    var r := UpStep(s, c);
    assert CountOk(s, p) && StagesOk(s[p]);
    forall y | y in s ensures SameReason(s[y], r[y]) && r[y].failed == s[y].failed
                              && r[y].error == s[y].error && r[y].lost == s[y].lost
    {
      DeliveryStatus(s, c, p, y);
    }
    forall x | x in r ensures CountOk(r, x) && StagesOk(r[x]) {
      UpCounts(s, c, p, x);
    }
    StatusStays(s, r);
  }

  lemma StepKeepsInv(s: Forest, op: Op)
    requires Inv(s) && Enabled(s, op)
    ensures Inv(Apply(s, op))
  {
    match op
    case New(id) => NewKeepsInv(s, id);
    case ChainTo(c, p) => ChainKeepsInv(s, c, p);
    case Report(b, failed) => ReportKeepsInv(s, b, failed);
    case Own(b) => OwnKeepsInv(s, b);
    case Up(c) =>
      var p := ClimbingIs(s, c);
      if s[c].up.Look? {
        LookKeepsInv(s, c, p);
      } else if s[c].up.Write? {
        WriteKeepsInv(s, c, p);
      } else {
        DeliveryKeepsInv(s, c, p);
      }
  }

  lemma {:induction false} RunKeepsInv(s: Forest, run: seq<Op>)
    requires Inv(s) && Legal(s, run)
    ensures Inv(Exec(s, run))
    decreases |run|
  {
    if run != [] {
      StepKeepsInv(s, run[0]);
      RunKeepsInv(Apply(s, run[0]), run[1..]);
    }
  }
}
