/** badblocks_set (block/badblocks.c:163) and acknowledgements: which sectors count as acknowledged afterwards. */
module BadBlocksAck {
  import opened Arith
  import opened BadBlocks
  import opened BadBlocksSet

  // ---------------------------------------------------------------------------------------------
  // Nothing is acknowledged that was not
  // ---------------------------------------------------------------------------------------------

  /** Sector x may be acknowledged: it was, or it belongs to a new range that is. */
  ghost predicate Allowed(t: seq<Entry>, s: nat, n: nat, ack: bool, x: int) {
    Holds(t, x, true) || (ack && s <= x < s + n)
  }

  ghost predicate EntryOk(t: seq<Entry>, s: nat, n: nat, ack: bool, e: Entry) {
    e.ack ==> forall x :: Covers(e, x) ==> Allowed(t, s, n, ack, x)
  }

  ghost predicate AllOk(t: seq<Entry>, s: nat, n: nat, ack: bool, r: seq<Entry>) {
    forall i :: 0 <= i < |r| ==> EntryOk(t, s, n, ack, r[i])
  }

  /** ... and so may what is left to be recorded. */
  ghost predicate WorkOk(t: seq<Entry>, s: nat, n: nat, ack: bool, w: Work) {
    && AllOk(t, s, n, ack, w.p) && AllOk(t, s, n, ack, w.c)
    && (ack ==> forall x :: w.s <= x < w.s + w.n ==> Allowed(t, s, n, ack, x))
  }

  lemma AllOkLast(t: seq<Entry>, s: nat, n: nat, ack: bool, p: seq<Entry>, e: Entry)
    requires AllOk(t, s, n, ack, p) && p != [] && EntryOk(t, s, n, ack, e)
    ensures AllOk(t, s, n, ack, SetLast(p, e))
  {
  }

  lemma StartIsOk(t: seq<Entry>, s: nat, n: nat, ack: bool)
    requires Good(t)
    ensures WorkOk(t, s, n, ack, Start(t, s, n))
  {
    forall i | 0 <= i < |t| ensures EntryOk(t, s, n, ack, t[i]) {
    }
  }

  lemma LowIsOk(t: seq<Entry>, s: nat, n: nat, ack: bool, w: Work)
    requires WorkOk(t, s, n, ack, w) && w.s == s && w.n == n && Good(w.p) && (w.p != [] ==> Last(w.p).start <= s)
    ensures WorkOk(t, s, n, ack, MergeLow(w, ack))
  {
    var v := MergeLow(w, ack);
    if w.p != [] && Last(w.p).End() >= w.s {
      var lo := Last(w.p);
      assert LenOk(lo) && EntryOk(t, s, n, ack, lo);
      assert EntryOk(t, s, n, ack, Last(v.p));
      if v.p != w.p {
        AllOkLast(t, s, n, ack, w.p, Last(v.p));
      }
    }
  }

  /** The range ahead is not acknowledged, reaches beyond the new one, and does not fit into one entry with it. */
  predicate SpillsOver(w: Work) {
    && w.n > 0 && w.c != [] && !w.c[0].ack
    && w.c[0].start <= w.s + w.n < w.c[0].End() && w.c[0].End() - w.s > MAX_LEN
  }

  lemma HighIsOk(t: seq<Entry>, s: nat, n: nat, ack: bool, w: Work)
    requires WorkOk(t, s, n, ack, w) && !(ack && SpillsOver(w))
    ensures WorkOk(t, s, n, ack, MergeHigh(w, ack))
  {
    var v := MergeHigh(w, ack);
    if w.n > 0 && w.c != [] && w.c[0].start <= w.s + w.n {
      var hi := w.c[0];
      assert EntryOk(t, s, n, ack, hi);
      assert EntryOk(t, s, n, ack, Last(v.p));
    }
  }

  lemma CombineIsOk(t: seq<Entry>, s: nat, n: nat, ack: bool, w: Work)
    requires WorkOk(t, s, n, ack, w) && (w.n == 0 && w.p != [] ==> Last(w.p).End() == w.s)
    ensures WorkOk(t, s, n, ack, Combine(w))
  {
    var v := Combine(w);
    if w.n == 0 && w.c != [] && w.p != [] && v.c != w.c {
      assert EntryOk(t, s, n, ack, Last(w.p)) && EntryOk(t, s, n, ack, w.c[0]);
      assert EntryOk(t, s, n, ack, Last(v.p));
      AllOkLast(t, s, n, ack, w.p, Last(v.p));
    }
  }

  lemma {:induction false} InsertIsOk(t: seq<Entry>, s: nat, n: nat, ack: bool, w: Work)
    requires WorkOk(t, s, n, ack, w)
    ensures AllOk(t, s, n, ack, InsertRest(w, ack).0)
    decreases w.n
  {
    if w.n > 0 && |w.p| + |w.c| < MAX_BADBLOCKS {
      assert EntryOk(t, s, n, ack, Entry(w.s, Min(w.n, MAX_LEN), ack));
      InsertIsOk(t, s, n, ack, Pushed(w, ack));
    }
  }

  lemma HighEnds(w: Work, ack: bool)
    requires Neat(w)
    ensures
      var v := MergeHigh(w, ack);
      v.n == 0 && v.p != [] ==> Last(v.p).End() == v.s
  {
  }

  /** ... in terms of the table before the call. */
  predicate Spills(t: seq<Entry>, s: nat, n: nat) {
    var h := Rank(t, s + 1);
    && !Fits(t, s, n) && h < |t| && !t[h].ack
    && t[h].start <= s + n < t[h].End() && t[h].End() - Base(t, s, n) > MAX_LEN
  }

  lemma SpillsIs(t: seq<Entry>, s: nat, n: nat, ack: bool)
    requires Good(t) && 1 <= n
    ensures SpillsOver(MergeLow(Start(t, s, n), ack)) <==> Spills(t, s, n)
  {
    LowCases(t, s, n, ack);
  }

  /** No sector is acknowledged afterwards that was not before and is not in an acknowledged new range. */
  ghost predicate NoneTooMany(t: seq<Entry>, s: nat, n: nat, ack: bool, r: seq<Entry>) {
    forall x :: Holds(r, x, true) ==> Allowed(t, s, n, ack, x)
  }

  lemma NoneWithoutSpill(t: seq<Entry>, s: nat, n: nat, ack: bool)
    requires Good(t) && 1 <= n && !(ack && Spills(t, s, n))
    ensures NoneTooMany(t, s, n, ack, SetRange(t, s, n, ack).0)
  {
    var w0 := Start(t, s, n);
    var w1 := MergeLow(w0, ack);
    var w2 := MergeHigh(w1, ack);
    StartOk(t, s, n);
    StartIsOk(t, s, n, ack);
    LowIsOk(t, s, n, ack, w0);
    MergeLowNeat(w0, ack);
    SpillsIs(t, s, n, ack);
    HighIsOk(t, s, n, ack, w1);
    HighEnds(w1, ack);
    CombineIsOk(t, s, n, ack, w2);
    InsertIsOk(t, s, n, ack, Combine(w2));
  }

  lemma OnlyOne(t: seq<Entry>, i: nat, j: nat, x: int)
    requires Good(t) && i < |t| && j < |t| && Covers(t[i], x) && Covers(t[j], x)
    ensures i == j
  {
    if i < j {
      Ordered(t, i, j);
    } else if j < i {
      Ordered(t, j, i);
    }
  }

  /** What spills over is recorded as acknowledged. */
  lemma SpillIsAcked(t: seq<Entry>, s: nat, n: nat)
    requires Good(t) && |t| < MAX_BADBLOCKS && 1 <= n && Spills(t, s, n)
    requires SetRight(t, s, n, SetRange(t, s, n, true))
    ensures !NoneTooMany(t, s, n, true, SetRange(t, s, n, true).0)
  {
    var h, w := Rank(t, s + 1), MergeLow(Start(t, s, n), true);
    var x := t[h].End() - 1;
    StartOk(t, s, n);
    MergeLowNeat(Start(t, s, n), true);
    LowCases(t, s, n, true);
    var v := MergeHigh(w, true);
    assert Combine(v) == v && v.n > 0 && v.s <= x < v.s + v.n;
    if v.n > MAX_LEN {
      TwoPiecesAreWrong(v, true);
    }
    var e := Entry(v.s, v.n, true);
    assert InsertRest(v, true) == (v.p + ([e] + v.c), true);
    assert (v.p + ([e] + v.c))[|v.p|] == e && Covers(e, x);
    assert Holds(SetRange(t, s, n, true).0, x, true) && x >= s + n;
    if Holds(t, x, true) {
      var i :| 0 <= i < |t| && Covers(t[i], x) && t[i].ack;
      OnlyOne(t, i, h, x);
    }
  }

  /** When the table is right otherwise, nothing is acknowledged that was not, iff nothing spills over. */
  lemma NoneTooManyIff(t: seq<Entry>, s: nat, n: nat, ack: bool)
    requires Good(t) && |t| < MAX_BADBLOCKS && 1 <= n && SetRight(t, s, n, SetRange(t, s, n, ack))
    ensures NoneTooMany(t, s, n, ack, SetRange(t, s, n, ack).0) <==> !(ack && Spills(t, s, n))
  {
    if ack && Spills(t, s, n) {
      SpillIsAcked(t, s, n);
    } else {
      NoneWithoutSpill(t, s, n, ack);
    }
  }

  /** For instance: sectors 50 to 109 are set and acknowledged, and sector 611, which was not, becomes acknowledged. */
  lemma SpillExample()
    ensures
      var t := [Entry(100, 512, false)];
      var (r, ok) := SetRange(t, 50, 60, true);
      Good(t) && SetRight(t, 50, 60, (r, ok)) && !Holds(t, 611, true) && Holds(r, 611, true)
  {
    var t := [Entry(100, 512, false)];
    assert Rank(t, 51) == 0;
    SetIsRightIff(t, 50, 60, true);
    var w0 := Start(t, 50, 60);
    assert w0.p == [] && w0.c == t;
    var w := MergeHigh(w0, true);
    assert w.p == [Entry(50, 512, false)] && w.c == [] && w.s == 562 && w.n == 50;
    var r := [Entry(50, 512, false), Entry(562, 50, true)];
    var v := Pushed(w, true);
    assert v.n == 0 && v.p + v.c == r;
    assert Covers(r[1], 611) && r[1].ack;
  }

  // ---------------------------------------------------------------------------------------------
  // What is set without acknowledgement is not acknowledged
  // ---------------------------------------------------------------------------------------------

  /** The range before is acknowledged, as long as a range can be, and overlaps the new one, which reaches beyond it. */
  predicate KeepsFlag(t: seq<Entry>, s: nat, n: nat) {
    var h := Rank(t, s + 1);
    h > 0 && t[h - 1].ack && t[h - 1].len == MAX_LEN && s < t[h - 1].End() < s + n
  }

  /** Entry e does not say of any sector of the new range that it is acknowledged. */
  predicate Leaves(e: Entry, s: nat, n: nat) {
    e.ack ==> e.End() <= s || s + n <= e.start
  }

  predicate AllLeave(r: seq<Entry>, s: nat, n: nat) {
    forall i :: 0 <= i < |r| ==> Leaves(r[i], s, n)
  }

  lemma LowLeaves(t: seq<Entry>, s: nat, n: nat)
    requires Good(t) && 1 <= n && !KeepsFlag(t, s, n)
    ensures AllLeave(MergeLow(Start(t, s, n), false).p, s, n)
  {
    var w, v := Start(t, s, n), MergeLow(Start(t, s, n), false);
    RankSplits(t, s + 1);
    forall i | 0 <= i < |v.p| ensures Leaves(v.p[i], s, n) {
      if i < |v.p| - 1 {
        Ordered(t, i, |w.p| - 1);
        assert v.p[i] == t[i];
      } else {
        assert Last(w.p) == t[|w.p| - 1] && LenOk(Last(w.p));
      }
    }
  }

  /** ... as are the ranges ahead, if none starts inside the new one. */
  lemma AheadLeaves(t: seq<Entry>, s: nat, n: nat)
    requires Good(t) && forall i :: 0 <= i < |t| ==> !(s < t[i].start < s + n)
    ensures AllLeave(Start(t, s, n).c, s, n)
  {
    RankSplits(t, s + 1);
  }

  lemma HighLeaves(w: Work, s: nat, n: nat)
    requires AllLeave(w.p, s, n)
    ensures AllLeave(MergeHigh(w, false).p, s, n)
    ensures AllLeave(w.c, s, n) ==> AllLeave(MergeHigh(w, false).c, s, n)
  {
  }

  /** Whatever was handled last is not acknowledged, so nothing it is combined with is. */
  lemma CombineLeaves(w: Work, s: nat, n: nat)
    requires AllLeave(w.p, s, n) && (w.n == 0 && w.p != [] ==> !Last(w.p).ack)
    ensures AllLeave(Combine(w).p, s, n)
    ensures AllLeave(w.c, s, n) ==> AllLeave(Combine(w).c, s, n)
  {
  }

  lemma {:induction false} InsertLeaves(w: Work, s: nat, n: nat)
    requires AllLeave(w.p, s, n) && AllLeave(w.c, s, n)
    ensures AllLeave(InsertRest(w, false).0, s, n)
    decreases w.n
  {
    if w.n > 0 && |w.p| + |w.c| < MAX_BADBLOCKS {
      InsertLeaves(Pushed(w, false), s, n);
    }
  }

  lemma HandledUnacked(t: seq<Entry>, s: nat, n: nat)
    requires Good(t) && 1 <= n
    ensures
      var w := MergeHigh(MergeLow(Start(t, s, n), false), false);
      w.n == 0 && w.p != [] ==> !Last(w.p).ack
  {
  }

  lemma KeptIsAcked(t: seq<Entry>, s: nat, n: nat)
    requires Good(t) && 1 <= n && KeepsFlag(t, s, n)
    ensures
      var w := MergeLow(Start(t, s, n), false);
      w.n > 0 && w.p != [] && Last(w.p) == t[Rank(t, s + 1) - 1]
  {
    var lo := t[Rank(t, s + 1) - 1];
    assert Last(Start(t, s, n).p) == lo;
  }

  lemma {:induction false} FrontStays(w: Work, ack: bool)
    ensures |w.p| <= |InsertRest(w, ack).0| && InsertRest(w, ack).0[..|w.p|] == w.p
    decreases w.n
  {
    if w.n > 0 && |w.p| + |w.c| < MAX_BADBLOCKS {
      FrontStays(Pushed(w, ack), ack);
    }
  }

  lemma LeavesNone(r: seq<Entry>, s: nat, n: nat)
    requires AllLeave(r, s, n)
    ensures forall x :: s <= x < s + n ==> !Holds(r, x, true)
  {
  }

  lemma FlagIsKept(t: seq<Entry>, s: nat, n: nat)
    requires Good(t) && 1 <= n && KeepsFlag(t, s, n)
    ensures Holds(SetRange(t, s, n, false).0, s, true)
  {
    var r := SetRange(t, s, n, false).0;
    var w := MergeLow(Start(t, s, n), false);
    var v := Combine(MergeHigh(w, false));
    KeptIsAcked(t, s, n);
    KeptStays(w);
    FrontStays(v, false);
    RankSplits(t, s + 1);
    var k := |w.p| - 1;
    assert r[k] == r[..|v.p|][k] == v.p[k] == Last(w.p);
    assert Covers(r[k], s) && r[k].ack;
  }

  /** What the call makes of the ranges up to the new one and of the rest of the new one says nothing of it. */
  lemma HandledLeaves(t: seq<Entry>, s: nat, n: nat)
    requires Good(t) && 1 <= n && !KeepsFlag(t, s, n)
    ensures AllLeave(Combine(MergeHigh(MergeLow(Start(t, s, n), false), false)).p, s, n)
  {
    var w := MergeLow(Start(t, s, n), false);
    LowLeaves(t, s, n);
    HighLeaves(w, s, n);
    HandledUnacked(t, s, n);
    CombineLeaves(MergeHigh(w, false), s, n);
  }

  /** Of a range set without acknowledgement no sector is acknowledged afterwards, iff the range before does not keep
      its flag; if no range starts strictly inside the new one. */
  lemma UnackedIff(t: seq<Entry>, s: nat, n: nat)
    requires Good(t) && 1 <= n && forall i :: 0 <= i < |t| ==> !(s < t[i].start < s + n)
    ensures (forall x :: s <= x < s + n ==> !Holds(SetRange(t, s, n, false).0, x, true)) <==> !KeepsFlag(t, s, n)
  {
    var w1 := MergeLow(Start(t, s, n), false);
    var w2 := MergeHigh(w1, false);
    if KeepsFlag(t, s, n) {
      FlagIsKept(t, s, n);
    } else {
      LowLeaves(t, s, n);
      AheadLeaves(t, s, n);
      HighLeaves(w1, s, n);
      HandledUnacked(t, s, n);
      CombineLeaves(w2, s, n);
      InsertLeaves(Combine(w2), s, n);
      LeavesNone(SetRange(t, s, n, false).0, s, n);
    }
  }

  /** An acknowledged range behind the neighbour starts inside the new range. */
  predicate AckedBehind(t: seq<Entry>, s: nat, n: nat) {
    exists i :: Neighbour(t, s, n) < i < |t| && t[i].ack && t[i].start < s + n
  }

  lemma CombineAhead(v: Work, t: seq<Entry>, j: nat, end: nat)
    requires Neat(v) && Good(t) && j <= |t| && v.c == t[j..]
    requires v.n == 0 ==> v.s >= end
    requires v.n != 0 && j < |t| ==> end <= t[j].start
    requires v.n == 0 && j < |t| && t[j].start < end ==> t[j].End() - Last(v.p).start < MAX_LEN
    ensures
      var c := Combine(v).c;
      (c == t[j..] && (j < |t| ==> end <= t[j].start)) || (j < |t| && c == t[j + 1..])
  {
    if j < |t| {
      assert v.c[0] == t[j] && v.c[1..] == t[j + 1..];
    }
  }

  lemma LowAhead(t: seq<Entry>, s: nat, n: nat, w: Work) returns (k: nat)
    requires Good(t) && SetOk(t, s, n) && Fits(t, s, n)
    requires w.c == t[Rank(t, s + 1)..] && Neat(w) && w.n == 0 && w.s >= s + n && Last(w.p).start == Base(t, s, n)
    ensures Rank(t, s + 1) <= k <= |t| && k <= Rank(t, s + 1) + 1
    ensures Combine(MergeHigh(w, false)).c == t[k..]
    ensures k <= Rank(t, s + 1) && k < |t| ==> s + n <= t[k].start
  {
    var h := Rank(t, s + 1);
    CombineAhead(w, t, h, s + n);
    k := if Combine(w).c == t[h..] && (h < |t| ==> s + n <= t[h].start) then h else h + 1;
  }

  lemma HighAhead(t: seq<Entry>, s: nat, n: nat, w: Work) returns (k: nat)
    requires Good(t) && 1 <= n && SetOkAny(t, s, n) && !Fits(t, s, n)
    requires w.c == t[Rank(t, s + 1)..] && Neat(w) && w.n > 0 && w.s == Base(t, s, n) && w.s + w.n == s + n
    requires w.c != [] && w.c[0].start <= s + n
    ensures Rank(t, s + 1) < k <= |t| && k <= Rank(t, s + 1) + 2
    ensures Combine(MergeHigh(w, false)).c == t[k..]
    ensures k <= Rank(t, s + 1) + 1 && k < |t| ==> s + n <= t[k].start
  {
    var h, v := Rank(t, s + 1), MergeHigh(w, false);
    assert v.c == t[h + 1..];
    assert LenOk(t[h]);
    if h + 1 < |t| {
      Ordered(t, h, h + 1);
    }
    if LittleLeft(t, s, n) {
      MergeHighTidy(w, false);
    } else {
      HighLong(w, false);
    }
    CombineAhead(v, t, h + 1, s + n);
    k := if Combine(v).c == t[h + 1..] && (h + 1 < |t| ==> s + n <= t[h + 1].start) then h + 1 else h + 2;
  }

  lemma AheadFrom(t: seq<Entry>, s: nat, n: nat, w: Work) returns (k: nat)
    requires Good(t) && 1 <= n && SetOkAny(t, s, n) && w.c == t[Rank(t, s + 1)..] && Neat(w)
    requires w.n == 0 <==> Fits(t, s, n)
    requires w.n == 0 ==> w.s >= s + n && Last(w.p).start == Base(t, s, n)
    requires w.n != 0 ==> w.s == Base(t, s, n) && w.s + w.n == s + n
    ensures Rank(t, s + 1) <= k <= |t| && k <= Neighbour(t, s, n) + 1
    ensures Combine(MergeHigh(w, false)).c == t[k..]
    ensures k <= Neighbour(t, s, n) && k < |t| ==> s + n <= t[k].start
  {
    if w.n == 0 {
      k := LowAhead(t, s, n, w);
    } else if w.c == [] || w.c[0].start > s + n {
      k := Rank(t, s + 1);
    } else {
      k := HighAhead(t, s, n, w);
    }
  }

  /** When the call is right it leaves alone the ranges behind the neighbour, and others only if they start later. */
  lemma StaysAhead(t: seq<Entry>, s: nat, n: nat) returns (k: nat)
    requires Good(t) && 1 <= n && SetOkAny(t, s, n)
    ensures Rank(t, s + 1) <= k <= |t| && k <= Neighbour(t, s, n) + 1
    ensures Combine(MergeHigh(MergeLow(Start(t, s, n), false), false)).c == t[k..]
    ensures k <= Neighbour(t, s, n) && k < |t| ==> s + n <= t[k].start
  {
    LowCases(t, s, n, false);
    k := AheadFrom(t, s, n, MergeLow(Start(t, s, n), false));
  }

  lemma LaterLeave(t: seq<Entry>, s: nat, n: nat, k: nat)
    requires Good(t) && k <= |t| && !AckedBehind(t, s, n)
    requires k <= Neighbour(t, s, n) && k < |t| ==> s + n <= t[k].start
    ensures AllLeave(t[k..], s, n)
  {
    forall i | k <= i < |t| ensures Leaves(t[i], s, n) {
      if k < i {
        Ordered(t, k, i);
        assert LenOk(t[k]);
      }
    }
  }

  /** The same when the call records the right sectors, whatever starts inside: iff the range before does not keep its
      flag and no acknowledged range behind the neighbour is in the new one. */
  lemma UnackedWhenRightIff(t: seq<Entry>, s: nat, n: nat)
    requires Good(t) && |t| < MAX_BADBLOCKS && 1 <= n && SetRight(t, s, n, SetRange(t, s, n, false))
    ensures (forall x :: s <= x < s + n ==> !Holds(SetRange(t, s, n, false).0, x, true))
        <==> !KeepsFlag(t, s, n) && !AckedBehind(t, s, n)
  {
    SetIsRightIff(t, s, n, false);
    var r := SetRange(t, s, n, false).0;
    var v := Combine(MergeHigh(MergeLow(Start(t, s, n), false), false));
    var k := StaysAhead(t, s, n);
    AheadStays(v, false);
    if KeepsFlag(t, s, n) {
      FlagIsKept(t, s, n);
    } else if AckedBehind(t, s, n) {
      var i :| Neighbour(t, s, n) < i < |t| && t[i].ack && t[i].start < s + n;
      BehindStays(t, s, n, k, i, r);
    } else {
      HandledLeaves(t, s, n);
      LaterLeave(t, s, n, k);
      InsertLeaves(v, s, n);
      LeavesNone(r, s, n);
    }
  }

  lemma BehindStays(t: seq<Entry>, s: nat, n: nat, k: nat, i: nat, r: seq<Entry>)
    requires Good(t) && Rank(t, s + 1) <= k <= i < |t| && t[i].ack && t[i].start < s + n
    requires |t[k..]| <= |r| && r[|r| - |t[k..]|..] == t[k..]
    ensures s <= t[i].start < s + n && Holds(r, t[i].start, true)
  {
    RankSplits(t, s + 1);
    var j := |r| - |t[k..]| + (i - k);
    assert r[j] == r[|r| - |t[k..]|..][i - k] == t[i];
    assert LenOk(t[i]) && Covers(r[j], t[i].start);
  }

  lemma KeptStays(w: Work)
    requires w.n > 0 && w.p != []
    ensures
      var v := Combine(MergeHigh(w, false));
      |v.p| >= |w.p| && v.p[|w.p| - 1] == Last(w.p)
  {
  }

  // ---------------------------------------------------------------------------------------------
  // What an acknowledged range covers becomes acknowledged
  // ---------------------------------------------------------------------------------------------

  /** Range i is acknowledged, or is one that the new range covers and is merged into. */
  predicate AckedOrCovered(t: seq<Entry>, s: nat, n: nat, i: nat)
    requires i < |t|
  {
    var h := Rank(t, s + 1);
    || t[i].ack
    || (i + 1 == h && t[i].start == s && t[i].End() <= s + n && t[i].len != MAX_LEN)
    || (i == h && t[i].End() <= s + n && !Fits(t, s, n))
  }

  /** If everything else is acknowledged, everything is afterwards. */
  lemma CoveredGetAcked(t: seq<Entry>, s: nat, n: nat)
    requires Good(t) && 1 <= n && forall i :: 0 <= i < |t| ==> AckedOrCovered(t, s, n, i)
    ensures AllAcked(SetRange(t, s, n, true).0)
  {
    var h, w := Rank(t, s + 1), MergeLow(Start(t, s, n), true);
    LowCases(t, s, n, true);
    LowGetsAcked(t, s, n);
    forall i | 0 <= i < |w.c| ensures w.c[i].ack || (i == 0 && w.n > 0 && w.c[0].End() <= w.s + w.n) {
      AheadGetsAcked(t, s, n, w, i);
    }
    HighGetsAcked(w);
    FinishAcked(MergeHigh(w, true));
  }

  lemma AheadGetsAcked(t: seq<Entry>, s: nat, n: nat, w: Work, i: nat)
    requires Rank(t, s + 1) + i < |t| && AckedOrCovered(t, s, n, Rank(t, s + 1) + i) && w.c == t[Rank(t, s + 1)..]
    requires (w.n == 0 <==> Fits(t, s, n)) && (w.n > 0 ==> w.s + w.n == s + n)
    ensures w.c[i].ack || (i == 0 && w.n > 0 && w.c[0].End() <= w.s + w.n)
  {
  }

  lemma HighGetsAcked(w: Work)
    requires AllAcked(w.p) && Good(w.c)
    requires forall i :: 0 <= i < |w.c| ==> w.c[i].ack || (i == 0 && w.n > 0 && w.c[0].End() <= w.s + w.n)
    ensures AllAcked(MergeHigh(w, true).p) && AllAcked(MergeHigh(w, true).c)
  {
    if w.c != [] {
      assert LenOk(w.c[0]);
    }
  }

  lemma LowGetsAcked(t: seq<Entry>, s: nat, n: nat)
    requires Good(t) && 1 <= n && forall i :: 0 <= i < |t| ==> AckedOrCovered(t, s, n, i)
    ensures AllAcked(MergeLow(Start(t, s, n), true).p)
  {
    var h, w, v := Rank(t, s + 1), Start(t, s, n), MergeLow(Start(t, s, n), true);
    forall i | 0 <= i < |v.p| ensures v.p[i].ack {
      assert AckedOrCovered(t, s, n, i) && w.p[i] == t[i];
      if i + 1 == h {
        assert Last(w.p) == t[i] && Last(v.p) == v.p[i];
      }
    }
  }
}
