/** badblocks_set (block/badblocks.c:163): the phases of the algorithm, and exactly when the table is right
    afterwards.  A table is worked on as `p + c`, cut at the index `hi` of the code; `lo` is the last
    entry of `p`. */
module BadBlocksSet {
  import opened Arith
  import opened BadBlocks

  /** How many ranges start before `limit`; in a sorted table they come first. */
  function Rank(t: seq<Entry>, limit: int): (r: nat)
    ensures r <= |t|
  {
    if t == [] || t[0].start >= limit then 0 else 1 + Rank(t[1..], limit)
  }

  lemma {:induction false} RankSplits(t: seq<Entry>, limit: int)
    requires Good(t)
    ensures forall i :: 0 <= i < Rank(t, limit) ==> t[i].start < limit
    ensures forall i :: Rank(t, limit) <= i < |t| ==> limit <= t[i].start
  {
    if t == [] {
    } else if t[0].start >= limit {
      forall i | 0 <= i < |t| ensures limit <= t[i].start {
        if i > 0 {
          Ordered(t, 0, i);
          assert LenOk(t[0]);
        }
      }
    } else {
      GoodSlice(t, 1, |t|);
      RankSplits(t[1..], limit);
      forall i | 0 <= i < |t| ensures i < Rank(t, limit) ==> t[i].start < limit
      ensures i >= Rank(t, limit) ==> limit <= t[i].start {
        if i > 0 {
          assert t[i] == t[1..][i - 1];
        }
      }
    }
  }

  /** The work in progress: the table is p + c, and [s, s + n) is still to be recorded. */
  datatype Work = Work(p: seq<Entry>, c: seq<Entry>, s: nat, n: nat)

  function Last(p: seq<Entry>): Entry
    requires p != []
  {
    p[|p| - 1]
  }

  function SetLast(p: seq<Entry>, e: Entry): seq<Entry>
    requires p != []
  {
    p[..|p| - 1] + [e]
  }

  /** Merging with the range before, which may overflow the maximal length. */
  function MergeLow(w: Work, ack: bool): Work {
    if w.p == [] || Last(w.p).End() < w.s then w
    else
      var lo := Last(w.p);
      var covered := w.s == lo.start && w.s + w.n >= lo.End();
      var e, flag := Max(lo.End(), w.s + w.n), if covered then ack else lo.ack && ack;
      if e - lo.start <= MAX_LEN then Work(SetLast(w.p, Entry(lo.start, e - lo.start, flag)), w.c, e, 0)
      else
        var s := lo.start + MAX_LEN;
        Work(if lo.len != MAX_LEN then SetLast(w.p, Entry(lo.start, MAX_LEN, flag)) else w.p, w.c, s, e - s)
  }

  /** Merging with the range after, if anything is left and that range starts early enough. */
  function MergeHigh(w: Work, ack: bool): Work
  {
    if w.n == 0 || w.c == [] || w.c[0].start > w.s + w.n then w
    else
      var hi := w.c[0];
      var full := hi.End() <= w.s + w.n;
      var e, flag := if full then w.s + w.n else hi.End(), if full then ack else hi.ack && ack;
      if e - w.s <= MAX_LEN then Work(w.p + [Entry(w.s, e - w.s, flag)], w.c[1..], e, 0)
      else Work(w.p + [Entry(w.s, MAX_LEN, flag)], w.c[1..], w.s + MAX_LEN, e - (w.s + MAX_LEN))
  }

  /** Combining the last range handled with the next one. */
  function Combine(w: Work): Work {
    if w.n != 0 || w.c == [] || w.p == [] then w
    else
      var lo, hi := Last(w.p), w.c[0];
      var newLen := lo.len + hi.len - (w.s - hi.start);
      if w.s >= hi.start && newLen < MAX_LEN
      then w.(p := SetLast(w.p, Entry(lo.start, newLen, lo.ack && hi.ack)), c := w.c[1..])
      else w
  }

  /** Inserting the rest before `hi`, in pieces of at most the maximal length; `hi` stays where it is. */
  function InsertRest(w: Work, ack: bool): (seq<Entry>, bool)
    decreases w.n
  {
    if w.n == 0 then (w.p + w.c, true)
    else if |w.p| + |w.c| >= MAX_BADBLOCKS then (w.p + w.c, false)
    else InsertRest(Pushed(w, ack), ack)
  }

  /** One piece of it. */
  function Pushed(w: Work, ack: bool): (v: Work)
    requires w.n > 0
    ensures v.n < w.n
  {
    var k := Min(w.n, MAX_LEN);
    Work(w.p, [Entry(w.s, k, ack)] + w.c, w.s + k, w.n - k)
  }

  /** The state before the first phase. */
  function Start(t: seq<Entry>, s: nat, n: nat): Work {
    Work(t[..Rank(t, s + 1)], t[Rank(t, s + 1)..], s, n)
  }

  /** All phases. */
  function SetFrom(w: Work, ack: bool): (seq<Entry>, bool) {
    InsertRest(Combine(MergeHigh(MergeLow(w, ack), ack)), ack)
  }

  /** badblocks_set: the table afterwards, and whether there was room for all of it. */
  function SetRange(t: seq<Entry>, s: nat, n: nat, ack: bool): (seq<Entry>, bool) {
    SetFrom(Start(t, s, n), ack)
  }

  /** All sectors of [a, b) are already recorded. */
  ghost predicate AllBad(t: seq<Entry>, a: int, b: int) {
    forall x :: a <= x < b ==> Bad(t, x)
  }

  /** The result is what it should be: all recorded, the table well formed, and exactly the old bad sectors
      and the new range in it. */
  ghost predicate SetRight(t: seq<Entry>, s: nat, n: nat, r: (seq<Entry>, bool)) {
    r.1 && Good(r.0) && forall x :: Bad(r.0, x) <==> Bad(t, x) || s <= x < s + n
  }

  /** Does the new range merge into the one before it? */
  predicate Touches(t: seq<Entry>, s: nat) {
    var h := Rank(t, s + 1);
    h > 0 && t[h - 1].End() >= s
  }

  /** ... and do the two fit into one range? */
  predicate Fits(t: seq<Entry>, s: nat, n: nat) {
    var h := Rank(t, s + 1);
    Touches(t, s) && Max(t[h - 1].End(), s + n) - t[h - 1].start <= MAX_LEN
  }

  /** Where the range that will end at s + n starts. */
  function Base(t: seq<Entry>, s: nat, n: nat): nat {
    var h := Rank(t, s + 1);
    if Fits(t, s, n) then t[h - 1].start else if Touches(t, s) then t[h - 1].start + MAX_LEN else s
  }

  /** The range after it, which the algorithm tries to combine with it. */
  function Neighbour(t: seq<Entry>, s: nat, n: nat): nat {
    if Fits(t, s, n) then Rank(t, s + 1) else Rank(t, s + 1) + 1
  }

  /** The condition a caller can check beforehand: if the neighbour starts before s + n, then the
      combination has to fit, and whatever of the new range lies beyond the neighbour has to be recorded
      already. */
  ghost predicate SetOk(t: seq<Entry>, s: nat, n: nat) {
    var k := Neighbour(t, s, n);
    k < |t| && t[k].start < s + n ==>
      0 < t[k].End() - Base(t, s, n) < MAX_LEN && AllBad(t, t[k].End(), s + n)
  }

  // ---------------------------------------------------------------------------------------------
  // The phases
  // ---------------------------------------------------------------------------------------------

  lemma LastOf(p: seq<Entry>)
    requires p != []
    ensures p == p[..|p| - 1] + [Last(p)]
  {
  }

  lemma SingleBad(e: Entry, x: int)
    ensures Bad([e], x) <==> Covers(e, x)
  {
    assert [e][0] == e;
  }

  lemma SnocBad(p: seq<Entry>, e: Entry, x: int)
    ensures Bad(p + [e], x) <==> Bad(p, x) || Covers(e, x)
  {
    BadPlus(p, [e], x);
    SingleBad(e, x);
  }

  lemma ConsBad(e: Entry, c: seq<Entry>, x: int)
    ensures Bad([e] + c, x) <==> Covers(e, x) || Bad(c, x)
  {
    BadPlus([e], c, x);
    SingleBad(e, x);
  }

  lemma SnocGood(p: seq<Entry>, e: Entry)
    requires Good(p) && LenOk(e) && (p != [] ==> Last(p).End() <= e.start)
    ensures Good(p + [e])
  {
    GoodPlus(p, [e]);
  }

  /** Extending the last range: the table stays well formed, and only the extension is added. */
  lemma Extended(p: seq<Entry>, e: Entry)
    requires Good(p) && p != [] && LenOk(e) && e.start == Last(p).start && Last(p).End() <= e.End()
    ensures Good(SetLast(p, e))
    ensures forall x :: Bad(SetLast(p, e), x) <==> Bad(p, x) || Last(p).End() <= x < e.End()
  {
    var q, lo := p[..|p| - 1], Last(p);
    LastOf(p);
    GoodSlice(p, 0, |p| - 1);
    SnocGood(q, e);
    forall x ensures Bad(SetLast(p, e), x) <==> Bad(p, x) || lo.End() <= x < e.End() {
      SnocBad(q, e, x);
      SnocBad(q, lo, x);
      assert LenOk(lo);
    }
  }

  /** What the table will hold once the work is finished. */
  predicate Cover(w: Work, x: int) {
    Bad(w.p, x) || w.s <= x < w.s + w.n || Bad(w.c, x)
  }

  ghost predicate SameCover(v: Work, w: Work) {
    forall x :: Cover(w, x) <==> Cover(v, x)
  }

  /** The ranges handled are in order and end at or before s; those ahead are in order too. */
  predicate Neat(w: Work) {
    && Good(w.p) && Good(w.c)
    && (w.p != [] ==> Last(w.p).End() <= w.s)
    && (w.n == 0 ==> w.p != [] && Last(w.p).End() == w.s)
  }

  /** ... and what is left fits into one range. */
  predicate Tidy(w: Work) {
    Neat(w) && w.n <= MAX_LEN
  }

  /** From where the new range starts up to s all is recorded, and no range ahead starts before that. */
  ghost predicate Filled(w: Work, s0: int) {
    (w.c != [] ==> s0 < w.c[0].start) && forall x :: s0 <= x < w.s ==> Bad(w.p, x)
  }

  lemma LastCovers(p: seq<Entry>, x: int)
    requires p != [] && Covers(Last(p), x)
    ensures Bad(p, x)
  {
    assert Covers(p[|p| - 1], x);
  }

  lemma MergeLowNeat(w: Work, ack: bool)
    requires Good(w.p) && Good(w.c) && 1 <= w.n && (w.p != [] ==> Last(w.p).start <= w.s)
    ensures
      var v := MergeLow(w, ack);
      && Neat(v) && (w.n <= MAX_LEN ==> Tidy(v))
      && v.c == w.c && |v.p| == |w.p|
      && (v.n == 0 ==> w.p != [] && v.s == Max(Last(w.p).End(), w.s + w.n) && Last(v.p).start == Last(w.p).start)
      && (v.n != 0 ==> v.s + v.n == w.s + w.n)
  {
    var v := MergeLow(w, ack);
    if w.p != [] && Last(w.p).End() >= w.s {
      assert LenOk(Last(w.p));
      if v.p != w.p {
        Extended(w.p, Last(v.p));
      }
    }
  }

  lemma MergeLowCover(w: Work, ack: bool)
    requires Good(w.p) && 1 <= w.n && (w.p != [] ==> Last(w.p).start <= w.s)
    ensures SameCover(w, MergeLow(w, ack))
  {
    var v := MergeLow(w, ack);
    if w.p != [] && Last(w.p).End() >= w.s {
      var lo := Last(w.p);
      assert LenOk(lo);
      forall x ensures Cover(v, x) <==> Cover(w, x) {
        if v.p != w.p {
          Extended(w.p, Last(v.p));
        }
        if Covers(lo, x) {
          LastCovers(w.p, x);
        }
      }
    }
  }

  lemma MergeHighTidy(w: Work, ack: bool)
    requires Tidy(w)
    ensures
      var v := MergeHigh(w, ack);
      && Tidy(v) && |v.p| + |v.c| == |w.p| + |w.c|
      && (w.n != 0 && w.c != [] && w.c[0].start <= w.s + w.n ==>
            && v.c == w.c[1..] && Last(v.p).start == w.s
            && (if v.n == 0 then v.s == Max(w.c[0].End(), w.s + w.n) else w.s + w.n < w.c[0].End()))
      && (v.n != 0 && v.c != [] ==> v.s + v.n <= v.c[0].start)
  {
    var v := MergeHigh(w, ack);
    if w.n != 0 && w.c != [] && w.c[0].start <= w.s + w.n {
      assert LenOk(w.c[0]);
      SnocGood(w.p, Last(v.p));
      GoodSlice(w.c, 1, |w.c|);
      assert v.c != [] ==> v.c[0] == w.c[1];
    }
  }

  lemma MergeHighCover(w: Work, ack: bool, s0: int)
    requires Tidy(w) && Filled(w, s0)
    ensures SameCover(w, MergeHigh(w, ack))
  {
    var v := MergeHigh(w, ack);
    if w.n != 0 && w.c != [] && w.c[0].start <= w.s + w.n {
      var hi := w.c[0];
      forall x ensures Cover(v, x) <==> Cover(w, x) {
        SnocBad(w.p, Last(v.p), x);
        assert w.c == [hi] + w.c[1..];
        ConsBad(hi, w.c[1..], x);
      }
    }
  }

  // ---------------------------------------------------------------------------------------------
  // The end game
  // ---------------------------------------------------------------------------------------------

  /** Nothing is lost and nothing overlaps at the end. */
  ghost predicate Clean(w: Work) {
    w.n == 0 && w.p != [] && w.c != [] && w.c[0].start < w.s ==>
      && 0 < w.c[0].End() - Last(w.p).start < MAX_LEN
      && forall x :: w.c[0].End() <= x < w.s ==> Bad(w.c[1..], x)
  }

  ghost predicate Holding(r: (seq<Entry>, bool), w: Work) {
    r.1 && Good(r.0) && forall x :: Bad(r.0, x) <==> Cover(w, x)
  }

  lemma InsertFinishes(w: Work, ack: bool)
    requires Tidy(w) && w.n != 0 && |w.p| + |w.c| < MAX_BADBLOCKS
    requires w.c != [] ==> w.s + w.n <= w.c[0].start
    ensures Holding(InsertRest(w, ack), w)
  {
    var e := Entry(w.s, w.n, ack);
    assert InsertRest(w, ack) == (w.p + ([e] + w.c), true);
    SnocGood(w.p, e);
    GoodPlus(w.p + [e], w.c);
    assert w.p + ([e] + w.c) == w.p + [e] + w.c;
    forall x ensures Bad(w.p + [e] + w.c, x) <==> Cover(w, x) {
      BadPlus(w.p + [e], w.c, x);
      SnocBad(w.p, e, x);
    }
  }

  /** Nothing ahead starts before s: the table is right whether or not the two ranges are combined. */
  lemma CombineTouching(w: Work, ack: bool)
    requires Tidy(w) && w.n == 0 && (w.c != [] ==> w.s <= w.c[0].start)
    ensures Holding(InsertRest(Combine(w), ack), w)
  {
    var v := Combine(w);
    if v.c == w.c {
      GoodPlus(w.p, w.c);
      forall x ensures Bad(w.p + w.c, x) <==> Cover(w, x) {
        BadPlus(w.p, w.c, x);
      }
    } else {
      assert LenOk(w.c[0]) && LenOk(Last(w.p));
      CombinedRight(w);
    }
  }

  /** The combined range takes the place of the two. */
  lemma CombinedGood(w: Work)
    requires Tidy(w) && w.n == 0 && w.c != [] && Combine(w).c != w.c
    requires 0 < w.c[0].End() - Last(w.p).start
    ensures Good(Combine(w).p + Combine(w).c)
  {
    var v := Combine(w);
    LastOf(w.p);
    GoodSlice(w.p, 0, |w.p| - 1);
    GoodSlice(w.c, 1, |w.c|);
    SnocGood(w.p[..|w.p| - 1], Last(v.p));
    GoodPlus(v.p, v.c);
  }

  lemma CombinedRight(w: Work)
    requires Tidy(w) && w.n == 0 && w.c != [] && Combine(w).c != w.c
    requires 0 < w.c[0].End() - Last(w.p).start
    ensures
      var v := Combine(w);
      && Good(v.p + v.c)
      && forall x :: Bad(v.p + v.c, x) <==>
           Bad(w.p[..|w.p| - 1], x) || Last(w.p).start <= x < w.c[0].End() || Bad(w.c[1..], x)
  {
    var v, q := Combine(w), w.p[..|w.p| - 1];
    CombinedGood(w);
    forall x ensures Bad(v.p + v.c, x) <==> Bad(q, x) || Last(w.p).start <= x < w.c[0].End() || Bad(w.c[1..], x) {
      BadPlus(v.p, v.c, x);
      SnocBad(q, Last(v.p), x);
    }
  }

  lemma BadBefore(p: seq<Entry>, x: int)
    requires Good(p) && p != [] && Bad(p[..|p| - 1], x)
    ensures x < Last(p).start
  {
    var q := p[..|p| - 1];
    var i :| 0 <= i < |q| && Covers(q[i], x);
    Ordered(p, i, |p| - 1);
  }

  /** The next range starts before s: all depends on the combination. */
  lemma CombineOverlapping(w: Work, ack: bool, s0: int)
    requires Filled(w, s0)
    requires Tidy(w) && w.n == 0 && w.c != [] && w.c[0].start < w.s
    ensures Holding(InsertRest(Combine(w), ack), w) <==> Clean(w)
  {
    var lo, hi, v := Last(w.p), w.c[0], Combine(w);
    var t := v.p + v.c;
    assert InsertRest(v, ack) == (t, true);
    if hi.End() - lo.start >= MAX_LEN {
      assert t[|w.p| - 1] == lo && t[|w.p|] == hi;
      assert !Good(t);
    } else if hi.End() - lo.start <= 0 {
      assert t[|w.p| - 1].len <= 0;
      assert !Good(t);
    } else {
      CombinedRight(w);
      CombinedCover(w, s0);
    }
  }

  lemma CombinedCover(w: Work, s0: int)
    requires Filled(w, s0)
    requires Tidy(w) && w.n == 0 && w.c != [] && w.c[0].start < w.s && 0 < w.c[0].End() - Last(w.p).start
    ensures (forall x :: Cover(w, x) <==>
               Bad(w.p[..|w.p| - 1], x) || Last(w.p).start <= x < w.c[0].End() || Bad(w.c[1..], x))
       <==> (forall x :: w.c[0].End() <= x < w.s ==> Bad(w.c[1..], x))
  {
    var q, lo, hi := w.p[..|w.p| - 1], Last(w.p), w.c[0];
    LastOf(w.p);
    assert w.c == [hi] + w.c[1..];
    assert LenOk(lo) && LenOk(hi);
    forall x ensures (Cover(w, x) <==> Bad(q, x) || lo.start <= x < hi.End() || Bad(w.c[1..], x))
                <==> (hi.End() <= x < w.s ==> Bad(w.c[1..], x))
    {
      SnocBad(q, lo, x);
      ConsBad(hi, w.c[1..], x);
      if Bad(q, x) {
        BadBefore(w.p, x);
      }
    }
  }

  /** The last two phases leave the right table iff Clean. */
  lemma Finish(w: Work, ack: bool, s0: int)
    requires Filled(w, s0)
    requires Tidy(w) && |w.p| + |w.c| < MAX_BADBLOCKS
    requires w.n != 0 && w.c != [] ==> w.s + w.n <= w.c[0].start
    ensures Holding(InsertRest(Combine(w), ack), w) <==> Clean(w)
  {
    if w.n != 0 {
      InsertFinishes(w, ack);
    } else if w.c != [] && w.c[0].start < w.s {
      CombineOverlapping(w, ack, s0);
    } else {
      CombineTouching(w, ack);
    }
  }

  // ---------------------------------------------------------------------------------------------
  // Back to the caller's terms
  // ---------------------------------------------------------------------------------------------

  lemma BeyondIsAfter(t: seq<Entry>, k: nat, x: int)
    requires Good(t) && k < |t| && t[k].End() <= x
    ensures Bad(t, x) <==> Bad(t[k + 1..], x)
  {
    assert LenOk(t[k]);
    var before := t[..k + 1];
    assert t == before + t[k + 1..];
    BadPlus(before, t[k + 1..], x);
    forall i | 0 <= i < |before| ensures !Covers(before[i], x) {
      if i < k {
        Ordered(t, i, k);
      }
    }
  }

  lemma AllBadAfter(t: seq<Entry>, k: nat, end: int, after: seq<Entry>)
    requires Good(t) && k < |t| && after == t[k + 1..]
    ensures AllBad(t, t[k].End(), end) <==> forall x :: t[k].End() <= x < end ==> Bad(after, x)
  {
    forall x | t[k].End() <= x ensures Bad(t, x) <==> Bad(after, x) {
      BeyondIsAfter(t, k, x);
    }
  }

  lemma StartOk(t: seq<Entry>, s: nat, n: nat)
    requires Good(t)
    ensures
      var w := Start(t, s, n);
      && Good(w.p) && Good(w.c)
      && (w.p != [] ==> Last(w.p).start <= s)
      && (w.c != [] ==> s < w.c[0].start)
      && forall x :: Cover(w, x) <==> Bad(t, x) || s <= x < s + n
  {
    var w := Start(t, s, n);
    RankSplits(t, s + 1);
    GoodSlice(t, 0, |w.p|);
    GoodSlice(t, |w.p|, |t|);
    assert t == w.p + w.c;
    forall x ensures Bad(t, x) <==> Bad(w.p, x) || Bad(w.c, x) {
      BadPlus(w.p, w.c, x);
    }
  }

  lemma MergeLowFilled(w: Work, ack: bool)
    requires Good(w.p) && 1 <= w.n && (w.p != [] ==> Last(w.p).start <= w.s)
    requires w.c != [] ==> w.s < w.c[0].start
    ensures Filled(MergeLow(w, ack), w.s)
  {
    var v := MergeLow(w, ack);
    if w.p != [] && Last(w.p).End() >= w.s {
      forall x | w.s <= x < v.s ensures Bad(v.p, x) {
        LastCovers(v.p, x);
      }
    }
  }

  lemma MergeHighFilled(w: Work, ack: bool, s0: int)
    requires Tidy(w) && Filled(w, s0)
    ensures Filled(MergeHigh(w, ack), s0)
  {
    var v := MergeHigh(w, ack);
    if w.n != 0 && w.c != [] && w.c[0].start <= w.s + w.n {
      assert v.c != [] ==> v.c[0] == w.c[1];
      assert LenOk(w.c[0]);
      forall x | s0 <= x < v.s ensures Bad(v.p, x) {
        SnocBad(w.p, Last(v.p), x);
      }
    }
  }

  lemma LowCases(t: seq<Entry>, s: nat, n: nat, ack: bool)
    requires Good(t) && 1 <= n
    ensures
      var h, w := Rank(t, s + 1), MergeLow(Start(t, s, n), ack);
      && (w.n == 0 <==> Fits(t, s, n))
      && (w.n == 0 ==> w.s == Max(t[h - 1].End(), s + n) && Last(w.p).start == Base(t, s, n))
      && (w.n != 0 ==> w.s == Base(t, s, n) && w.s + w.n == s + n)
      && w.c == t[h..]
      && Neat(w) && (n <= MAX_LEN ==> Tidy(w))
  {
    StartOk(t, s, n);
    MergeLowNeat(Start(t, s, n), ack);
  }

  lemma CleanWhenFits(t: seq<Entry>, s: nat, n: nat, ack: bool)
    requires Good(t) && 1 <= n && Fits(t, s, n)
    ensures Clean(MergeHigh(MergeLow(Start(t, s, n), ack), ack)) <==> SetOk(t, s, n)
  {
    var h, w := Rank(t, s + 1), MergeLow(Start(t, s, n), ack);
    LowCases(t, s, n, ack);
    if h < |t| {
      Ordered(t, h - 1, h);
      assert w.c[1..] == t[h + 1..];
      AllBadAfter(t, h, s + n, w.c[1..]);
    }
  }

  /** The second phase, in terms of the table. */
  lemma HighCases(t: seq<Entry>, h: nat, w: Work, end: nat, ack: bool)
    requires Good(t) && h <= |t| && w.c == t[h..] && Tidy(w) && w.n != 0 && w.s + w.n == end
    ensures
      var v := MergeHigh(w, ack);
      Clean(v) <==>
        (h + 1 < |t| && t[h + 1].start < end ==> 0 < t[h + 1].End() - w.s < MAX_LEN && AllBad(t, t[h + 1].End(), end))
  {
    MergeHighTidy(w, ack);
    if h + 1 < |t| {
      Ordered(t, h, h + 1);
      assert LenOk(t[h]);
      var after := t[h + 2..];
      assert w.c[1..][1..] == after;
      AllBadAfter(t, h + 1, end, after);
    }
  }

  lemma CleanWhenNot(t: seq<Entry>, s: nat, n: nat, w: Work, ack: bool)
    requires Good(t) && 1 <= n && !Fits(t, s, n)
    requires w.c == t[Rank(t, s + 1)..] && Tidy(w) && w.n != 0 && w.s == Base(t, s, n) && w.s + w.n == s + n
    ensures Clean(MergeHigh(w, ack)) <==> SetOk(t, s, n)
  {
    HighCases(t, Rank(t, s + 1), w, s + n, ack);
  }

  /** What is left after the first phase fits into one range. */
  predicate LittleLeft(t: seq<Entry>, s: nat, n: nat) {
    Fits(t, s, n) || s + n - Base(t, s, n) <= MAX_LEN
  }

  lemma CleanIffOk(t: seq<Entry>, s: nat, n: nat, ack: bool)
    requires Good(t) && 1 <= n && LittleLeft(t, s, n)
    ensures Clean(MergeHigh(MergeLow(Start(t, s, n), ack), ack)) <==> SetOk(t, s, n)
  {
    if Fits(t, s, n) {
      CleanWhenFits(t, s, n, ack);
    } else {
      LowCases(t, s, n, ack);
      CleanWhenNot(t, s, n, MergeLow(Start(t, s, n), ack), ack);
    }
  }

  lemma HoldingIsRight(t: seq<Entry>, s: nat, n: nat, w: Work, r: (seq<Entry>, bool))
    requires forall x :: Cover(w, x) <==> Bad(t, x) || s <= x < s + n
    ensures Holding(r, w) <==> SetRight(t, s, n, r)
  {
  }

  lemma Merged(t: seq<Entry>, s: nat, n: nat, ack: bool) returns (w: Work)
    requires Good(t) && 1 <= n && LittleLeft(t, s, n)
    ensures w == MergeHigh(MergeLow(Start(t, s, n), ack), ack)
    ensures Tidy(w) && Filled(w, s) && |w.p| + |w.c| == |t|
    ensures w.n != 0 && w.c != [] ==> w.s + w.n <= w.c[0].start
    ensures forall x :: Cover(w, x) <==> Bad(t, x) || s <= x < s + n
  {
    var w0 := Start(t, s, n);
    StartOk(t, s, n);
    var w1 := MergeLow(w0, ack);
    MergeLowNeat(w0, ack);
    MergeLowCover(w0, ack);
    MergeLowFilled(w0, ack);
    LowCases(t, s, n, ack);
    w := MergeHigh(w1, ack);
    MergeHighTidy(w1, ack);
    MergeHighCover(w1, ack, s);
    MergeHighFilled(w1, ack, s);
  }

  lemma ShortIsRightIff(t: seq<Entry>, s: nat, n: nat, ack: bool)
    requires Good(t) && |t| < MAX_BADBLOCKS && 1 <= n && LittleLeft(t, s, n)
    ensures SetRight(t, s, n, SetRange(t, s, n, ack)) <==> SetOk(t, s, n)
  {
    var w := Merged(t, s, n, ack);
    Finish(w, ack, s);
    HoldingIsRight(t, s, n, w, InsertRest(Combine(w), ack));
    CleanIffOk(t, s, n, ack);
  }

  // ---------------------------------------------------------------------------------------------
  // More than one range is left
  // ---------------------------------------------------------------------------------------------

  /** The table ends with the ranges ahead. */
  lemma {:induction false} AheadStays(w: Work, ack: bool)
    ensures
      var r := InsertRest(w, ack).0;
      |w.c| <= |r| && r[|r| - |w.c|..] == w.c
    decreases w.n
  {
    if w.n > 0 && |w.p| + |w.c| < MAX_BADBLOCKS {
      var v := Pushed(w, ack);
      AheadStays(v, ack);
      var r := InsertRest(w, ack).0;
      assert r[|r| - |w.c|..] == v.c[1..] == w.c;
    } else {
      assert (w.p + w.c)[|w.p|..] == w.c;
    }
  }

  lemma GoodSuffix(t: seq<Entry>, c: seq<Entry>)
    requires |c| <= |t| && t[|t| - |c|..] == c
    ensures Good(t) ==> Good(c)
  {
    if Good(t) {
      GoodSlice(t, |t| - |c|, |t|);
    }
  }

  lemma WrongAhead(w: Work, ack: bool)
    requires !Good(w.c)
    ensures !Good(InsertRest(w, ack).0)
  {
    AheadStays(w, ack);
    GoodSuffix(InsertRest(w, ack).0, w.c);
  }

  /** A range inserted before one that starts earlier. */
  lemma SecondPieceIsWrong(w: Work, ack: bool)
    requires w.n > 0 && w.c != [] && w.c[0].start < w.s
    ensures !(InsertRest(w, ack).1 && Good(InsertRest(w, ack).0))
  {
    if |w.p| + |w.c| < MAX_BADBLOCKS {
      Inverted(Entry(w.s, Min(w.n, MAX_LEN), ack), w.c);
      WrongAhead(Pushed(w, ack), ack);
    }
  }

  lemma Inverted(e: Entry, c: seq<Entry>)
    requires c != [] && c[0].start < e.start
    ensures !Good([e] + c)
  {
    var t := [e] + c;
    assert t[0] == e && t[1] == c[0];
  }

  /** Two pieces are inserted the wrong way round. */
  lemma TwoPiecesAreWrong(w: Work, ack: bool)
    requires w.n > MAX_LEN
    ensures !(InsertRest(w, ack).1 && Good(InsertRest(w, ack).0))
  {
    if |w.p| + |w.c| < MAX_BADBLOCKS {
      SecondPieceIsWrong(Pushed(w, ack), ack);
    }
  }

  /** The second phase when more than one range is left: the range ahead becomes a maximal one. */
  lemma HighLong(w: Work, ack: bool)
    requires Neat(w) && w.n > MAX_LEN && w.c != [] && w.c[0].start <= w.s + w.n
    ensures
      var v := MergeHigh(w, ack);
      && Neat(v) && v.c == w.c[1..] && v.s == w.s + MAX_LEN && v.s + v.n == Max(w.c[0].End(), w.s + w.n) && v.n > 0
      && |v.p| + |v.c| == |w.p| + |w.c|
  {
    var v := MergeHigh(w, ack);
    assert LenOk(w.c[0]);
    SnocGood(w.p, Last(v.p));
    GoodSlice(w.c, 1, |w.c|);
  }

  lemma HighLongCover(w: Work, ack: bool, s0: int)
    requires Neat(w) && w.n > MAX_LEN && w.c != [] && w.c[0].start <= w.s + w.n
    requires Filled(w, s0)
    ensures SameCover(w, MergeHigh(w, ack))
  {
    var v, hi := MergeHigh(w, ack), w.c[0];
    assert LenOk(hi);
    forall x ensures Cover(v, x) <==> Cover(w, x) {
      SnocBad(w.p, Last(v.p), x);
      assert w.c == [hi] + w.c[1..];
      ConsBad(hi, w.c[1..], x);
    }
  }

  /** Inserting one range is right iff it ends before the next one starts. */
  lemma InsertIff(w: Work, ack: bool)
    requires Tidy(w) && w.n > 0 && |w.p| + |w.c| < MAX_BADBLOCKS
    ensures Holding(InsertRest(w, ack), w) <==> (w.c != [] ==> w.s + w.n <= w.c[0].start)
  {
    if w.c != [] ==> w.s + w.n <= w.c[0].start {
      InsertFinishes(w, ack);
    } else {
      var e := Entry(w.s, w.n, ack);
      assert InsertRest(w, ack) == (w.p + ([e] + w.c), true);
      Overlapping(w.p, e, w.c);
    }
  }

  lemma Overlapping(p: seq<Entry>, e: Entry, c: seq<Entry>)
    requires c != [] && c[0].start < e.End()
    ensures !Good(p + ([e] + c))
  {
    var t := p + ([e] + c);
    if Good(t) {
      Ordered(t, |p|, |p| + 1);
    }
  }

  /** More than one range is left, and the range ahead makes one of them: it has to take all but one, and nothing else
      may start before s + n. */
  predicate LongOk(t: seq<Entry>, s: nat, n: nat) {
    var h, b := Rank(t, s + 1), Base(t, s, n);
    && h < |t| && t[h].start <= s + n
    && Max(t[h].End(), s + n) - (b + MAX_LEN) <= MAX_LEN
    && (h + 1 < |t| ==> s + n <= t[h + 1].start)
  }

  lemma {:induction false} LongIsRightIff(t: seq<Entry>, s: nat, n: nat, ack: bool)
    requires Good(t) && |t| < MAX_BADBLOCKS && 1 <= n && !LittleLeft(t, s, n)
    ensures SetRight(t, s, n, SetRange(t, s, n, ack)) <==> LongOk(t, s, n)
  {
    var w := LongStart(t, s, n, ack);
    var v := MergeHigh(w, ack);
    assert SetRange(t, s, n, ack) == InsertRest(Combine(v), ack);
    if w.c == [] || w.c[0].start > w.s + w.n {
      assert Combine(v) == w;
      TwoPiecesAreWrong(w, ack);
    } else {
      HighLong(w, ack);
      assert Combine(v) == v;
      LongTakesOne(t, s, n, ack, w);
    }
  }

  /** The range ahead is there to be taken. */
  lemma LongTakesOne(t: seq<Entry>, s: nat, n: nat, ack: bool, w: Work)
    requires Good(t) && |t| < MAX_BADBLOCKS && Rank(t, s + 1) < |t|
    requires Neat(w) && w.s == Base(t, s, n) && w.s + w.n == s + n && w.n > MAX_LEN
    requires w.c == t[Rank(t, s + 1)..] && |w.p| + |w.c| == |t| && w.c[0].start <= s + n
    requires Filled(w, s) && forall x :: Cover(w, x) <==> Bad(t, x) || s <= x < s + n
    ensures SetRight(t, s, n, InsertRest(MergeHigh(w, ack), ack)) <==> LongOk(t, s, n)
  {
    var v := MergeHigh(w, ack);
    HighLong(w, ack);
    HighLongCover(w, ack, s);
    if v.n > MAX_LEN {
      TwoPiecesAreWrong(v, ack);
    } else {
      InsertIff(v, ack);
      HoldingIsRight(t, s, n, v, InsertRest(v, ack));
      var h := Rank(t, s + 1);
      if h + 1 < |t| {
        Ordered(t, h, h + 1);
        assert v.c[0] == t[h + 1];
      }
    }
  }

  /** What is known after the first phase. */
  lemma LongStart(t: seq<Entry>, s: nat, n: nat, ack: bool) returns (w: Work)
    requires Good(t) && 1 <= n && !LittleLeft(t, s, n)
    ensures w == MergeLow(Start(t, s, n), ack)
    ensures Neat(w) && w.s == Base(t, s, n) && w.s + w.n == s + n && w.n > MAX_LEN
    ensures w.c == t[Rank(t, s + 1)..] && |w.p| + |w.c| == |t|
    ensures Filled(w, s)
    ensures forall x :: Cover(w, x) <==> Bad(t, x) || s <= x < s + n
  {
    var w0 := Start(t, s, n);
    w := MergeLow(w0, ack);
    StartOk(t, s, n);
    MergeLowNeat(w0, ack);
    MergeLowCover(w0, ack);
    MergeLowFilled(w0, ack);
    LowCases(t, s, n, ack);
  }

  /** The condition a caller can check beforehand, for every length. */
  ghost predicate SetOkAny(t: seq<Entry>, s: nat, n: nat) {
    if LittleLeft(t, s, n) then SetOk(t, s, n) else LongOk(t, s, n)
  }

  /** On a well-formed table with room for one more range, recording any number of sectors gives a well-formed table
      with exactly the old and the new sectors iff SetOkAny. */
  lemma SetIsRightIff(t: seq<Entry>, s: nat, n: nat, ack: bool)
    requires Good(t) && |t| < MAX_BADBLOCKS && 1 <= n
    ensures SetRight(t, s, n, SetRange(t, s, n, ack)) <==> SetOkAny(t, s, n)
  {
    if LittleLeft(t, s, n) {
      ShortIsRightIff(t, s, n, ack);
    } else {
      LongIsRightIff(t, s, n, ack);
    }
  }

  /** Up to 512 sectors are never too much for one range. */
  lemma ShortIsLittle(t: seq<Entry>, s: nat, n: nat)
    requires Good(t) && 1 <= n <= MAX_LEN
    ensures LittleLeft(t, s, n)
  {
    LowCases(t, s, n, true);
  }

  /** In particular the table is right if no range starts strictly inside the new one. */
  lemma SetIsRight(t: seq<Entry>, s: nat, n: nat, ack: bool)
    requires Good(t) && |t| < MAX_BADBLOCKS && 1 <= n <= MAX_LEN
    requires forall i :: 0 <= i < |t| ==> !(s < t[i].start < s + n)
    ensures SetRight(t, s, n, SetRange(t, s, n, ack))
  {
    RankSplits(t, s + 1);
    ShortIsLittle(t, s, n);
    ShortIsRightIff(t, s, n, ack);
  }

  lemma FillsGapFrom(a: seq<Entry>, lo: Entry, hi: Entry, c: seq<Entry>, ack: bool)
    requires lo.len > 0 && lo.End() < hi.start && hi.len > 0 && hi.End() - lo.start < MAX_LEN
    ensures
      var w := Work(a + [lo], [hi] + c, lo.End(), hi.start - lo.End());
      SetFrom(w, ack) == (a + [Entry(lo.start, hi.End() - lo.start, lo.ack && ack && hi.ack)] + c, true)
  {
    var w := Work(a + [lo], [hi] + c, lo.End(), hi.start - lo.End());
    var mid := Entry(lo.start, hi.start - lo.start, lo.ack && ack);
    var w1 := Work(a + [mid], w.c, hi.start, 0);
    assert w.p[..|a|] == a && MergeLow(w, ack) == w1;
    assert w1.p[..|a|] == a && w1.c[1..] == c;
  }

  lemma StartsAt(t: seq<Entry>, s: nat, n: nat, h: nat)
    requires Good(t) && h <= |t| && (h > 0 ==> t[h - 1].start <= s) && (h < |t| ==> s < t[h].start)
    ensures Start(t, s, n) == Work(t[..h], t[h..], s, n)
  {
    RankSplits(t, s + 1);
    assert h > 0 ==> h - 1 < Rank(t, s + 1);
  }

  /** Filling the gap between two ranges that fit into one makes one of them, acknowledged iff all three are. */
  lemma FillsGap(a: seq<Entry>, lo: Entry, hi: Entry, c: seq<Entry>, ack: bool)
    requires Good(a + [lo] + ([hi] + c)) && LenOk(lo) && lo.End() < hi.start && hi.End() - lo.start < MAX_LEN
    ensures SetRange(a + [lo] + ([hi] + c), lo.End(), hi.start - lo.End(), ack)
         == (a + [Entry(lo.start, hi.End() - lo.start, lo.ack && ack && hi.ack)] + c, true)
  {
    var t, h := a + [lo] + ([hi] + c), |a| + 1;
    assert t[h - 1] == lo && t[h] == hi && LenOk(t[h - 1]) && LenOk(t[h]);
    StartsAt(t, lo.End(), hi.start - lo.End(), h);
    assert t[..h] == a + [lo] && t[h..] == [hi] + c;
    FillsGapFrom(a, lo, hi, c, ack);
  }

  /** A range inside the new one, behind a range it touches: the combination forgets what lies beyond. */
  lemma SetCanForget(ack: bool)
    ensures
      var t := [Entry(0, 10, ack), Entry(20, 5, ack)];
      Good(t) && !Bad(SetRange(t, 10, 40, ack).0, 49)
  {
    var t := [Entry(0, 10, ack), Entry(20, 5, ack)];
    assert Rank(t, 11) == 1;
    var w0 := Start(t, 10, 40);
    assert w0.p == [Entry(0, 10, ack)] && w0.c == [Entry(20, 5, ack)];
    var w1 := MergeLow(w0, ack);
    assert w1.p == [Entry(0, 50, ack)] && w1.c == w0.c && w1.s == 50 && w1.n == 0;
    var w2 := Combine(MergeHigh(w1, ack));
    assert w2.p == [Entry(0, 25, ack)] && w2.c == [] && w2.n == 0;
    SingleBad(Entry(0, 25, ack), 49);
    assert SetRange(t, 10, 40, ack).0 == w2.p + w2.c == w2.p;
  }

  /** More than 512 sectors are inserted back to front: the table is no longer sorted. */
  lemma SetTooLong(s: nat, n: nat, ack: bool)
    requires MAX_LEN < n <= 2 * MAX_LEN
    ensures SetRange([], s, n, ack).0 == [Entry(s + MAX_LEN, n - MAX_LEN, ack), Entry(s, MAX_LEN, ack)]
    ensures !Good(SetRange([], s, n, ack).0)
  {
    var a, b := Entry(s, MAX_LEN, ack), Entry(s + MAX_LEN, n - MAX_LEN, ack);
    assert [a] + [] == [a] && [b] + [a] == [b, a] && [] + [b, a] == [b, a];
    var w1 := Work([], [a], s + MAX_LEN, n - MAX_LEN);
    assert InsertRest(Work([], [], s, n), ack) == InsertRest(w1, ack);
    assert InsertRest(w1, ack) == InsertRest(Work([], [b, a], s + n, 0), ack) == ([b, a], true);
    assert [b, a][0].End() > [b, a][1].start;
  }

  // ---------------------------------------------------------------------------------------------
  // Acknowledged ranges stay acknowledged
  // ---------------------------------------------------------------------------------------------

  predicate AllAcked(t: seq<Entry>) {
    forall i :: 0 <= i < |t| ==> t[i].ack
  }

  lemma LowAcked(w: Work)
    requires AllAcked(w.p) && AllAcked(w.c)
    ensures AllAcked(MergeLow(w, true).p) && AllAcked(MergeLow(w, true).c)
  {
  }

  lemma HighAcked(w: Work)
    requires AllAcked(w.p) && AllAcked(w.c)
    ensures AllAcked(MergeHigh(w, true).p) && AllAcked(MergeHigh(w, true).c)
  {
  }

  lemma CombineAcked(w: Work)
    requires AllAcked(w.p) && AllAcked(w.c)
    ensures AllAcked(Combine(w).p) && AllAcked(Combine(w).c)
  {
  }

  lemma {:induction false} InsertingAcked(w: Work)
    requires AllAcked(w.p) && AllAcked(w.c)
    ensures AllAcked(InsertRest(w, true).0)
    decreases w.n
  {
    if w.n != 0 && |w.p| + |w.c| < MAX_BADBLOCKS {
      var k := Min(w.n, MAX_LEN);
      InsertingAcked(Work(w.p, [Entry(w.s, k, true)] + w.c, w.s + k, w.n - k));
    }
  }

  lemma FinishAcked(w: Work)
    requires AllAcked(w.p) && AllAcked(w.c)
    ensures AllAcked(InsertRest(Combine(w), true).0)
  {
    CombineAcked(w);
    InsertingAcked(Combine(w));
  }

  lemma HighOnAcked(w: Work)
    requires AllAcked(w.p) && AllAcked(w.c)
    ensures AllAcked(InsertRest(Combine(MergeHigh(w, true)), true).0)
  {
    HighAcked(w);
    FinishAcked(MergeHigh(w, true));
  }

  /** Recording an acknowledged range leaves nothing unacknowledged that was not so before. */
  lemma SetKeepsAcked(t: seq<Entry>, s: nat, n: nat)
    requires AllAcked(t)
    ensures AllAcked(SetRange(t, s, n, true).0)
  {
    LowAcked(Start(t, s, n));
    HighOnAcked(MergeLow(Start(t, s, n), true));
  }
}
