/** The bad-block table as the object it is (struct badblocks): a page of entries updated in place. */
module BadBlockTable {
  import opened Arith
  import opened BadBlocks
  import opened BadBlocksSet

  /** Does a recorded range overlap [s, target)? */
  predicate Overlaps(e: Entry, s: int, target: int) {
    e.start < target && s < e.End()
  }

  predicate AnyUnacked(t: seq<Entry>) {
    exists i :: 0 <= i < |t| && !t[i].ack
  }

  /** What a scan of the ranges above `lo` finds in [s, target): the verdict, and the lowest overlapping range. */
  ghost predicate Scanned(t: seq<Entry>, lo: int, s: int, target: int, rv: int, first: Entry)
    requires -1 <= lo
  {
    && -1 <= rv <= 1
    && (rv == 0 <==> forall i :: lo < i < |t| ==> !Overlaps(t[i], s, target))
    && (rv == -1 <==> exists i :: lo < i < |t| && Overlaps(t[i], s, target) && !t[i].ack)
    && (rv != 0 ==> exists k :: lo < k < |t| && t[k] == first && Overlaps(first, s, target)
                                && forall i :: lo < i < k ==> !Overlaps(t[i], s, target))
  }

  /** What badblocks_check reports about [s, target) is what a scan of the whole table finds. */
  ghost predicate CheckRight(t: seq<Entry>, s: int, target: int, rv: int, first: Entry) {
    Scanned(t, -1, s, target, rv, first)
  }

  /** Nothing overlaps from the first range that starts at or behind the target on. */
  lemma ScanStart(t: seq<Entry>, lo: nat, s: int, target: int, first: Entry)
    requires Good(t) && lo < |t| && Rank(t, target) <= lo + 1
    ensures Scanned(t, lo, s, target, 0, first)
  {
    RankSplits(t, target);
  }

  lemma ScanHit(t: seq<Entry>, lo: nat, s: int, target: int, rv: int, first: Entry)
    requires lo < |t| && Scanned(t, lo, s, target, rv, first) && Overlaps(t[lo], s, target)
    ensures Scanned(t, lo - 1, s, target, if rv != -1 && t[lo].ack then 1 else -1, t[lo])
  {
  }

  lemma ScanMiss(t: seq<Entry>, lo: nat, s: int, target: int, rv: int, first: Entry)
    requires lo < |t| && Scanned(t, lo, s, target, rv, first) && !Overlaps(t[lo], s, target)
    ensures Scanned(t, lo - 1, s, target, rv, first)
  {
    if rv != 0 {
      var k :| lo < k < |t| && t[k] == first && Overlaps(first, s, target)
               && forall i :: lo < i < k ==> !Overlaps(t[i], s, target);
      assert forall i :: lo - 1 < i < k ==> !Overlaps(t[i], s, target);
    }
  }

  /** Below a range that ends before s nothing overlaps. */
  lemma ScanRest(t: seq<Entry>, lo: int, s: int, target: int, rv: int, first: Entry)
    requires Good(t) && -1 <= lo < |t| && Scanned(t, lo, s, target, rv, first) && (lo >= 0 ==> t[lo].End() <= s)
    ensures CheckRight(t, s, target, rv, first)
    decreases lo + 1
  {
    if lo >= 0 {
      ScanMiss(t, lo, s, target, rv, first);
      if lo > 0 {
        Ordered(t, lo - 1, lo);
        assert LenOk(t[lo]);
      }
      ScanRest(t, lo - 1, s, target, rv, first);
    }
  }

  /** s is t after entries i .. k have been overwritten by those d further on. */
  ghost predicate Moved(s: seq<Entry>, t: seq<Entry>, i: nat, d: nat, k: nat)
    requires k + d <= |t|
  {
    && |s| == |t|
    && forall m {:trigger s[m]} :: 0 <= m < |s| ==> s[m] == if i <= m < k then t[m + d] else t[m]
  }

  lemma MovedNext(s: seq<Entry>, t: seq<Entry>, i: nat, d: nat, k: nat)
    requires i <= k && k + d < |t| && Moved(s, t, i, d, k)
    ensures Moved(s[k := s[k + d]], t, i, d, k + 1)
  {
    assert s[k + d] == t[k + d];
  }

  lemma ClosedUp(s: seq<Entry>, t: seq<Entry>, i: nat, d: nat)
    requires i + d <= |t| && Moved(s, t, i, d, |t| - d)
    ensures s[..|t| - d] == t[..i] + t[i + d..]
  {
    var r, u := s[..|t| - d], t[..i] + t[i + d..];
    forall k | 0 <= k < |r| ensures r[k] == u[k] {
      assert k >= i ==> u[k] == t[i + d..][k - i] == t[k + d];
    }
  }

  class Badblocks {
    const page: array<Entry>
    var count: nat
    var unackedExist: bool
    var changed: bool

    ghost predicate Valid()
      reads this, page
    {
      page.Length == MAX_BADBLOCKS && count <= MAX_BADBLOCKS && (AnyUnacked(page[..count]) ==> unackedExist)
    }

    ghost function Table(): seq<Entry>
      reads this, page
      requires count <= page.Length
    {
      page[..count]
    }

    constructor ()
      ensures Valid() && fresh(page) && Table() == []
    {
      page := new Entry[MAX_BADBLOCKS](i => Entry(0, 1, true));
      count, unackedExist, changed := 0, false, false;
    }

    /** The binary search of badblocks_check, badblocks_set and badblocks_clear: the last range that starts
        before `limit`, if there is one. */
    method Search(limit: int) returns (lo: nat, hi: nat)
      requires count <= page.Length && Good(Table())
      ensures count == 0 ==> lo == hi == 0
      ensures count > 0 ==> lo < count && hi == lo + 1
      ensures count > 0 && limit <= page[lo].start ==> lo == 0
      ensures count > 0 ==> Rank(Table(), limit) == if page[lo].start < limit then hi else 0
    {
      ghost var t := Table();
      lo, hi := 0, count;
      while hi - lo > 1
        invariant 0 <= lo <= hi <= count
        invariant count > 0 ==> lo < hi
        invariant lo > 0 ==> t[lo].start < limit
        invariant hi < count ==> limit <= t[hi].start
      {
        var mid := (lo + hi) / 2;
        if page[mid].start < limit {
          lo := mid;
        } else {
          hi := mid;
        }
      }
      RankSplits(t, limit);
    }

    /** The loop of badblocks_check, down from the last range that can overlap. */
    method ScanDown(l: nat, s: nat, target: nat) returns (rv: int, first: Entry)
      requires l < count <= page.Length && Good(Table()) && Rank(Table(), target) <= l + 1
      ensures CheckRight(Table(), s, target, rv, first)
    {
      ghost var t := Table();
      rv, first := 0, Entry(0, 0, false);
      ScanStart(t, l, s, target, first);
      var lo: int := l;
      while lo >= 0 && page[lo].End() > s
        invariant -1 <= lo < count && Scanned(t, lo, s, target, rv, first)
      {
        assert t[lo] == page[lo];
        if page[lo].start < target {
          ScanHit(t, lo, s, target, rv, first);
          if rv != -1 && page[lo].ack {
            rv := 1;
          } else {
            rv := -1;
          }
          first := page[lo];
        } else {
          ScanMiss(t, lo, s, target, rv, first);
        }
        lo := lo - 1;
      }
      assert lo >= 0 ==> t[lo] == page[lo];
      ScanRest(t, lo, s, target, rv, first);
    }

    /** badblocks_check agrees with a scan of the whole table. */
    method Check(s: nat, sectors: nat) returns (rv: int, first: Entry)
      requires count <= page.Length && Good(Table())
      ensures CheckRight(Table(), s, s + sectors, rv, first)
    {
      var lo, hi := Search(s + sectors);
      if hi > lo {
        rv, first := ScanDown(lo, s, s + sectors);
      } else {
        rv, first := 0, Entry(0, 0, false);
      }
    }

    /** badblocks_update_acked: clear the flag if nothing unacknowledged is left. */
    method UpdateAcked()
      requires Valid()
      modifies this`unackedExist
      ensures Valid()
      ensures unackedExist == AnyUnacked(Table())
    {
      if !unackedExist {
        return;
      }
      var unacked := false;
      var i := 0;
      while i < count
        invariant 0 <= i <= count && !unacked
        invariant forall j :: 0 <= j < i ==> page[j].ack
      {
        if !page[i].ack {
          unacked := true;
          break;
        }
        i := i + 1;
      }
      if !unacked {
        unackedExist := false;
      }
    }

    /** ack_all_badblocks: everything becomes acknowledged, unless the table changed since it was written. */
    method AckAll()
      requires Valid()
      modifies this`unackedExist, page
      ensures Valid()
      ensures changed ==> Table() == old(Table())
      ensures !changed ==> !AnyUnacked(Table()) && !unackedExist
      ensures changed ==> unackedExist == old(unackedExist)
      ensures |Table()| == |old(Table())|
      ensures forall i :: 0 <= i < count ==> page[i] == if changed then old(page[i]) else old(page[i]).(ack := true)
    {
      if changed {
        return;
      }
      if unackedExist {
        var i := 0;
        while i < count
          invariant 0 <= i <= count
          invariant forall j :: 0 <= j < i ==> page[j] == old(page[j]).(ack := true)
          invariant forall j :: i <= j < count ==> page[j] == old(page[j])
        {
          if !page[i].ack {
            page[i] := Entry(page[i].start, page[i].len, true);
          }
          i := i + 1;
        }
        unackedExist := false;
      } else {
        forall i | 0 <= i < count ensures page[i] == page[i].(ack := true) {
          assert page[..count][i] == page[i];
        }
      }
    }

    /** memmove(p + i + 1, p + i, ...), count++, p[i] = e */
    method InsertAt(i: nat, e: Entry)
      requires i <= count < page.Length
      modifies this`count, page
      ensures count == old(count) + 1
      ensures Table() == old(Table()[..i]) + [e] + old(Table()[i..])
    {
      forall k | i <= k < count {
        page[k + 1] := page[k];
      }
      page[i] := e;
      count := count + 1;
    }

    /** memmove(p + i, p + j, ...), count -= j - i */
    method RemoveRange(i: nat, j: nat)
      requires i <= j <= count <= page.Length
      modifies this`count, page
      ensures count == old(count) - (j - i)
      ensures Table() == old(Table()[..i]) + old(Table()[j..])
    {
      ghost var t := Table();
      var k, d := i, j - i;
      while k < count - d
        invariant i <= k <= count - d
        invariant Moved(Table(), t, i, d, k)
        modifies page
      {
        ghost var s := Table();
        MovedNext(s, t, i, d, k);
        page[k] := page[k + d];
        assert Table() == s[k := s[k + d]];
        k := k + 1;
      }
      ClosedUp(Table(), t, i, d);
      ghost var s := Table();
      count := count - d;
      assert Table() == s[..|t| - d];
    }

    /** p[hi - 1] = e */
    method PutLast(ghost p: seq<Entry>, ghost c: seq<Entry>, hi: nat, e: Entry)
      requires count <= page.Length && Table() == p + c && hi == |p| > 0
      modifies page
      ensures Table() == SetLast(p, e) + c
    {
      page[hi - 1] := e;
    }

    /** badblocks_set, merging with the range before. */
    method LowPhase(ghost w: Work, hi: nat, s: nat, n: nat, ack: bool) returns (s': nat, n': nat)
      requires count <= page.Length && Table() == w.p + w.c && hi == |w.p| && s == w.s && n == w.n
      modifies page
      ensures
        var v := MergeLow(w, ack);
        Table() == v.p + v.c && s' == v.s && n' == v.n
    {
      s', n' := s, n;
      if hi > 0 {
        var lo := hi - 1;
        assert page[lo] == Table()[lo] == Last(w.p);
        var a, e, flag := page[lo].start, page[lo].End(), page[lo].ack;
        if e >= s {
          if s == a && s + n >= e {
            flag := ack;
          } else {
            flag := flag && ack;
          }
          if e < s + n {
            e := s + n;
          }
          if e - a <= MAX_LEN {
            PutLast(w.p, w.c, hi, Entry(a, e - a, flag));
            s' := e;
          } else {
            if page[lo].len != MAX_LEN {
              PutLast(w.p, w.c, hi, Entry(a, MAX_LEN, flag));
            }
            s' := a + MAX_LEN;
          }
          n' := e - s';
        }
      }
    }

    /** badblocks_set, merging with the range after. */
    method HighPhase(ghost w: Work, hi: nat, s: nat, n: nat, ack: bool) returns (hi': nat, s': nat, n': nat)
      requires count <= page.Length && Table() == w.p + w.c && hi == |w.p| && s == w.s && n == w.n
      modifies page
      ensures
        var v := MergeHigh(w, ack);
        Table() == v.p + v.c && hi' == |v.p| && s' == v.s && n' == v.n
    {
      hi', s', n' := hi, s, n;
      if n != 0 && hi < count {
        assert page[hi] == Table()[hi] == w.c[0];
        var a, e, flag := page[hi].start, page[hi].End(), page[hi].ack;
        if a <= s + n {
          if e <= s + n {
            e, flag := s + n, ack;
          } else {
            flag := flag && ack;
          }
          ghost var c := w.c[1..];
          assert Table() == (w.p + [w.c[0]]) + c;
          var x := Entry(s, Min(e - s, MAX_LEN), flag);
          PutLast(w.p + [w.c[0]], c, hi + 1, x);
          assert SetLast(w.p + [w.c[0]], x) == w.p + [x];
          s' := if e - s <= MAX_LEN then e else s + MAX_LEN;
          n', hi' := e - s', hi + 1;
        }
      }
    }

    /** memmove(p + hi, p + hi + 1, ...), count-- */
    method DropNext(ghost p: seq<Entry>, ghost c: seq<Entry>, hi: nat)
      requires count <= page.Length && Table() == p + c && hi == |p| && c != []
      modifies this`count, page
      ensures count <= page.Length && Table() == p + c[1..]
    {
      RemoveRange(hi, hi + 1);
      assert (p + c)[..hi] == p && (p + c)[hi + 1..] == c[1..];
    }

    /** badblocks_set, combining the range just handled with the next. */
    method CombinePhase(ghost w: Work, hi: nat, s: nat, n: nat)
      requires count <= page.Length && Table() == w.p + w.c && hi == |w.p| && s == w.s && n == w.n
      modifies this`count, page
      ensures count <= page.Length
      ensures
        var v := Combine(w);
        Table() == v.p + v.c && |v.p| == hi && v.s == s && v.n == n
    {
      if n == 0 && 0 < hi < count {
        var lo := hi - 1;
        assert page[hi] == Table()[hi] == w.c[0] && page[lo] == Table()[lo] == Last(w.p);
        var a := page[hi].start;
        var newLen := page[lo].len + page[hi].len - (s - a);
        if s >= a && newLen < MAX_LEN {
          var e := Entry(page[lo].start, newLen, page[lo].ack && page[hi].ack);
          PutLast(w.p, w.c, hi, e);
          DropNext(SetLast(w.p, e), w.c, hi);
        }
      }
    }

    /** badblocks_set, inserting what is left. */
    method InsertPhase(ghost w: Work, hi: nat, s0: nat, n0: nat, ack: bool) returns (ok: bool)
      requires page.Length == MAX_BADBLOCKS && count <= page.Length
      requires Table() == w.p + w.c && hi == |w.p| && s0 == w.s && n0 == w.n
      modifies this`count, page
      ensures count <= page.Length
      ensures (Table(), ok) == InsertRest(w, ack)
    {
      ghost var v := w;
      var s, n := s0, n0;
      ok := true;
      while n > 0
        invariant page.Length == MAX_BADBLOCKS && count <= page.Length && ok
        invariant Table() == v.p + v.c && hi == |v.p| && s == v.s && n == v.n
        invariant InsertRest(v, ack) == InsertRest(w, ack)
      {
        if count >= MAX_BADBLOCKS {
          ok := false;
          break;
        }
        var k := Min(n, MAX_LEN);
        InsertAt(hi, Entry(s, k, ack));
        ghost var c := [Entry(s, k, ack)] + v.c;
        assert Table() == v.p + c;
        v := Work(v.p, c, s + k, n - k);
        s, n := s + k, n - k;
      }
    }

    /** Where the range goes: behind the ranges that start at or before s. */
    method FindSlot(s: nat) returns (hi: nat)
      requires count <= page.Length && Good(Table())
      ensures hi == Rank(Table(), s + 1) <= count
    {
      var lo;
      lo, hi := Search(s + 1);
      if hi > lo && page[lo].start > s {
        hi := lo;
      }
    }

    /** The first two phases. */
    method Merge(ghost w: Work, hi: nat, s: nat, n: nat, ack: bool) returns (hi': nat, s': nat, n': nat)
      requires count <= page.Length && Table() == w.p + w.c && hi == |w.p| && s == w.s && n == w.n
      modifies page
      ensures
        var v := MergeHigh(MergeLow(w, ack), ack);
        Table() == v.p + v.c && hi' == |v.p| && s' == v.s && n' == v.n
    {
      s', n' := LowPhase(w, hi, s, n, ack);
      ghost var v := MergeLow(w, ack);
      hi', s', n' := HighPhase(v, hi, s', n', ack);
    }

    /** The last two phases. */
    method Finish(ghost w: Work, hi: nat, s: nat, n: nat, ack: bool) returns (ok: bool)
      requires page.Length == MAX_BADBLOCKS && count <= page.Length
      requires Table() == w.p + w.c && hi == |w.p| && s == w.s && n == w.n
      modifies this`count, page
      ensures count <= page.Length
      ensures (Table(), ok) == InsertRest(Combine(w), ack)
    {
      CombinePhase(w, hi, s, n);
      ok := InsertPhase(Combine(w), hi, s, n, ack);
    }

    /** The table part of badblocks_set. */
    method SetTable(s: nat, sectors: nat, acknowledged: bool) returns (ok: bool)
      requires page.Length == MAX_BADBLOCKS && count <= page.Length && Good(Table())
      modifies this`count, page
      ensures count <= page.Length
      ensures (Table(), ok) == SetRange(old(Table()), s, sectors, acknowledged)
    {
      var hi := FindSlot(s);
      ghost var w := Start(Table(), s, sectors);
      assert Table() == w.p + w.c;
      ok := AllPhases(w, hi, s, sectors, acknowledged);
    }

    method AllPhases(ghost w: Work, hi: nat, s: nat, n: nat, ack: bool) returns (ok: bool)
      requires page.Length == MAX_BADBLOCKS && count <= page.Length
      requires Table() == w.p + w.c && hi == |w.p| && s == w.s && n == w.n
      modifies this`count, page
      ensures count <= page.Length
      ensures (Table(), ok) == SetFrom(w, ack)
    {
      var hi', s', n' := Merge(w, hi, s, n, ack);
      ok := Finish(MergeHigh(MergeLow(w, ack), ack), hi', s', n', ack);
    }

    /** badblocks_set (shift 0): the table becomes SetRange of the old one. */
    method Set(s: nat, sectors: nat, acknowledged: bool) returns (ok: bool)
      requires Valid() && Good(Table())
      modifies this, page
      ensures Valid() && changed
      ensures (Table(), ok) == SetRange(old(Table()), s, sectors, acknowledged)
      ensures if acknowledged then unackedExist == AnyUnacked(Table()) else unackedExist
    {
      ghost var t := Table();
      ok := SetTable(s, sectors, acknowledged);
      changed := true;
      if !acknowledged {
        unackedExist := true;
      } else {
        if !AnyUnacked(t) {
          SetKeepsAcked(t, s, sectors);
        }
        UpdateAcked();
      }
    }

    /** badblocks_clear, the loop: trim or drop the ranges of p from its end on.  Afterwards the entries up
        to `lo` are what is left of p. */
    method Trim(ghost p: seq<Entry>, ghost q: seq<Entry>, hi: nat, s: nat, target: nat) returns (lo: int)
      requires count <= page.Length && Table() == p + q && hi == |p| && s <= target && Good(p)
      requires Ready(p, target)
      modifies page
      ensures -1 <= lo < hi
      ensures Table()[..lo + 1] == Minus(p, s, target) && Table()[hi..] == q
    {
      lo := hi - 1;
      while lo >= 0 && page[lo].End() > s && page[lo].start < target
        invariant -1 <= lo < hi && Table() == p + q
        invariant forall i :: lo < i < |p| ==> s <= p[i].start && p[i].End() <= target
      {
        assert page[lo] == Table()[lo] == p[lo];
        if page[lo].start < s {
          var start, ack := page[lo].start, page[lo].ack;
          MinusTrims(p, lo, s, target);
          page[lo] := Entry(start, s - start, ack);
          assert Table() == (p + q)[lo := Entry(start, s - start, ack)];
          return;
        }
        lo := lo - 1;
      }
      if lo >= 0 {
        assert page[lo] == Table()[lo] == p[lo];
        if page[lo].start >= target && page[lo].End() > s {
          assert LenOk(p[0]);
          MinusAfter(p, s, target);
        } else {
          MinusKeeps(p, lo + 1, s, target);
        }
      } else {
        MinusKeeps(p, 0, s, target);
      }
    }

    /** memmove, then both parts of a range that is split in two. */
    method PutTwo(k: nat, head: Entry, tail: Entry)
      requires k < count < page.Length
      modifies this`count, page
      ensures count == old(count) + 1
      ensures Table() == old(Table()[..k]) + [head] + ([tail] + old(Table()[k + 1..]))
    {
      InsertAt(k, head);
      page[k + 1] := tail;
    }

    method Put(k: nat, e: Entry)
      requires k < count <= page.Length
      modifies page
      ensures Table() == old(Table()[..k]) + ([e] + old(Table()[k + 1..]))
    {
      page[k] := e;
    }

    /** badblocks_clear, the first step: the last range that starts before `target` may reach beyond it;
        then its tail stays, and perhaps its head too.  Afterwards the entries from `hi` on are kept as
        they are, and those before `hi` are still to be trimmed. */
    method SplitTail(s: nat, target: nat, k: nat) returns (ok: bool, hi: nat, ghost p: seq<Entry>, ghost q: seq<Entry>)
      requires page.Length == MAX_BADBLOCKS && k < count <= page.Length && s <= target && Good(Table())
      requires k > 0 ==> page[k].start < target
      requires k + 1 < count ==> target <= page[k + 1].start
      modifies this`count, page
      ensures count <= page.Length
      ensures !ok ==> count == MAX_BADBLOCKS && Table() == old(Table())
      ensures !ok ==> old(page[k]).start < s && target < old(page[k]).End()
      ensures ok ==> Table() == p + q && hi == |p| && Good(p) && Ready(p, target)
      ensures ok ==> Minus(old(Table()), s, target) == Minus(p, s, target) + q
    {
      ghost var t := Table();
      var x := page[k];
      assert t[k] == x && LenOk(x);
      ok, hi, p, q := true, k + 1, t[..k] + [x], t[k + 1..];
      if x.End() > target && x.start < target {
        var tail := Entry(target, x.End() - target, x.ack);
        q := [tail] + t[k + 1..];
        if x.start < s {
          if count >= MAX_BADBLOCKS {
            ok := false;
            return;
          }
          var head := Entry(x.start, s - x.start, x.ack);
          HeadAndTail(t, k, s, target, head, tail);
          p := t[..k] + [head];
          PutTwo(k, head, tail);
        } else {
          TailOnly(t, k, s, target);
          hi, p := k, t[..k];
          Put(k, tail);
        }
      } else {
        WholeOnly(t, k, s, target);
      }
    }

    /** badblocks_clear: the entries that were dropped are closed up. */
    method TrimAndClose(ghost p: seq<Entry>, ghost q: seq<Entry>, hi: nat, s: nat, target: nat)
      requires count <= page.Length && Table() == p + q && hi == |p| && s <= target && Good(p)
      requires Ready(p, target)
      modifies this`count, page
      ensures count <= page.Length && Table() == Minus(p, s, target) + q
    {
      var l := Trim(p, q, hi, s, target);
      assert Table() == Table()[..hi] + Table()[hi..];
      if hi - l > 1 {
        RemoveRange(l + 1, hi);
      }
    }

    /** The table part of badblocks_clear. */
    method ClearTable(s: nat, target: nat) returns (ok: bool)
      requires page.Length == MAX_BADBLOCKS && count <= page.Length && s <= target && Good(Table())
      modifies this`count, page
      ensures count <= page.Length
      ensures ok ==> Table() == Minus(old(Table()), s, target)
      ensures !ok ==> Table() == old(Table()) && count == MAX_BADBLOCKS
      ensures !ok ==> exists i :: 0 <= i < |Table()| && Table()[i].start < s && target < Table()[i].End()
    {
      ghost var t := Table();
      var lo, hi := Search(target);
      ok := true;
      if hi > lo {
        RankSplits(t, target);
        ghost var p, q;
        ok, hi, p, q := SplitTail(s, target, lo);
        if !ok {
          assert t[lo].start < s && target < t[lo].End();
          return;
        }
        TrimAndClose(p, q, hi, s, target);
      }
    }

    /** badblocks_clear (shift 0): exactly [s, s + sectors) is removed, unless a range has to be split in
        two and the table is full. */
    method Clear(s: nat, sectors: nat) returns (ok: bool)
      requires Valid() && Good(Table())
      modifies this, page
      ensures Valid()
      ensures ok ==> Table() == Minus(old(Table()), s, s + sectors) && changed && unackedExist == AnyUnacked(Table())
      ensures !ok ==> Table() == old(Table()) && count == MAX_BADBLOCKS
      ensures !ok ==> unackedExist == old(unackedExist) && changed == old(changed)
      ensures !ok ==> exists i :: 0 <= i < |Table()| && Table()[i].start < s && s + sectors < Table()[i].End()
    {
      ghost var t := Table();
      ok := ClearTable(s, s + sectors);
      if ok {
        if !AnyUnacked(t) {
          MinusKeepsAcked(t, s, s + sectors);
        }
        UpdateAcked();
        changed := true;
      }
    }
  }

  /** The ranges still to be trimmed do not reach beyond `target`, or there is just one and it lies beyond. */
  predicate Ready(p: seq<Entry>, target: int) {
    (forall i :: 0 <= i < |p| ==> p[i].End() <= target) || (|p| == 1 && target <= p[0].start)
  }

  lemma AllAfter(t: seq<Entry>, k: nat, target: int)
    requires Good(t) && k < |t| && target <= t[k].start
    ensures forall i :: 0 <= i < |t| - k ==> LenOk(t[k..][i]) && target <= t[k..][i].start
  {
    forall i | 0 <= i < |t| - k ensures LenOk(t[k..][i]) && target <= t[k..][i].start {
      assert LenOk(t[k]);
      if i > 0 {
        Ordered(t, k, k + i);
      }
    }
  }

  lemma Around(t: seq<Entry>, k: nat, s: nat, target: nat)
    requires Good(t) && k < |t| && s <= target && (k + 1 < |t| ==> target <= t[k + 1].start)
    ensures Minus(t, s, target) == Minus(t[..k], s, target) + (Remains(t[k], s, target) + t[k + 1..])
  {
    var a, x, c := t[..k], t[k], t[k + 1..];
    assert t == a + ([x] + c);
    MinusPlus(a, [x] + c, s, target);
    assert ([x] + c)[1..] == c;
    if k + 1 < |t| {
      AllAfter(t, k + 1, target);
      MinusAfter(c, s, target);
    }
  }

  lemma Before(t: seq<Entry>, k: nat)
    requires Good(t) && k < |t|
    ensures Good(t[..k]) && forall i :: 0 <= i < k ==> t[i].End() <= t[k].start
  {
    GoodSlice(t, 0, k);
    forall i | 0 <= i < k ensures t[i].End() <= t[k].start {
      Ordered(t, i, k);
    }
  }

  lemma HeadGood(t: seq<Entry>, k: nat, s: nat, head: Entry)
    requires Good(t) && k < |t| && t[k].start < s < t[k].End() && head == Entry(t[k].start, s - t[k].start, t[k].ack)
    ensures Good(t[..k] + [head])
    ensures forall i :: 0 <= i <= k ==> (t[..k] + [head])[i].End() <= s
  {
    assert LenOk(t[k]);
    Before(t, k);
    SnocGood(t[..k], head);
  }

  lemma Regroup(a: seq<Entry>, head: Entry, tail: Entry, c: seq<Entry>)
    ensures a + ([head, tail] + c) == a + [head] + ([tail] + c)
  {
  }

  lemma MiddleCutOut(t: seq<Entry>, k: nat, s: nat, target: nat, head: Entry, tail: Entry)
    requires Good(t) && k < |t| && s <= target && (k + 1 < |t| ==> target <= t[k + 1].start)
    requires t[k].start < s && target < t[k].End()
    requires head == Entry(t[k].start, s - t[k].start, t[k].ack) && tail == Entry(target, t[k].End() - target, t[k].ack)
    ensures Minus(t, s, target) == t[..k] + [head] + ([tail] + t[k + 1..])
  {
    Before(t, k);
    MinusBefore(t[..k], s, target);
    Around(t, k, s, target);
    Regroup(t[..k], head, tail, t[k + 1..]);
  }

  lemma HeadAndTail(t: seq<Entry>, k: nat, s: nat, target: nat, head: Entry, tail: Entry)
    requires Good(t) && k < |t| && s <= target && (k + 1 < |t| ==> target <= t[k + 1].start)
    requires t[k].start < s && target < t[k].End()
    requires head == Entry(t[k].start, s - t[k].start, t[k].ack) && tail == Entry(target, t[k].End() - target, t[k].ack)
    ensures
      var p := t[..k] + [head];
      Good(p) && Ready(p, target) && Minus(t, s, target) == Minus(p, s, target) + ([tail] + t[k + 1..])
  {
    HeadGood(t, k, s, head);
    MinusBefore(t[..k] + [head], s, target);
    MiddleCutOut(t, k, s, target, head, tail);
  }

  lemma TailOnly(t: seq<Entry>, k: nat, s: nat, target: nat)
    requires Good(t) && k < |t| && s <= target && (k + 1 < |t| ==> target <= t[k + 1].start)
    requires s <= t[k].start < target < t[k].End()
    ensures
      var x := t[k];
      && Good(t[..k]) && Ready(t[..k], target)
      && Minus(t, s, target) == Minus(t[..k], s, target) + ([Entry(target, x.End() - target, x.ack)] + t[k + 1..])
  {
    Before(t, k);
    Around(t, k, s, target);
    assert Remains(t[k], s, target) == [Entry(target, t[k].End() - target, t[k].ack)];
  }

  lemma WholeOnly(t: seq<Entry>, k: nat, s: nat, target: nat)
    requires Good(t) && k < |t| && s <= target && (k + 1 < |t| ==> target <= t[k + 1].start)
    requires k > 0 ==> t[k].start < target
    requires t[k].End() <= target || target <= t[k].start
    ensures
      var p := t[..k] + [t[k]];
      Good(p) && Ready(p, target) && Minus(t, s, target) == Minus(p, s, target) + t[k + 1..]
  {
    var x := t[k];
    assert LenOk(x);
    Before(t, k);
    Around(t, k, s, target);
    SnocGood(t[..k], x);
    MinusPlus(t[..k], [x], s, target);
    assert Minus([x], s, target) == Remains(x, s, target) + [];
  }

  lemma {:induction false} MinusKeepsAcked(t: seq<Entry>, s: int, e: int)
    requires 0 <= s <= e && !AnyUnacked(t)
    ensures !AnyUnacked(Minus(t, s, e))
  {
    if t != [] {
      assert !AnyUnacked(t[1..]);
      MinusKeepsAcked(t[1..], s, e);
    }
  }
}
