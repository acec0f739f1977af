/** The bad-block table (block/badblocks.c): what it means, and the pure part of its operations.

    The table is a page of 64-bit words, each a range of 1 to 512 sectors with an "acknowledged" flag,
    kept sorted and disjoint.  Shift is 0 throughout. */
module BadBlocks {
  import opened Arith

  const MAX_LEN: nat := 512
  const MAX_BADBLOCKS: nat := 512

  datatype Entry = Entry(start: nat, len: int, ack: bool) {
    function End(): int {
      start + len
    }
  }

  // ---------------------------------------------------------------------------------------------
  // The 64-bit encoding
  // ---------------------------------------------------------------------------------------------

  const ACK_BIT: nat := 0x8000_0000_0000_0000

  /** BB_MAKE */
  function Pack(e: Entry): int {
    e.start * 512 + (e.len - 1) + if e.ack then ACK_BIT else 0
  }

  /** BB_OFFSET, BB_LEN, BB_ACK */
  function Unpack(w: nat): Entry {
    Entry(w % ACK_BIT / 512, w % 512 + 1, w / ACK_BIT % 2 == 1)
  }

  /** 54 bits of sector number, 9 of length and one flag: the encoding loses nothing. */
  lemma PackRoundTrip(e: Entry)
    requires e.start < 0x40_0000_0000_0000 && 1 <= e.len <= MAX_LEN
    ensures 0 <= Pack(e) < 2 * ACK_BIT && Unpack(Pack(e)) == e
  {
  }

  // ---------------------------------------------------------------------------------------------
  // Tables
  // ---------------------------------------------------------------------------------------------

  predicate LenOk(e: Entry) {
    1 <= e.len <= MAX_LEN
  }

  /** Sorted and disjoint (ranges may touch), with lengths 1 to 512. */
  predicate Good(t: seq<Entry>) {
    && (forall i :: 0 <= i < |t| ==> LenOk(t[i]))
    && (forall i :: 0 <= i < |t| - 1 ==> t[i].End() <= t[i + 1].start)
  }

  predicate Covers(e: Entry, x: int) {
    e.start <= x < e.End()
  }

  /** Sector x is recorded as bad. */
  predicate Bad(t: seq<Entry>, x: int) {
    exists i :: 0 <= i < |t| && Covers(t[i], x)
  }

  /** Sector x is recorded as bad with this flag. */
  predicate Holds(t: seq<Entry>, x: int, ack: bool) {
    exists i :: 0 <= i < |t| && Covers(t[i], x) && t[i].ack == ack
  }

  lemma {:induction false} Ordered(t: seq<Entry>, i: nat, j: nat)
    requires Good(t) && i < j < |t|
    ensures t[i].End() <= t[j].start
    decreases j - i
  {
    if i + 1 < j {
      Ordered(t, i + 1, j);
      assert LenOk(t[i + 1]);
    }
  }

  lemma HoldsPlus(a: seq<Entry>, b: seq<Entry>, x: int, ack: bool)
    ensures Holds(a + b, x, ack) <==> Holds(a, x, ack) || Holds(b, x, ack)
  {
    if Holds(a, x, ack) {
      var i :| 0 <= i < |a| && Covers(a[i], x) && a[i].ack == ack;
      assert (a + b)[i] == a[i];
    }
    if Holds(b, x, ack) {
      var i :| 0 <= i < |b| && Covers(b[i], x) && b[i].ack == ack;
      assert (a + b)[|a| + i] == b[i];
    }
  }

  lemma BadPlus(a: seq<Entry>, b: seq<Entry>, x: int)
    ensures Bad(a + b, x) <==> Bad(a, x) || Bad(b, x)
  {
    if Bad(a, x) {
      var i :| 0 <= i < |a| && Covers(a[i], x);
      assert (a + b)[i] == a[i];
    }
    if Bad(b, x) {
      var i :| 0 <= i < |b| && Covers(b[i], x);
      assert (a + b)[|a| + i] == b[i];
    }
  }

  /** Two good tables, the second after the first. */
  lemma GoodPlus(a: seq<Entry>, b: seq<Entry>)
    requires Good(a) && Good(b)
    requires a != [] && b != [] ==> a[|a| - 1].End() <= b[0].start
    ensures Good(a + b)
  {
    var c := a + b;
    forall i | 0 <= i < |c| ensures LenOk(c[i]) {
      assert c[i] == if i < |a| then a[i] else b[i - |a|];
    }
    forall i | 0 <= i < |c| - 1 ensures c[i].End() <= c[i + 1].start {
      assert c[i] == if i < |a| then a[i] else b[i - |a|];
      assert c[i + 1] == if i + 1 < |a| then a[i + 1] else b[i + 1 - |a|];
    }
  }

  lemma GoodSlice(t: seq<Entry>, i: nat, j: nat)
    requires Good(t) && i <= j <= |t|
    ensures Good(t[i..j])
  {
  }

  // ---------------------------------------------------------------------------------------------
  // Clearing: what should be left
  // ---------------------------------------------------------------------------------------------

  /** What is left of one range after removing [s, e). */
  function Remains(r: Entry, s: int, e: int): seq<Entry>
    requires 0 <= s <= e
  {
    (if r.start < s then [r.(len := Min(r.End(), s) - r.start)] else [])
    + if r.End() > e then [Entry(Max(r.start, e), r.End() - Max(r.start, e), r.ack)] else []
  }

  function Minus(t: seq<Entry>, s: int, e: int): seq<Entry>
    requires 0 <= s <= e
  {
    if t == [] then [] else Remains(t[0], s, e) + Minus(t[1..], s, e)
  }

  lemma RemainsHolds(r: Entry, s: int, e: int, x: int, ack: bool)
    requires 0 <= s <= e && LenOk(r)
    ensures Holds(Remains(r, s, e), x, ack) <==> Covers(r, x) && r.ack == ack && !(s <= x < e)
  {
    var m := Remains(r, s, e);
    if Covers(r, x) && r.ack == ack && !(s <= x < e) {
      if x < s {
        assert Covers(m[0], x);
      } else {
        assert Covers(m[|m| - 1], x);
      }
    }
  }

  /** Minus removes exactly the sectors of [s, e) and keeps the flag of every other sector. */
  lemma {:induction false} MinusHolds(t: seq<Entry>, s: int, e: int, x: int, ack: bool)
    requires Good(t) && 0 <= s <= e
    ensures Holds(Minus(t, s, e), x, ack) <==> Holds(t, x, ack) && !(s <= x < e)
  {
    if t != [] {
      assert LenOk(t[0]);
      GoodSlice(t, 1, |t|);
      MinusHolds(t[1..], s, e, x, ack);
      HoldsPlus(Remains(t[0], s, e), Minus(t[1..], s, e), x, ack);
      RemainsHolds(t[0], s, e, x, ack);
      HoldsPlus([t[0]], t[1..], x, ack);
      assert t == [t[0]] + t[1..];
      assert Holds([t[0]], x, ack) <==> Covers(t[0], x) && t[0].ack == ack by {
        assert [t[0]][0] == t[0];
      }
    }
  }

  lemma RemainsGood(r: Entry, s: int, e: int)
    requires 0 <= s <= e && LenOk(r)
    ensures Good(Remains(r, s, e))
    ensures Remains(r, s, e) != [] ==>
      var m := Remains(r, s, e);
      r.start <= m[0].start && m[|m| - 1].End() <= r.End()
  {
  }

  lemma {:induction false} MinusGood(t: seq<Entry>, s: int, e: int)
    requires Good(t) && 0 <= s <= e
    ensures Good(Minus(t, s, e))
    ensures Minus(t, s, e) != [] ==> t != [] && t[0].start <= Minus(t, s, e)[0].start
  {
    if t != [] {
      assert LenOk(t[0]);
      GoodSlice(t, 1, |t|);
      RemainsGood(t[0], s, e);
      MinusGood(t[1..], s, e);
      GoodPlus(Remains(t[0], s, e), Minus(t[1..], s, e));
    }
  }

  lemma {:induction false} MinusPlus(a: seq<Entry>, b: seq<Entry>, s: int, e: int)
    requires 0 <= s <= e
    ensures Minus(a + b, s, e) == Minus(a, s, e) + Minus(b, s, e)
  {
    if a == [] {
      assert a + b == b;
    } else {
      assert (a + b)[1..] == a[1..] + b;
      MinusPlus(a[1..], b, s, e);
    }
  }

  lemma {:induction false} MinusBefore(t: seq<Entry>, s: int, e: int)
    requires 0 <= s <= e && forall i :: 0 <= i < |t| ==> LenOk(t[i]) && t[i].End() <= s
    ensures Minus(t, s, e) == t
  {
    if t != [] {
      assert LenOk(t[0]) && t[0].End() <= s;
      MinusBefore(t[1..], s, e);
    }
  }

  lemma {:induction false} MinusAfter(t: seq<Entry>, s: int, e: int)
    requires 0 <= s <= e && forall i :: 0 <= i < |t| ==> LenOk(t[i]) && e <= t[i].start
    ensures Minus(t, s, e) == t
  {
    if t != [] {
      assert LenOk(t[0]) && e <= t[0].start;
      MinusAfter(t[1..], s, e);
    }
  }

  lemma {:induction false} MinusInside(t: seq<Entry>, s: int, e: int)
    requires 0 <= s <= e && forall i :: 0 <= i < |t| ==> s <= t[i].start && t[i].End() <= e
    ensures Minus(t, s, e) == []
  {
    if t != [] {
      MinusInside(t[1..], s, e);
    }
  }

  /** Ranges that lie inside [s, e) at the end of a table just disappear. */
  lemma MinusCut(p: seq<Entry>, m: nat, s: int, e: int)
    requires 0 <= s <= e && m <= |p|
    requires forall i :: m <= i < |p| ==> s <= p[i].start && p[i].End() <= e
    ensures Minus(p, s, e) == Minus(p[..m], s, e)
  {
    assert p == p[..m] + p[m..];
    MinusPlus(p[..m], p[m..], s, e);
    MinusInside(p[m..], s, e);
  }

  /** ... and those before it stay. */
  lemma MinusKeeps(p: seq<Entry>, m: nat, s: int, e: int)
    requires Good(p) && 0 <= s <= e && m <= |p|
    requires forall i :: m <= i < |p| ==> s <= p[i].start && p[i].End() <= e
    requires m > 0 ==> p[m - 1].End() <= s
    ensures Minus(p, s, e) == p[..m]
  {
    MinusCut(p, m, s, e);
    forall i | 0 <= i < m ensures LenOk(p[i]) && p[i].End() <= s {
      if i < m - 1 {
        Ordered(p, i, m - 1);
        assert LenOk(p[m - 1]);
      }
    }
    MinusBefore(p[..m], s, e);
  }

  /** A range that begins before s keeps its first part. */
  lemma MinusTrims(p: seq<Entry>, m: nat, s: int, e: int)
    requires Good(p) && 0 <= s <= e && m < |p|
    requires forall i :: m < i < |p| ==> s <= p[i].start && p[i].End() <= e
    requires p[m].start < s < p[m].End() <= e
    ensures Minus(p, s, e) == p[..m] + [p[m].(len := s - p[m].start)]
  {
    MinusCut(p, m + 1, s, e);
    assert p[..m + 1] == p[..m] + [p[m]];
    MinusPlus(p[..m], [p[m]], s, e);
    forall i | 0 <= i < m ensures LenOk(p[i]) && p[i].End() <= s {
      Ordered(p, i, m);
    }
    MinusBefore(p[..m], s, e);
    assert Minus([p[m]], s, e) == Remains(p[m], s, e) + [] == [p[m].(len := s - p[m].start)];
  }
}
