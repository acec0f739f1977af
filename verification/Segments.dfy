/** Counting the physical segments of a request and mapping it to a scatterlist (block/blk-merge.c).

    Memory is modelled as byte addresses.  A mask of the code is represented by mask + 1, a power of
    two there: `x & mask` is `x % (mask + 1)` and `x | mask` identifies `x / (mask + 1)`. */
module Segments {
  import opened Arith

  const SECTOR: nat := 512
  const UINT_MAX: nat := 0xFFFF_FFFF
  const WORD: nat := 0x1_0000_0000_0000_0000

  /** The limits of a queue that matter for segments. `virt` is 1 when there is no virt boundary. */
  datatype Limits = Limits(page: nat, boundary: nat, maxSeg: nat, virt: nat)

  /** UINT_MAX is the segment size of a queue with a virt boundary (blk_queue_virt_boundary). */
  predicate Sound(q: Limits) {
    && 0 < q.page && q.page % SECTOR == 0
    && 0 < q.boundary <= WORD && q.boundary % q.page == 0
    && q.page <= q.maxSeg <= UINT_MAX && (q.maxSeg % SECTOR == 0 || q.maxSeg == UINT_MAX)
    && 0 < q.virt
  }

  /** struct bio_vec: `len` bytes from `off` on in the physically contiguous pages starting at `page`. */
  datatype BVec = BVec(page: nat, off: nat, len: nat) {
    function Addr(): nat {
      page + off
    }
  }

  predicate VecOk(q: Limits, v: BVec)
    requires 0 < q.page
  {
    v.page % q.page == 0 && v.off % SECTOR == 0 && v.len % SECTOR == 0 && 0 < v.len <= UINT_MAX
  }

  predicate VecsOk(q: Limits, vs: seq<BVec>)
    requires 0 < q.page
  {
    forall i :: 0 <= i < |vs| ==> VecOk(q, vs[i])
  }

  /** A scatterlist entry. */
  datatype Sg = Sg(page: nat, off: nat, len: nat) {
    function Addr(): nat {
      page + off
    }
  }

  function MinNotZero(x: nat, y: nat): nat {
    if x == 0 then y else if y == 0 then x else if x < y then x else y
  }

  /** How far a segment starting at `addr` may reach: to the end of its window, and not beyond the maximal size. */
  function MaxSegmentSize(q: Limits, addr: nat): (r: nat)
    requires Sound(q)
    ensures 0 < r <= q.maxSeg && addr % q.boundary + r <= q.boundary
    ensures r == q.maxSeg || addr % q.boundary + r == q.boundary
  {
    Min(q.boundary - addr % q.boundary, q.maxSeg)
  }

  /** get_max_segment_size: the wrap-around of a 64-bit unsigned long does no harm. */
  function GetMaxSegmentSize(q: Limits, addr: nat): (r: nat)
    requires Sound(q)
    ensures r == MaxSegmentSize(q, addr)
  {
    WindowLeft(q.boundary, addr);
    MinNotZero((q.boundary - addr % q.boundary) % WORD, q.maxSeg)
  }

  lemma WindowLeft(boundary: nat, addr: nat)
    requires 0 < boundary <= WORD
    ensures
      var left := boundary - addr % boundary;
      0 < left <= WORD && left % WORD == if left == WORD then 0 else left
  {
  }

  // ---------------------------------------------------------------------------------------------
  // Reference: cutting an address range greedily into segments
  // ---------------------------------------------------------------------------------------------

  /** A contiguous range of addresses. */
  datatype Range = Range(addr: nat, len: nat)

  function Cuts(q: Limits, addr: nat, len: nat): seq<Range>
    requires Sound(q)
    decreases len
  {
    if len == 0 then []
    else
      var n := Min(MaxSegmentSize(q, addr), len);
      [Range(addr, n)] + Cuts(q, addr + n, len - n)
  }

  /** The addresses addr, addr + 1, ..., in order. */
  function Span(addr: nat, len: nat): seq<nat> {
    if len == 0 then [] else Span(addr, len - 1) + [addr + len - 1]
  }

  function VecBytes(vs: seq<BVec>): seq<nat> {
    if vs == [] then [] else Span(vs[0].Addr(), vs[0].len) + VecBytes(vs[1..])
  }

  function SgBytes(l: seq<Sg>): seq<nat> {
    if l == [] then [] else SgBytes(l[..|l| - 1]) + Span(l[|l| - 1].Addr(), l[|l| - 1].len)
  }

  function Bytes(vs: seq<BVec>): nat {
    if vs == [] then 0 else vs[0].len + Bytes(vs[1..])
  }

  /** Segments of a list of vectors: what blk_recalc_rq_segments is meant to count. */
  function SegCount(q: Limits, vs: seq<BVec>): nat
    requires Sound(q)
  {
    if vs == [] then 0 else |Cuts(q, vs[0].Addr(), vs[0].len)| + SegCount(q, vs[1..])
  }

  function Concat(bios: seq<seq<BVec>>): seq<BVec> {
    if bios == [] then [] else bios[0] + Concat(bios[1..])
  }

  /** What a driver may be given as one entry. */
  predicate Fits(q: Limits, addr: nat, len: nat)
    requires 0 < q.boundary
  {
    0 < len <= q.maxSeg && addr % q.boundary + len <= q.boundary
  }

  function End(e: Sg): nat {
    e.Addr() + e.len
  }

  function VecEnd(v: BVec): nat {
    v.Addr() + v.len
  }

  /** biovec_phys_mergeable: adjacent, and both within one boundary window. */
  predicate PhysMergeable(q: Limits, u: BVec, v: BVec)
    requires 0 < q.boundary
  {
    VecEnd(u) == v.Addr() && u.Addr() / q.boundary == (VecEnd(v) - 1) / q.boundary
  }

  /** __bvec_gap_to_prev: would a vector at offset `off` after u leave a gap the device cannot take? */
  predicate Gap(q: Limits, u: BVec, off: nat)
    requires 0 < q.virt
  {
    off % q.virt != 0 || (u.off + u.len) % q.virt != 0
  }

  /** Can v follow u, from one bio to the next? */
  predicate Meets(q: Limits, u: BVec, v: BVec)
    requires 0 < q.boundary && 0 < q.virt
  {
    PhysMergeable(q, u, v) || !Gap(q, u, v.off)
  }

  predicate GapFree(q: Limits, vs: seq<BVec>)
    requires 0 < q.virt
  {
    forall i :: 0 < i < |vs| ==> !Gap(q, vs[i - 1], vs[i].off)
  }

  /** An entry at `addr` leaves no gap after those of l. */
  predicate Clear(q: Limits, l: seq<Sg>, addr: nat)
    requires 0 < q.virt
  {
    l == [] || (End(l[|l| - 1]) % q.virt == 0 && addr % q.virt == 0)
  }

  /** What a device with a virt boundary asks for: only the first entry starts and only the last entry ends off the
      boundary. */
  predicate SgGapFree(q: Limits, l: seq<Sg>)
    requires 0 < q.virt
  {
    l == [] || (SgGapFree(q, l[..|l| - 1]) && Clear(q, l[..|l| - 1], l[|l| - 1].Addr()))
  }

  /** ... and the offset of an entry stays within its first page. */
  predicate SgOk(q: Limits, e: Sg)
    requires 0 < q.boundary
  {
    Fits(q, e.Addr(), e.len) && e.off < q.page
  }

  predicate AllSgOk(q: Limits, l: seq<Sg>)
    requires 0 < q.boundary
  {
    forall i :: 0 <= i < |l| ==> SgOk(q, l[i])
  }

  lemma {:induction false} SpanLength(a: nat, n: nat)
    ensures |Span(a, n)| == n
  {
    if n > 0 {
      SpanLength(a, n - 1);
    }
  }

  lemma {:induction false} VecBytesLength(vs: seq<BVec>)
    ensures |VecBytes(vs)| == Bytes(vs)
  {
    if vs != [] {
      SpanLength(vs[0].Addr(), vs[0].len);
      VecBytesLength(vs[1..]);
    }
  }

  lemma {:induction false} SpanPlus(a: nat, n: nat, m: nat)
    ensures Span(a, n) + Span(a + n, m) == Span(a, n + m)
  {
    if m > 0 {
      SpanPlus(a, n, m - 1);
    }
  }

  lemma {:induction false} VecBytesPlus(a: seq<BVec>, b: seq<BVec>)
    ensures VecBytes(a + b) == VecBytes(a) + VecBytes(b)
  {
    if a == [] {
      assert a + b == b;
    } else {
      assert (a + b)[1..] == a[1..] + b;
      VecBytesPlus(a[1..], b);
    }
  }

  lemma {:induction false} BytesPlus(a: seq<BVec>, b: seq<BVec>)
    ensures Bytes(a + b) == Bytes(a) + Bytes(b)
  {
    if a == [] {
      assert a + b == b;
    } else {
      assert (a + b)[1..] == a[1..] + b;
      BytesPlus(a[1..], b);
    }
  }

  lemma {:induction false} SegCountPlus(q: Limits, a: seq<BVec>, b: seq<BVec>)
    requires Sound(q)
    ensures SegCount(q, a + b) == SegCount(q, a) + SegCount(q, b)
  {
    if a == [] {
      assert a + b == b;
    } else {
      assert (a + b)[1..] == a[1..] + b;
      SegCountPlus(q, a[1..], b);
    }
  }

  /** A vector inside one page is one segment: the shortcut of the mapper and of the splitter. */
  lemma OnePageIsOneSegment(q: Limits, v: BVec)
    requires Sound(q) && VecOk(q, v) && v.off + v.len <= q.page
    ensures Cuts(q, v.Addr(), v.len) == [Range(v.Addr(), v.len)]
    ensures Fits(q, v.Addr(), v.len)
  {
    var b, p, a := q.boundary, q.page, v.Addr();
    // the page of v ends at a multiple of p, so not beyond the window of b
    ModMod(a, p, b);
    ModPlus(v.page, v.off, p);
    assert a % p == v.off;
    WindowEndsOnPage(a % b, p, b);
  }

  lemma WindowEndsOnPage(x: nat, p: nat, b: nat)
    requires 0 < p && b % p == 0 && x < b
    ensures x - x % p + p <= b
  {
    // b - (x - x % p) is a positive multiple of p
    var k := b / p - x / p;
    assert x - x % p == (x / p) * p && b == (b / p) * p;
    assert k * p == b - (x - x % p);
    MulAtLeast(k, p);
  }

  lemma BoundaryIsSectors(q: Limits)
    requires Sound(q)
    ensures q.boundary % SECTOR == 0
  {
    ModMod(q.boundary, SECTOR, q.page);
  }

  /** Every segment size is a whole number of sectors, unless it is not limited at all. */
  lemma CutIsSectors(q: Limits, addr: nat)
    requires Sound(q) && addr % SECTOR == 0
    ensures MaxSegmentSize(q, addr) % SECTOR == 0 || MaxSegmentSize(q, addr) == UINT_MAX
  {
    BoundaryIsSectors(q);
    var r := addr % q.boundary;
    assert r % SECTOR == 0 by { ModMod(addr, SECTOR, q.boundary); }
    ModSum(q.boundary, r, SECTOR);
  }
}
