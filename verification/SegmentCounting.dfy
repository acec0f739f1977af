/** bvec_split_segs and blk_recalc_rq_segments (block/blk-merge.c). */
module SegmentCounting {
  import opened Arith
  import opened Segments

  /** How far bvec_split_segs got in one vector: segments counted, bytes taken, bytes left. */
  datatype Grown = Grown(nsegs: nat, total: nat, left: nat)

  /** The loop of bvec_split_segs. */
  function SplitLoop(q: Limits, v: BVec, nsegs: nat, total: nat, left: nat, maxSegs: nat): Grown
    requires Sound(q)
    decreases left
  {
    if left == 0 || nsegs >= maxSegs then Grown(nsegs, total, left)
    else
      var n := Min(MaxSegmentSize(q, v.Addr() + total), left);
      if (v.off + total + n) % q.virt != 0 then Grown(nsegs + 1, total + n, left - n)
      else SplitLoop(q, v, nsegs + 1, total + n, left - n, maxSegs)
  }

  /** Sectors a bio being built may still take, in bytes. */
  function Room(sectors: nat, maxSectors: nat): int {
    (Min(maxSectors, UINT_MAX / SECTOR) - sectors) * SECTOR
  }

  /** bvec_split_segs: must the vector be split, and the counters afterwards. */
  datatype SplitResult = SplitResult(split: bool, nsegs: nat, sectors: nat)

  function SplitSegs(q: Limits, v: BVec, nsegs: nat, sectors: nat, maxSegs: nat, maxSectors: nat): SplitResult
    requires Sound(q) && sectors <= Min(maxSectors, UINT_MAX / SECTOR)
  {
    var room := Room(sectors, maxSectors);
    var g := SplitLoop(q, v, nsegs, 0, Min(v.len, room), maxSegs);
    SplitResult(g.left > 0 || v.len > room, g.nsegs, sectors + g.total / SECTOR)
  }

  method BvecSplitSegs(q: Limits, v: BVec, nsegs: nat, sectors: nat, maxSegs: nat, maxSectors: nat)
    returns (split: bool, nsegs': nat, sectors': nat)
    requires Sound(q) && sectors <= Min(maxSectors, UINT_MAX / SECTOR)
    ensures SplitResult(split, nsegs', sectors') == SplitSegs(q, v, nsegs, sectors, maxSegs, maxSectors)
  {
    var maxLen := (Min(maxSectors, UINT_MAX / SECTOR) - sectors) * SECTOR;
    var len := Min(v.len, maxLen);
    var total := 0;
    nsegs' := nsegs;
    ghost var g := SplitLoop(q, v, nsegs, 0, len, maxSegs);
    while len > 0 && nsegs' < maxSegs
      invariant 0 <= len && 0 <= total
      invariant SplitLoop(q, v, nsegs', total, len, maxSegs) == g
      decreases len
    {
      var segSize := GetMaxSegmentSize(q, v.Addr() + total);
      segSize := Min(segSize, len);
      nsegs', total, len := nsegs' + 1, total + segSize, len - segSize;
      if (v.off + total) % q.virt != 0 {
        assert Grown(nsegs', total, len) == g;
        break;
      }
    }
    assert Grown(nsegs', total, len) == g;
    sectors' := sectors + total / SECTOR;
    split := len > 0 || v.len > maxLen;
  }

  /** Bytes are conserved, the segment limit is respected, and some bytes are taken if any can be. */
  lemma {:induction false} SplitLoopTakes(q: Limits, v: BVec, nsegs: nat, total: nat, left: nat, maxSegs: nat)
    requires Sound(q)
    ensures
      var g := SplitLoop(q, v, nsegs, total, left, maxSegs);
      && g.total + g.left == total + left
      && total <= g.total
      && (nsegs <= maxSegs ==> g.nsegs <= maxSegs)
      && (left > 0 && nsegs < maxSegs ==> total < g.total)
    decreases left
  {
    if left > 0 && nsegs < maxSegs {
      var n := Min(MaxSegmentSize(q, v.Addr() + total), left);
      SplitLoopTakes(q, v, nsegs + 1, total + n, left - n, maxSegs);
    }
  }

  /** What the loop counted are the segments of the bytes it took, and it stopped only when all bytes or all
      segments were used up, or a segment ended off the virt boundary. */
  predicate CountsCuts(q: Limits, v: BVec, nsegs: nat, total: nat, g: Grown, maxSegs: nat)
    requires Sound(q)
  {
    && total <= g.total
    && g.nsegs == nsegs + |Cuts(q, v.Addr() + total, g.total - total)|
    && (g.left == 0 || g.nsegs >= maxSegs || (v.off + g.total) % q.virt != 0)
  }

  lemma CountsStep(q: Limits, v: BVec, nsegs: nat, total: nat, n: nat, g: Grown, maxSegs: nat)
    requires Sound(q) && 0 < n <= MaxSegmentSize(q, v.Addr() + total)
    requires CountsCuts(q, v, nsegs + 1, total + n, g, maxSegs)
    requires n == MaxSegmentSize(q, v.Addr() + total) || n == g.total - total
    ensures CountsCuts(q, v, nsegs, total, g, maxSegs)
  {
    CutsHead(q, v.Addr() + total, n, g.total - total);
    assert v.Addr() + total + n == v.Addr() + (total + n);
  }

  lemma {:induction false} SplitLoopCounts(q: Limits, v: BVec, nsegs: nat, total: nat, left: nat, maxSegs: nat)
    requires Sound(q)
    ensures CountsCuts(q, v, nsegs, total, SplitLoop(q, v, nsegs, total, left, maxSegs), maxSegs)
    decreases left
  {
    if left > 0 && nsegs < maxSegs {
      var n := Min(MaxSegmentSize(q, v.Addr() + total), left);
      var g := SplitLoop(q, v, nsegs, total, left, maxSegs);
      if (v.off + total + n) % q.virt == 0 {
        SplitLoopTakes(q, v, nsegs + 1, total + n, left - n, maxSegs);
        SplitLoopCounts(q, v, nsegs + 1, total + n, left - n, maxSegs);
      } else {
        assert g == Grown(nsegs + 1, total + n, left - n);
      }
      CountsStep(q, v, nsegs, total, n, g, maxSegs);
    }
  }

  /** The first cut of a range is the same for every prefix that contains it. */
  lemma CutsHead(q: Limits, addr: nat, n: nat, len: nat)
    requires Sound(q) && 0 < n <= len
    requires n == MaxSegmentSize(q, addr) || (n == len && n <= MaxSegmentSize(q, addr))
    ensures Cuts(q, addr, len) == [Range(addr, n)] + Cuts(q, addr + n, len - n)
  {
  }

  lemma VecAddrSectors(q: Limits, v: BVec)
    requires Sound(q) && VecOk(q, v)
    ensures v.Addr() % SECTOR == 0
  {
    ModMod(v.page, SECTOR, q.page);
    ModSum(v.page, v.off, SECTOR);
  }

  predicate Whole(x: int) {
    x % SECTOR == 0
  }

  lemma WholeSum(x: int, y: int)
    requires Whole(x) && Whole(y)
    ensures Whole(x + y) && Whole(x - y)
  {
  }

  lemma WholeCut(q: Limits, addr: nat, len: nat)
    requires Sound(q) && Whole(addr) && Whole(len) && len <= UINT_MAX
    ensures Whole(Min(MaxSegmentSize(q, addr), len))
  {
    CutIsSectors(q, addr);
  }

  lemma WholeStep(q: Limits, addr: nat, total: nat, left: nat)
    requires Sound(q) && Whole(addr) && Whole(total) && Whole(left) && left <= UINT_MAX
    ensures
      var n := Min(MaxSegmentSize(q, addr + total), left);
      Whole(total + n) && Whole(left - n)
  {
    WholeSum(addr, total);
    WholeCut(q, addr + total, left);
    WholeSum(total, Min(MaxSegmentSize(q, addr + total), left));
    WholeSum(left, Min(MaxSegmentSize(q, addr + total), left));
  }

  /** The loop takes whole sectors. */
  lemma {:induction false} SplitLoopSectors(q: Limits, v: BVec, nsegs: nat, total: nat, left: nat, maxSegs: nat)
    requires Sound(q) && Whole(v.Addr()) && Whole(total) && Whole(left) && left <= UINT_MAX
    ensures Whole(SplitLoop(q, v, nsegs, total, left, maxSegs).total)
    decreases left
  {
    if left > 0 && nsegs < maxSegs {
      var n := Min(MaxSegmentSize(q, v.Addr() + total), left);
      WholeStep(q, v.Addr(), total, left);
      if (v.off + total + n) % q.virt == 0 {
        SplitLoopSectors(q, v, nsegs + 1, total + n, left - n, maxSegs);
      }
    }
  }

  lemma {:induction false} CutsAtMostLen(q: Limits, addr: nat, len: nat)
    requires Sound(q)
    ensures |Cuts(q, addr, len)| <= len
    decreases len
  {
    if len > 0 {
      var n := Min(MaxSegmentSize(q, addr), len);
      CutsAtMostLen(q, addr + n, len - n);
    }
  }

  lemma {:induction false} SegCountAtMostBytes(q: Limits, vs: seq<BVec>)
    requires Sound(q)
    ensures SegCount(q, vs) <= Bytes(vs)
  {
    if vs != [] {
      CutsAtMostLen(q, vs[0].Addr(), vs[0].len);
      SegCountAtMostBytes(q, vs[1..]);
    }
  }

  /** No segment but the last ends off the virt boundary. */
  predicate Unbroken(q: Limits, off: nat, addr: nat, len: nat)
    requires Sound(q)
    decreases len
  {
    var n := Min(MaxSegmentSize(q, addr), len);
    n == len || ((off + n) % q.virt == 0 && Unbroken(q, off + n, addr + n, len - n))
  }

  predicate Smooth(q: Limits, v: BVec)
    requires Sound(q)
  {
    Unbroken(q, v.off, v.Addr(), v.len)
  }

  /** Limits under which no segment but the last of a vector ends off the virt boundary: there is none, or it
      divides a page and segments are not limited in size, as blk_queue_virt_boundary sets them up. */
  predicate Even(q: Limits) {
    q.virt == 1 || (0 < q.virt && q.page % q.virt == 0 && q.maxSeg == UINT_MAX)
  }

  /** A window ends at the virt boundary. */
  lemma WindowEndsEven(q: Limits, off: nat, addr: nat)
    requires Sound(q) && q.page % q.virt == 0 && off % q.virt == addr % q.virt
    ensures
      var n := q.boundary - addr % q.boundary;
      0 < n && (addr + n) % q.virt == 0 && (off + n) % q.virt == 0
  {
    var b, n := q.boundary, q.boundary - addr % q.boundary;
    ModMod(b, q.virt, q.page);
    DivMod(addr + n, addr / b + 1, 0, b);
    ModMod(addr + n, q.virt, b);
    SameMod(off, addr, n, q.virt);
  }

  lemma {:induction false} EvenUnbroken(q: Limits, off: nat, addr: nat, len: nat)
    requires Sound(q) && Even(q) && off % q.virt == addr % q.virt && len <= UINT_MAX
    ensures Unbroken(q, off, addr, len)
    decreases len
  {
    var n := Min(MaxSegmentSize(q, addr), len);
    if n < len {
      if q.virt > 1 {
        WindowEndsEven(q, off, addr);
      }
      SameMod(off, addr, n, q.virt);
      EvenUnbroken(q, off + n, addr + n, len - n);
    }
  }

  /** Offsets and addresses agree about the virt boundary. */
  lemma EvenAddr(q: Limits, page: nat, off: nat)
    requires Sound(q) && Even(q) && page % q.page == 0
    ensures off % q.virt == (page + off) % q.virt
  {
    if q.virt > 1 {
      ModMod(page, q.virt, q.page);
    }
    SameMod(page, 0, off, q.virt);
  }

  lemma EvenSmooth(q: Limits, v: BVec)
    requires Sound(q) && Even(q) && VecOk(q, v)
    ensures Smooth(q, v)
  {
    EvenAddr(q, v.page, v.off);
    EvenUnbroken(q, v.off, v.Addr(), v.len);
  }

  /** What the loop takes from `total` on has no segment but the last end off the virt boundary. */
  predicate TakesSmooth(q: Limits, v: BVec, total: nat, g: Grown)
    requires Sound(q)
  {
    total <= g.total && Unbroken(q, v.off + total, v.Addr() + total, g.total - total)
  }

  lemma TakesSmoothStep(q: Limits, v: BVec, total: nat, n: nat, g: Grown)
    requires Sound(q) && 0 < n <= MaxSegmentSize(q, v.Addr() + total) && total + n <= g.total
    requires g.total == total + n
          || (n == MaxSegmentSize(q, v.Addr() + total) && (v.off + total + n) % q.virt == 0
              && TakesSmooth(q, v, total + n, g))
    ensures TakesSmooth(q, v, total, g)
  {
    assert v.off + total + n == v.off + (total + n) && v.Addr() + total + n == v.Addr() + (total + n);
    assert g.total - total - n == g.total - (total + n);
  }

  lemma {:induction false} SplitLoopSmooth(q: Limits, v: BVec, nsegs: nat, total: nat, left: nat, maxSegs: nat)
    requires Sound(q)
    ensures TakesSmooth(q, v, total, SplitLoop(q, v, nsegs, total, left, maxSegs))
    decreases left
  {
    if left > 0 && nsegs < maxSegs {
      var n := Min(MaxSegmentSize(q, v.Addr() + total), left);
      if (v.off + total + n) % q.virt == 0 {
        SplitLoopTakes(q, v, nsegs + 1, total + n, left - n, maxSegs);
        SplitLoopSmooth(q, v, nsegs + 1, total + n, left - n, maxSegs);
      }
      TakesSmoothStep(q, v, total, n, SplitLoop(q, v, nsegs, total, left, maxSegs));
    }
  }

  /** With segments to spare the loop takes all bytes iff no segment but the last ends off the virt boundary. */
  lemma {:induction false} TakesAllIff(q: Limits, v: BVec, nsegs: nat, total: nat, left: nat, maxSegs: nat)
    requires Sound(q) && nsegs + left <= maxSegs
    ensures
      var g := SplitLoop(q, v, nsegs, total, left, maxSegs);
      g.left == 0 <==> Unbroken(q, v.off + total, v.Addr() + total, left)
    decreases left
  {
    if left > 0 {
      var n := Min(MaxSegmentSize(q, v.Addr() + total), left);
      if n < left && (v.off + total + n) % q.virt == 0 {
        TakesAllIff(q, v, nsegs + 1, total + n, left - n, maxSegs);
        assert v.off + total + n == v.off + (total + n) && v.Addr() + total + n == v.Addr() + (total + n);
      }
    }
  }

  /** What the loop did not take would have been further segments. */
  predicate CountsRest(q: Limits, v: BVec, nsegs: nat, total: nat, left: nat, g: Grown)
    requires Sound(q)
  {
    nsegs + |Cuts(q, v.Addr() + total, left)| == g.nsegs + |Cuts(q, v.Addr() + g.total, g.left)|
  }

  lemma CountsRestStep(q: Limits, v: BVec, nsegs: nat, total: nat, left: nat, n: nat, g: Grown)
    requires Sound(q) && 0 < left && n == Min(MaxSegmentSize(q, v.Addr() + total), left)
    requires CountsRest(q, v, nsegs + 1, total + n, left - n, g)
    ensures CountsRest(q, v, nsegs, total, left, g)
  {
    CutsHead(q, v.Addr() + total, n, left);
    assert v.Addr() + total + n == v.Addr() + (total + n);
  }

  lemma {:induction false} SplitLoopRest(q: Limits, v: BVec, nsegs: nat, total: nat, left: nat, maxSegs: nat)
    requires Sound(q)
    ensures CountsRest(q, v, nsegs, total, left, SplitLoop(q, v, nsegs, total, left, maxSegs))
    decreases left
  {
    if left > 0 && nsegs < maxSegs {
      var n := Min(MaxSegmentSize(q, v.Addr() + total), left);
      if (v.off + total + n) % q.virt == 0 {
        SplitLoopRest(q, v, nsegs + 1, total + n, left - n, maxSegs);
      }
      CountsRestStep(q, v, nsegs, total, left, n, SplitLoop(q, v, nsegs, total, left, maxSegs));
    }
  }

  lemma EnoughRoom(sectors: nat, len: nat)
    requires sectors * SECTOR + len <= UINT_MAX && len % SECTOR == 0
    ensures len <= Room(sectors, UINT_MAX)
  {
  }

  lemma CutsNone(q: Limits, addr: nat, len: nat)
    requires Sound(q)
    ensures |Cuts(q, addr, len)| == 0 <==> len == 0
  {
  }

  /** One round of blk_recalc_rq_segments: the vector is counted in full iff no segment but the last ends off the
      virt boundary. */
  lemma CountOne(q: Limits, v: BVec, nsegs: nat, sectors: nat)
    requires Sound(q) && VecOk(q, v)
    requires nsegs + v.len <= UINT_MAX && sectors * SECTOR + v.len <= UINT_MAX
    ensures
      var r := SplitSegs(q, v, nsegs, sectors, UINT_MAX, UINT_MAX);
      && r.nsegs <= nsegs + |Cuts(q, v.Addr(), v.len)|
      && (r.nsegs == nsegs + |Cuts(q, v.Addr(), v.len)| <==> Smooth(q, v))
      && (r.sectors - sectors) * SECTOR <= v.len
  {
    SplitLoopTakes(q, v, nsegs, 0, v.len, UINT_MAX);
    EnoughRoom(sectors, v.len);
    var g := SplitLoop(q, v, nsegs, 0, v.len, UINT_MAX);
    TakesAllIff(q, v, nsegs, 0, v.len, UINT_MAX);
    SplitLoopRest(q, v, nsegs, 0, v.len, UINT_MAX);
    CutsNone(q, v.Addr() + g.total, g.left);
  }

  predicate AllSmooth(q: Limits, vs: seq<BVec>)
    requires Sound(q)
  {
    forall i :: 0 <= i < |vs| ==> Smooth(q, vs[i])
  }

  /** What has been counted of some vectors: all of it iff they are smooth. */
  predicate CountedSoFar(q: Limits, vs: seq<BVec>, n: nat, sectors: nat)
    requires Sound(q)
  {
    n <= SegCount(q, vs) && (n == SegCount(q, vs) <==> AllSmooth(q, vs)) && sectors * SECTOR <= Bytes(vs)
  }

  lemma CountedNext(q: Limits, vs: seq<BVec>, v: BVec, n: nat, sectors: nat)
    requires Sound(q) && VecOk(q, v) && CountedSoFar(q, vs, n, sectors) && Bytes(vs) + v.len <= UINT_MAX
    ensures sectors <= UINT_MAX / SECTOR
    ensures
      var r := SplitSegs(q, v, n, sectors, UINT_MAX, UINT_MAX);
      CountedSoFar(q, vs + [v], r.nsegs, r.sectors)
  {
    SegCountAtMostBytes(q, vs);
    CountOne(q, v, n, sectors);
    SegCountPlus(q, vs, [v]);
    BytesPlus(vs, [v]);
    assert AllSmooth(q, vs + [v]) <==> AllSmooth(q, vs) && Smooth(q, v) by {
      assert (vs + [v])[|vs|] == v;
      assert forall i :: 0 <= i < |vs| ==> (vs + [v])[i] == vs[i];
    }
  }

  /** blk_recalc_rq_segments counts the segments of the request, and all of them iff no segment within a vector ends
      off the virt boundary; in particular when the limits see to that. */
  method RecalcRqSegments(q: Limits, vs: seq<BVec>) returns (n: nat)
    requires Sound(q) && VecsOk(q, vs) && Bytes(vs) <= UINT_MAX
    ensures n <= SegCount(q, vs) && (n == SegCount(q, vs) <==> AllSmooth(q, vs))
    ensures Even(q) ==> n == SegCount(q, vs)
  {
    n := 0;
    var sectors, i := 0, 0;
    while i < |vs|
      invariant i <= |vs| && CountedSoFar(q, vs[..i], n, sectors)
    {
      PrefixBytes(vs, i);
      assert vs[..i + 1] == vs[..i] + [vs[i]];
      CountedNext(q, vs[..i], vs[i], n, sectors);
      var split: bool;
      split, n, sectors := BvecSplitSegs(q, vs[i], n, sectors, UINT_MAX, UINT_MAX);
      i := i + 1;
    }
    assert vs[..|vs|] == vs;
    if Even(q) {
      forall j | 0 <= j < |vs| ensures Smooth(q, vs[j]) {
        EvenSmooth(q, vs[j]);
      }
    }
  }

  lemma PrefixBytes(vs: seq<BVec>, i: nat)
    requires i < |vs|
    ensures Bytes(vs[..i]) + vs[i].len <= Bytes(vs)
  {
    assert vs == vs[..i] + ([vs[i]] + vs[i + 1..]);
    BytesPlus(vs[..i], [vs[i]] + vs[i + 1..]);
    BytesPlus([vs[i]], vs[i + 1..]);
  }
}
