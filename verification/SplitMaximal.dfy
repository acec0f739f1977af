/** A bio is split only where it has to be: blk_bio_segment_split (block/blk-merge.c) takes the longest front part
    that the limits admit. */
module SplitMaximal {
  import opened Lists
  import opened Arith
  import opened Segments
  import opened SegmentCounting
  import opened BioSplitting

  /** Where the loop over a vector stops early, one byte more would need too many segments or break one off at the virt
      boundary. */
  lemma {:induction false} LoopIsGreedy(q: Limits, v: BVec, nsegs: nat, total: nat, left: nat, maxSegs: nat, end: nat)
    requires Sound(q)
    requires
      var g := SplitLoop(q, v, nsegs, total, left, maxSegs);
      g.left > 0 && g.total < end
    ensures total <= end
    ensures Unbroken(q, v.off + total, v.Addr() + total, end - total)
        ==> nsegs + |Cuts(q, v.Addr() + total, end - total)| > maxSegs
    decreases left
  {
    SplitLoopTakes(q, v, nsegs, total, left, maxSegs);
    if nsegs < maxSegs {
      var addr := v.Addr() + total;
      var n := Min(MaxSegmentSize(q, addr), left);
      var g := SplitLoop(q, v, nsegs, total, left, maxSegs);
      if (v.off + total + n) % q.virt == 0 {
        SplitLoopTakes(q, v, nsegs + 1, total + n, left - n, maxSegs);
        LoopIsGreedy(q, v, nsegs + 1, total + n, left - n, maxSegs, end);
      }
      GreedyStep(q, v, nsegs, total, n, maxSegs, end);
    } else {
      CutsNone(q, v.Addr() + total, end - total);
    }
  }

  lemma GreedyStep(q: Limits, v: BVec, nsegs: nat, total: nat, n: nat, maxSegs: nat, end: nat)
    requires Sound(q) && n == MaxSegmentSize(q, v.Addr() + total) && total + n < end
    requires
      (v.off + total + n) % q.virt == 0 && Unbroken(q, v.off + (total + n), v.Addr() + (total + n), end - (total + n))
      ==> nsegs + 1 + |Cuts(q, v.Addr() + (total + n), end - (total + n))| > maxSegs
    ensures Unbroken(q, v.off + total, v.Addr() + total, end - total)
        ==> nsegs + |Cuts(q, v.Addr() + total, end - total)| > maxSegs
  {
    CutsHead(q, v.Addr() + total, n, end - total);
    assert v.Addr() + total + n == v.Addr() + (total + n) && v.off + total + n == v.off + (total + n);
    assert end - total - n == end - (total + n);
  }

  lemma RoomIsAll(sectors: nat, maxSectors: nat, len: nat)
    requires sectors <= maxSectors && len % SECTOR == 0 && sectors * SECTOR + len <= UINT_MAX
    requires len > Room(sectors, maxSectors)
    ensures sectors * SECTOR + len > maxSectors * SECTOR
  {
  }

  /** Where a vector has to be split, no longer part of it could be taken. */
  lemma OneIsGreedy(q: IoLimits, v: BVec, nsegs: nat, sectors: nat, maxSectors: nat, len: nat)
    requires Usable(q) && VecOk(q.seg, v) && Growing(q, nsegs, sectors, v.len, maxSectors)
    requires
      var r := ScanOne(q, v, nsegs, sectors, maxSectors);
      r.split && Taken(r, sectors) < len <= v.len && len % SECTOR == 0
    ensures sectors * SECTOR + len <= maxSectors * SECTOR && Unbroken(q.seg, v.off, v.Addr(), len)
        ==> nsegs + |Cuts(q.seg, v.Addr(), len)| > q.maxSegs
  {
    SplitSegsTakes(q.seg, v, nsegs, sectors, q.maxSegs, maxSectors);
    var room := Room(sectors, maxSectors);
    var g := SplitLoop(q.seg, v, nsegs, 0, Min(v.len, room), q.maxSegs);
    if g.left > 0 {
      LoopIsGreedy(q.seg, v, nsegs, 0, Min(v.len, room), q.maxSegs, len);
    } else {
      SplitLoopTakes(q.seg, v, nsegs, 0, Min(v.len, room), q.maxSegs);
      RoomIsAll(sectors, maxSectors, len);
    }
  }

  /** These vectors can be added to a bio being built. */
  predicate CanAdd(q: IoLimits, vs: seq<BVec>, prev: Option<BVec>, nsegs: nat, sectors: nat, maxSectors: nat)
    requires Usable(q)
  {
    && sectors * SECTOR + Bytes(vs) <= maxSectors * SECTOR && nsegs + SegCount(q.seg, vs) <= q.maxSegs
    && GapFreeAfter(q.seg, prev, vs) && AllSmooth(q.seg, vs)
  }

  lemma CanAddRest(q: IoLimits, v: BVec, vs: seq<BVec>, prev: Option<BVec>, nsegs: nat, sectors: nat, maxSectors: nat)
    requires Usable(q) && CanAdd(q, [v] + vs, prev, nsegs, sectors, maxSectors) && v.len % SECTOR == 0
    ensures !GapTo(q.seg, prev, v.off) && Smooth(q.seg, v)
    ensures sectors * SECTOR + v.len <= maxSectors * SECTOR && nsegs + |Cuts(q.seg, v.Addr(), v.len)| <= q.maxSegs
    ensures CanAdd(q, vs, Some(v), nsegs + |Cuts(q.seg, v.Addr(), v.len)|, sectors + v.len / SECTOR, maxSectors)
  {
    var r := [v] + vs;
    assert r[1..] == vs && r[0] == v;
    assert Smooth(q.seg, r[0]);
    forall i | 0 <= i < |vs| ensures Smooth(q.seg, vs[i]) {
      assert vs[i] == r[i + 1];
    }
    forall i | 0 < i < |vs| ensures !Gap(q.seg, vs[i - 1], vs[i].off) {
      assert vs[i] == r[i + 1] && vs[i - 1] == r[i];
    }
    if vs != [] {
      assert !Gap(q.seg, r[0], r[1].off);
    }
  }

  lemma SplitsHere(q: IoLimits, v: BVec, rest: seq<BVec>, prev: Option<BVec>, nsegs: nat, sectors: nat,
                   maxSectors: nat, len: nat)
    requires Usable(q) && VecOk(q.seg, v) && Growing(q, nsegs, sectors, v.len, maxSectors)
    requires
      var r := ScanOne(q, v, nsegs, sectors, maxSectors);
      r.split && Taken(r, sectors) < len <= v.len && len % SECTOR == 0
    ensures !CanAdd(q, [v.(len := len)] + rest, prev, nsegs, sectors, maxSectors)
  {
    OneIsGreedy(q, v, nsegs, sectors, maxSectors, len);
    if CanAdd(q, [v.(len := len)] + rest, prev, nsegs, sectors, maxSectors) {
      CanAddRest(q, v.(len := len), rest, prev, nsegs, sectors, maxSectors);
    }
  }

  lemma SplitsLater(q: IoLimits, v: BVec, rest: seq<BVec>, prev: Option<BVec>, nsegs: nat, sectors: nat,
                    maxSectors: nat)
    requires Usable(q) && VecOk(q.seg, v) && Growing(q, nsegs, sectors, v.len, maxSectors)
    requires
      var r := ScanOne(q, v, nsegs, sectors, maxSectors);
      !r.split && !CanAdd(q, rest, Some(v), r.nsegs, r.sectors, maxSectors)
    ensures !CanAdd(q, [v] + rest, prev, nsegs, sectors, maxSectors)
  {
    ScanOneTakes(q, v, nsegs, sectors, maxSectors);
    ScanOneCounts(q, v, nsegs, sectors, maxSectors);
    if CanAdd(q, [v] + rest, prev, nsegs, sectors, maxSectors) {
      CanAddRest(q, v, rest, prev, nsegs, sectors, maxSectors);
    }
  }

  lemma SplitsAtGap(q: IoLimits, v: BVec, rest: seq<BVec>, prev: Option<BVec>, nsegs: nat, sectors: nat,
                    maxSectors: nat)
    requires Usable(q) && GapTo(q.seg, prev, v.off)
    ensures !CanAdd(q, [v] + rest, prev, nsegs, sectors, maxSectors)
  {
  }

  lemma {:induction false} ScanIsGreedy(q: IoLimits, vs: seq<BVec>, prev: Option<BVec>, nsegs: nat, sectors: nat,
                                        maxSectors: nat, n: nat)
    requires Usable(q) && VecsOk(q.seg, vs) && Growing(q, nsegs, sectors, Bytes(vs), maxSectors)
    requires
      var r := Scan(q, vs, prev, nsegs, sectors, maxSectors);
      r.split && Taken(r, sectors) < n <= Bytes(vs) && n % SECTOR == 0
    ensures !CanAdd(q, TakeBytes(vs, n), prev, nsegs, sectors, maxSectors)
  {
    ScanTakes(q, vs, prev, nsegs, sectors, maxSectors);
    var v, r1 := vs[0], ScanOne(q, vs[0], nsegs, sectors, maxSectors);
    ScanOneTakes(q, v, nsegs, sectors, maxSectors);
    var len := Min(v.len, n);
    var rest := if n <= v.len then [] else TakeBytes(vs[1..], n - v.len);
    assert TakeBytes(vs, n) == [v.(len := len)] + rest;
    if GapTo(q.seg, prev, v.off) {
      SplitsAtGap(q, v.(len := len), rest, prev, nsegs, sectors, maxSectors);
    } else if r1.split {
      SplitsHere(q, v, rest, prev, nsegs, sectors, maxSectors, len);
    } else {
      WholeSum(n, v.len);
      assert Taken(Scan(q, vs, prev, nsegs, sectors, maxSectors), r1.sectors)
          == Taken(Scan(q, vs, prev, nsegs, sectors, maxSectors), sectors) - v.len;
      ScanTakes(q, vs[1..], Some(v), r1.nsegs, r1.sectors, maxSectors);
      ScanIsGreedy(q, vs[1..], Some(v), r1.nsegs, r1.sectors, maxSectors, n - v.len);
      SplitsLater(q, v, rest, prev, nsegs, sectors, maxSectors);
    }
  }

  /** The first `n` bytes of a bio can go to the driver in one bio. */
  predicate CanGo(q: IoLimits, b: Bio, n: nat)
    requires Usable(q)
  {
    Piece(q, Bio(b.sector, TakeBytes(b.vecs, n)))
  }

  lemma PieceCanAdd(q: IoLimits, b: Bio)
    requires Usable(q) && Bytes(b.vecs) % SECTOR == 0
    ensures Piece(q, b) ==> CanAdd(q, b.vecs, None, 0, 0, MaxIoSize(q, b.sector))
  {
  }

  lemma CannotGo(q: IoLimits, b: Bio, n: nat)
    requires Usable(q) && n % SECTOR == 0 && n <= Bytes(b.vecs)
    requires !CanAdd(q, TakeBytes(b.vecs, n), None, 0, 0, MaxIoSize(q, b.sector))
    ensures !CanGo(q, b, n)
  {
    CutBytes(b.vecs, n);
    PieceCanAdd(q, Bio(b.sector, TakeBytes(b.vecs, n)));
  }

  lemma LongerCannotGo(q: IoLimits, b: Bio, n: nat)
    requires Usable(q) && BioOk(q.seg, b) && Decide(q, b).split
    requires Taken(Decide(q, b), 0) < n <= Bytes(b.vecs) && n % SECTOR == 0
    ensures !CanGo(q, b, n)
  {
    ScanIsGreedy(q, b.vecs, None, 0, 0, MaxIoSize(q, b.sector), n);
    CannotGo(q, b, n);
  }

  lemma SectorBytes(k: int, j: nat, bytes: nat)
    requires k < j <= bytes / SECTOR
    ensures k * SECTOR < j * SECTOR <= bytes && j * SECTOR % SECTOR == 0
  {
  }

  lemma WholeIsAll(q: IoLimits, b: Bio)
    requires Usable(q) && BioOk(q.seg, b)
    ensures CanGo(q, b, b.Sectors() * SECTOR) <==> Piece(q, b)
  {
    BytesAreSectors(q.seg, b.vecs);
    assert b.Sectors() * SECTOR == Bytes(b.vecs);
    TakeAll(q.seg, b.vecs);
  }

  /** A bio is split iff it cannot go as it is, and then after the longest part that can. */
  lemma SplitIsLongest(q: IoLimits, b: Bio)
    requires Usable(q) && AlwaysRoom(q) && BioOk(q.seg, b)
    ensures Decide(q, b).split <==> !Piece(q, b)
    ensures Decide(q, b).split ==>
      var k := Decide(q, b).sectors;
      && CanGo(q, b, k * SECTOR)
      && (forall j :: k < j <= b.Sectors() ==> !CanGo(q, b, j * SECTOR))
  {
    FirstIsPiece(q, b);
    if Decide(q, b).split {
      SplitOk(q, b);
      forall j | Decide(q, b).sectors < j <= b.Sectors() ensures !CanGo(q, b, j * SECTOR) {
        SectorBytes(Decide(q, b).sectors, j, Bytes(b.vecs));
        LongerCannotGo(q, b, j * SECTOR);
      }
      WholeIsAll(q, b);
    }
  }
}
