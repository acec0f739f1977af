/** Splitting bios to the limits of a queue: blk_bio_segment_split and __blk_queue_split
    (block/blk-merge.c) on top of bio_split (block/bio.c). */
module BioSplitting {
  import opened Lists
  import opened Arith
  import opened Segments
  import opened SegmentCounting

  /** Sizes in sectors; `chunk` is 0 if the device has no chunks. */
  datatype IoLimits = IoLimits(seg: Limits, maxSectors: nat, chunk: nat, pbs: nat, lbs: nat, maxSegs: nat)

  predicate Usable(q: IoLimits) {
    && Sound(q.seg)
    && 0 < q.maxSectors && 0 < q.maxSegs
    && 0 < q.lbs && 0 < q.pbs && q.pbs % q.lbs == 0
  }

  /** A read or write bio: where it starts on the device, and the memory it still has to transfer. */
  datatype Bio = Bio(sector: nat, vecs: seq<BVec>) {
    function Sectors(): nat {
      Bytes(vecs) / SECTOR
    }
  }

  /** bi_size is an unsigned int. */
  predicate BioOk(q: Limits, b: Bio)
    requires 0 < q.page
  {
    VecsOk(q, b.vecs) && Bytes(b.vecs) <= UINT_MAX
  }

  // ---------------------------------------------------------------------------------------------
  // get_max_io_size
  // ---------------------------------------------------------------------------------------------

  /** blk_max_size_offset */
  function ChunkRoom(q: IoLimits, sector: nat): (r: nat)
    requires Usable(q)
    ensures 0 < r <= q.maxSectors && (q.chunk > 0 ==> sector % q.chunk + r <= q.chunk)
    ensures r == q.maxSectors || (q.chunk > 0 && sector % q.chunk + r == q.chunk)
  {
    if q.chunk == 0 then q.maxSectors else Min(q.maxSectors, q.chunk - sector % q.chunk)
  }

  function MaxIoSize(q: IoLimits, sector: nat): (r: nat)
    requires Usable(q)
    ensures r <= ChunkRoom(q, sector)
  {
    Aligned(ChunkRoom(q, sector), sector % q.pbs, q.pbs, q.lbs)
  }

  /** The room cut back to the last physical block boundary, or else to whole logical blocks. */
  function Aligned(sectors: nat, start: nat, pbs: nat, lbs: nat): (r: nat)
    requires 0 < pbs && 0 < lbs
    ensures r <= sectors
  {
    var aligned := sectors + start - (sectors + start) % pbs;
    if aligned > start then aligned - start else sectors - sectors % lbs
  }

  lemma AlignedFar(sectors: nat, start: nat, pbs: nat, lbs: nat)
    requires 0 < pbs <= start + sectors && start < pbs && 0 < lbs
    ensures
      var r := Aligned(sectors, start, pbs, lbs);
      0 < r && (start + r) % pbs == 0 && sectors - r < pbs
  {
    MultipleReached(sectors + start, pbs);
    var x := sectors + start;
    DivMod(x - x % pbs, x / pbs, 0, pbs);
  }

  lemma AlignedNear(sectors: nat, start: nat, pbs: nat, lbs: nat)
    requires start + sectors < pbs && 0 < lbs
    ensures
      var r := Aligned(sectors, start, pbs, lbs);
      r % lbs == 0 && sectors - r < lbs
  {
    SmallMod(sectors + start, pbs);
    DivMod(sectors - sectors % lbs, sectors / lbs, 0, lbs);
  }

  /** If the room reaches a physical block boundary, the size ends at the last one it reaches; otherwise it is all
      logical blocks that fit. */
  lemma MaxIoSizeIs(q: IoLimits, sector: nat)
    requires Usable(q)
    ensures
      var room, r := ChunkRoom(q, sector), MaxIoSize(q, sector);
      if sector % q.pbs + room >= q.pbs
      then 0 < r && (sector + r) % q.pbs == 0 && room - r < q.pbs
      else r % q.lbs == 0 && room - r < q.lbs
  {
    var room, start := ChunkRoom(q, sector), sector % q.pbs;
    if start + room >= q.pbs {
      AlignedFar(room, start, q.pbs, q.lbs);
      SmallMod(start, q.pbs);
      SameMod(sector, start, MaxIoSize(q, sector), q.pbs);
    } else {
      AlignedNear(room, start, q.pbs, q.lbs);
    }
  }

  lemma MultipleReached(x: nat, b: nat)
    requires 0 < b <= x
    ensures x - x % b >= b
  {
  }

  /** Limits under which a split can always make progress. */
  predicate AlwaysRoom(q: IoLimits) {
    0 < q.pbs && (q.lbs == 1 || (q.lbs <= q.maxSectors && (q.chunk == 0 || q.chunk % q.pbs == 0)))
  }

  /** Whole physical blocks end at a chunk end, so the rest of a chunk is never rounded away. */
  lemma ChunkEndAligned(q: IoLimits, sector: nat)
    requires Usable(q) && q.chunk > 0 && q.chunk % q.pbs == 0
    ensures (q.chunk - sector % q.chunk + sector % q.pbs) % q.pbs == 0
  {
    var x := sector % q.chunk;
    ModMod(sector, q.pbs, q.chunk);
    assert x % q.pbs == sector % q.pbs;
    ModSum(q.chunk, x - x % q.pbs, q.pbs) by {
      DivMod(x - x % q.pbs, x / q.pbs, 0, q.pbs);
    }
  }

  lemma RoomSuffices(q: IoLimits, sector: nat)
    requires Usable(q) && AlwaysRoom(q)
    ensures MaxIoSize(q, sector) > 0
  {
    var sectors := ChunkRoom(q, sector);
    if q.lbs > 1 && sectors < q.lbs {
      ChunkEndAligned(q, sector);
    }
  }

  /** Where the room is rounded away if the limits are no good. */
  function BadSector(q: IoLimits): nat {
    if q.maxSectors < q.lbs || q.chunk == 0 then 0 else q.chunk - 1
  }

  lemma SmallMod(x: nat, b: nat)
    requires x < b
    ensures x % b == x
  {
  }

  lemma AllRoundedAway(sectors: nat, pbs: nat, lbs: nat)
    requires sectors < lbs <= pbs
    ensures Aligned(sectors, 0, pbs, lbs) == 0
  {
    SmallMod(sectors, pbs);
    SmallMod(sectors, lbs);
  }

  lemma NoRoomAtStart(q: IoLimits)
    requires Usable(q) && q.maxSectors < q.lbs
    ensures MaxIoSize(q, 0) == 0
  {
    MultipleAtLeast(q.pbs, q.lbs);
    AllRoundedAway(ChunkRoom(q, 0), q.pbs, q.lbs);
  }

  lemma NoRoomAtChunkEnd(q: IoLimits)
    requires Usable(q) && 1 < q.lbs && 0 < q.chunk && q.chunk % q.pbs != 0
    ensures MaxIoSize(q, q.chunk - 1) == 0
  {
    var s := q.chunk - 1;
    SmallMod(s, q.chunk);
    DivMod(s, q.chunk / q.pbs, q.chunk % q.pbs - 1, q.pbs);
    SmallMod(1 + s % q.pbs, q.pbs);
    SmallMod(1, q.lbs);
  }

  lemma RoomNeeded(q: IoLimits)
    requires Usable(q) && !AlwaysRoom(q)
    ensures MaxIoSize(q, BadSector(q)) == 0
  {
    if q.maxSectors < q.lbs {
      NoRoomAtStart(q);
    } else {
      NoRoomAtChunkEnd(q);
    }
  }

  /** A bio starting anywhere gets some room iff the limits are good: a logical block is one sector, or a
      logical block fits the maximum and chunks are whole physical blocks. */
  lemma RoomEverywhere(q: IoLimits)
    requires Usable(q)
    ensures (forall s: nat :: MaxIoSize(q, s) > 0) <==> AlwaysRoom(q)
  {
    if AlwaysRoom(q) {
      forall s: nat ensures MaxIoSize(q, s) > 0 {
        RoomSuffices(q, s);
      }
    } else {
      RoomNeeded(q);
    }
  }

  // ---------------------------------------------------------------------------------------------
  // bio_advance and bio_split
  // ---------------------------------------------------------------------------------------------

  /** The first n bytes. */
  function TakeBytes(vs: seq<BVec>, n: nat): seq<BVec> {
    if vs == [] || n == 0 then []
    else if vs[0].len <= n then [vs[0]] + TakeBytes(vs[1..], n - vs[0].len)
    else [vs[0].(len := n)]
  }

  /** What is left after the first n bytes: bio_advance. */
  function DropBytes(vs: seq<BVec>, n: nat): seq<BVec> {
    if vs == [] || n == 0 then vs
    else if vs[0].len <= n then DropBytes(vs[1..], n - vs[0].len)
    else [BVec(vs[0].page, vs[0].off + n, vs[0].len - n)] + vs[1..]
  }

  lemma {:induction false} CutBytes(vs: seq<BVec>, n: nat)
    requires n <= Bytes(vs)
    ensures VecBytes(TakeBytes(vs, n)) + VecBytes(DropBytes(vs, n)) == VecBytes(vs)
    ensures Bytes(TakeBytes(vs, n)) == n && Bytes(DropBytes(vs, n)) == Bytes(vs) - n
  {
    if vs != [] && n > 0 {
      var v, rest := vs[0], vs[1..];
      if v.len <= n {
        CutBytes(rest, n - v.len);
        assert TakeBytes(vs, n)[1..] == TakeBytes(rest, n - v.len);
      } else {
        SpanPlus(v.Addr(), n, v.len - n);
        assert DropBytes(vs, n)[1..] == rest;
      }
    }
  }

  lemma {:induction false} CutOk(q: Limits, vs: seq<BVec>, n: nat)
    requires 0 < q.page && VecsOk(q, vs) && n % SECTOR == 0
    ensures VecsOk(q, TakeBytes(vs, n)) && VecsOk(q, DropBytes(vs, n))
  {
    if vs != [] && n > 0 {
      var v := vs[0];
      assert VecOk(q, v);
      if v.len <= n {
        CutOk(q, vs[1..], n - v.len);
      }
    }
  }

  lemma {:induction false} BytesAreSectors(q: Limits, vs: seq<BVec>)
    requires 0 < q.page && VecsOk(q, vs)
    ensures Bytes(vs) % SECTOR == 0
    ensures vs != [] ==> Bytes(vs) > 0
  {
    if vs != [] {
      assert VecOk(q, vs[0]);
      BytesAreSectors(q, vs[1..]);
    }
  }

  /** bio_split: the first `sectors` sectors become a bio of their own, `b` keeps the rest.  The
      precondition is the negation of its two BUG checks. */
  function BioSplit(b: Bio, sectors: nat): (r: (Bio, Bio))
    requires 0 < sectors < b.Sectors()
    ensures VecBytes(r.0.vecs) + VecBytes(r.1.vecs) == VecBytes(b.vecs)
    ensures r.0.sector == b.sector && r.1.sector == r.0.sector + r.0.Sectors()
    ensures r.0.Sectors() == sectors && Bytes(r.1.vecs) == Bytes(b.vecs) - sectors * SECTOR
  {
    CutBytes(b.vecs, sectors * SECTOR);
    (Bio(b.sector, TakeBytes(b.vecs, sectors * SECTOR)), Bio(b.sector + sectors, DropBytes(b.vecs, sectors * SECTOR)))
  }

  // ---------------------------------------------------------------------------------------------
  // blk_bio_segment_split
  // ---------------------------------------------------------------------------------------------

  /** bvec_gap_to_prev, if there is a vector before. */
  predicate GapTo(q: Limits, prev: Option<BVec>, off: nat)
    requires 0 < q.virt
  {
    prev.Some? && Gap(q, prev.value, off)
  }

  /** Within one page and all limits, so that nothing needs to be counted. */
  predicate FastPath(q: IoLimits, v: BVec, nsegs: nat, sectors: nat, maxSectors: nat) {
    nsegs < q.maxSegs && sectors + v.len / SECTOR <= maxSectors && v.off + v.len <= q.seg.page
  }

  /** What the loop does with one vector. */
  function ScanOne(q: IoLimits, v: BVec, nsegs: nat, sectors: nat, maxSectors: nat): SplitResult
    requires Usable(q) && sectors <= Min(maxSectors, UINT_MAX / SECTOR)
  {
    if FastPath(q, v, nsegs, sectors, maxSectors)
    then SplitResult(false, nsegs + 1, sectors + v.len / SECTOR)
    else SplitSegs(q.seg, v, nsegs, sectors, q.maxSegs, maxSectors)
  }

  /** A bio being built that can still grow by `more` bytes without overflowing bi_size. */
  predicate Growing(q: IoLimits, nsegs: nat, sectors: nat, more: nat, maxSectors: nat) {
    nsegs <= q.maxSegs && sectors <= maxSectors && sectors * SECTOR + more <= UINT_MAX
  }

  /** Bytes taken between two counts of sectors. */
  function Taken(r: SplitResult, sectors: nat): int {
    (r.sectors - sectors) * SECTOR
  }

  /** What bvec_split_segs makes of a vector, in bytes. */
  lemma SplitSegsTakes(q: Limits, v: BVec, nsegs: nat, sectors: nat, maxSegs: nat, maxSectors: nat)
    requires Sound(q) && VecOk(q, v) && nsegs <= maxSegs
    requires sectors <= maxSectors && sectors * SECTOR + v.len <= UINT_MAX
    ensures
      var r := SplitSegs(q, v, nsegs, sectors, maxSegs, maxSectors);
      var g := SplitLoop(q, v, nsegs, 0, Min(v.len, Room(sectors, maxSectors)), maxSegs);
      && Taken(r, sectors) == g.total <= v.len
      && (r.split ==> g.total < v.len)
      && (!r.split ==> g.total == v.len)
      && r.nsegs == g.nsegs <= maxSegs
      && r.sectors <= maxSectors
      && (nsegs < maxSegs && sectors < maxSectors ==> sectors < r.sectors)
  {
    var room := Room(sectors, maxSectors);
    VecAddrSectors(q, v);
    SplitLoopSectors(q, v, nsegs, 0, Min(v.len, room), maxSegs);
    SplitLoopTakes(q, v, nsegs, 0, Min(v.len, room), maxSegs);
  }

  /** One vector is taken whole or, if the bio has to be split here, in part; the limits hold. */
  lemma ScanOneTakes(q: IoLimits, v: BVec, nsegs: nat, sectors: nat, maxSectors: nat)
    requires Usable(q) && VecOk(q.seg, v) && Growing(q, nsegs, sectors, v.len, maxSectors)
    ensures
      var r := ScanOne(q, v, nsegs, sectors, maxSectors);
      && 0 <= Taken(r, sectors)
      && (if r.split then Taken(r, sectors) < v.len else Taken(r, sectors) == v.len)
      && r.nsegs <= q.maxSegs && r.sectors <= maxSectors
      && (nsegs < q.maxSegs && sectors < maxSectors ==> sectors < r.sectors)
  {
    if !FastPath(q, v, nsegs, sectors, maxSectors) {
      SplitSegsTakes(q.seg, v, nsegs, sectors, q.maxSegs, maxSectors);
    }
  }

  /** The segments counted for one vector are those of the bytes taken. */
  lemma ScanOneCounts(q: IoLimits, v: BVec, nsegs: nat, sectors: nat, maxSectors: nat)
    requires Usable(q) && VecOk(q.seg, v) && Growing(q, nsegs, sectors, v.len, maxSectors)
    ensures
      var r := ScanOne(q, v, nsegs, sectors, maxSectors);
      0 <= Taken(r, sectors) && r.nsegs == nsegs + |Cuts(q.seg, v.Addr(), Taken(r, sectors))|
  {
    if FastPath(q, v, nsegs, sectors, maxSectors) {
      OnePageIsOneSegment(q.seg, v);
    } else {
      SplitSegsTakes(q.seg, v, nsegs, sectors, q.maxSegs, maxSectors);
      SplitLoopCounts(q.seg, v, nsegs, 0, Min(v.len, Room(sectors, maxSectors)), q.maxSegs);
    }
  }

  /** What is taken of one vector has no segment but the last end off the virt boundary. */
  lemma ScanOneSmooth(q: IoLimits, v: BVec, nsegs: nat, sectors: nat, maxSectors: nat)
    requires Usable(q) && VecOk(q.seg, v) && Growing(q, nsegs, sectors, v.len, maxSectors)
    ensures
      var r := ScanOne(q, v, nsegs, sectors, maxSectors);
      0 <= Taken(r, sectors) && Unbroken(q.seg, v.off, v.Addr(), Taken(r, sectors))
  {
    if FastPath(q, v, nsegs, sectors, maxSectors) {
      OnePageIsOneSegment(q.seg, v);
    } else {
      SplitSegsTakes(q.seg, v, nsegs, sectors, q.maxSegs, maxSectors);
      SplitLoopSmooth(q.seg, v, nsegs, 0, Min(v.len, Room(sectors, maxSectors)), q.maxSegs);
    }
  }

  /** The loop of blk_bio_segment_split. */
  function Scan(q: IoLimits, vs: seq<BVec>, prev: Option<BVec>, nsegs: nat, sectors: nat, maxSectors: nat): SplitResult
    requires Usable(q) && VecsOk(q.seg, vs) && Growing(q, nsegs, sectors, Bytes(vs), maxSectors)
  {
    if vs == [] then SplitResult(false, nsegs, sectors)
    else if GapTo(q.seg, prev, vs[0].off) then SplitResult(true, nsegs, sectors)
    else
      var r := ScanOne(q, vs[0], nsegs, sectors, maxSectors);
      if r.split then r
      else
        ScanOneTakes(q, vs[0], nsegs, sectors, maxSectors);
        Scan(q, vs[1..], Some(vs[0]), r.nsegs, r.sectors, maxSectors)
  }

  method SegmentSplit(q: IoLimits, b: Bio) returns (r: SplitResult)
    requires Usable(q) && BioOk(q.seg, b)
    ensures r == Scan(q, b.vecs, None, 0, 0, MaxIoSize(q, b.sector))
  {
    var prev: Option<BVec>, nsegs: nat, sectors: nat, i := None, 0, 0, 0;
    var maxSectors := MaxIoSize(q, b.sector);
    while i < |b.vecs|
      invariant i <= |b.vecs| && Growing(q, nsegs, sectors, Bytes(b.vecs[i..]), maxSectors)
      invariant Scan(q, b.vecs[i..], prev, nsegs, sectors, maxSectors) == Scan(q, b.vecs, None, 0, 0, maxSectors)
    {
      var v := b.vecs[i];
      assert b.vecs[i..][0] == v && b.vecs[i..][1..] == b.vecs[i + 1..];
      if GapTo(q.seg, prev, v.off) {
        return SplitResult(true, nsegs, sectors);
      }
      ScanOneTakes(q, v, nsegs, sectors, maxSectors);
      if FastPath(q, v, nsegs, sectors, maxSectors) {
        nsegs, sectors := nsegs + 1, sectors + v.len / SECTOR;
      } else {
        var split: bool;
        split, nsegs, sectors := BvecSplitSegs(q.seg, v, nsegs, sectors, q.maxSegs, maxSectors);
        if split {
          return SplitResult(true, nsegs, sectors);
        }
      }
      prev, i := Some(v), i + 1;
    }
    r := SplitResult(false, nsegs, sectors);
  }

  lemma {:induction false} ScanTakes(q: IoLimits, vs: seq<BVec>, prev: Option<BVec>, nsegs: nat, sectors: nat,
                                     maxSectors: nat)
    requires Usable(q) && VecsOk(q.seg, vs) && Growing(q, nsegs, sectors, Bytes(vs), maxSectors)
    ensures
      var r := Scan(q, vs, prev, nsegs, sectors, maxSectors);
      && 0 <= Taken(r, sectors)
      && (if r.split then Taken(r, sectors) < Bytes(vs) else Taken(r, sectors) == Bytes(vs))
      && r.nsegs <= q.maxSegs && r.sectors <= maxSectors
  {
    if vs != [] && !GapTo(q.seg, prev, vs[0].off) {
      var r := ScanOne(q, vs[0], nsegs, sectors, maxSectors);
      ScanOneTakes(q, vs[0], nsegs, sectors, maxSectors);
      if !r.split {
        ScanTakes(q, vs[1..], Some(vs[0]), r.nsegs, r.sectors, maxSectors);
      }
    } else if vs != [] {
      BytesAreSectors(q.seg, vs);
    }
  }

  /** The segments reported for the first part are those of the bytes it gets. */
  lemma {:induction false} ScanCounts(q: IoLimits, vs: seq<BVec>, prev: Option<BVec>, nsegs: nat, sectors: nat,
                                      maxSectors: nat)
    requires Usable(q) && VecsOk(q.seg, vs) && Growing(q, nsegs, sectors, Bytes(vs), maxSectors)
    ensures
      var r := Scan(q, vs, prev, nsegs, sectors, maxSectors);
      0 <= Taken(r, sectors) && r.nsegs == nsegs + SegCount(q.seg, TakeBytes(vs, Taken(r, sectors)))
  {
    if vs != [] && !GapTo(q.seg, prev, vs[0].off) {
      var r1 := ScanOne(q, vs[0], nsegs, sectors, maxSectors);
      ScanOneTakes(q, vs[0], nsegs, sectors, maxSectors);
      ScanOneCounts(q, vs[0], nsegs, sectors, maxSectors);
      if r1.split {
        TakeFromFirst(q.seg, vs, Taken(r1, sectors));
      } else {
        ScanCounts(q, vs[1..], Some(vs[0]), r1.nsegs, r1.sectors, maxSectors);
        TakeBeyondFirst(q.seg, vs, Taken(Scan(q, vs, prev, nsegs, sectors, maxSectors), sectors));
      }
    }
  }

  lemma TakeFromFirst(q: Limits, vs: seq<BVec>, n: nat)
    requires Sound(q) && vs != [] && n < vs[0].len
    ensures SegCount(q, TakeBytes(vs, n)) == |Cuts(q, vs[0].Addr(), n)|
  {
  }

  lemma TakeBeyondFirst(q: Limits, vs: seq<BVec>, n: nat)
    requires Sound(q) && vs != [] && 0 < vs[0].len <= n
    ensures SegCount(q, TakeBytes(vs, n))
         == |Cuts(q, vs[0].Addr(), vs[0].len)| + SegCount(q, TakeBytes(vs[1..], n - vs[0].len))
  {
    assert TakeBytes(vs, n)[1..] == TakeBytes(vs[1..], n - vs[0].len);
  }

  /** Vectors without gaps, and without one to the vector before them. */
  predicate GapFreeAfter(q: Limits, prev: Option<BVec>, vs: seq<BVec>)
    requires 0 < q.virt
  {
    GapFree(q, vs) && (vs != [] ==> !GapTo(q, prev, vs[0].off))
  }

  lemma GapFreeCons(q: Limits, prev: Option<BVec>, v: BVec, vs: seq<BVec>)
    requires 0 < q.virt && !GapTo(q, prev, v.off) && GapFreeAfter(q, Some(v), vs)
    ensures GapFreeAfter(q, prev, [v] + vs)
  {
    var r := [v] + vs;
    forall i | 0 < i < |r| ensures !Gap(q, r[i - 1], r[i].off) {
      assert i > 1 ==> r[i - 1] == vs[i - 2] && r[i] == vs[i - 1];
    }
  }

  lemma SmoothCons(q: Limits, v: BVec, vs: seq<BVec>)
    requires Sound(q) && Smooth(q, v) && AllSmooth(q, vs)
    ensures AllSmooth(q, [v] + vs)
  {
  }

  /** The first part has no gaps, and no segment within a vector ends off the virt boundary. */
  lemma {:induction false} ScanSmooth(q: IoLimits, vs: seq<BVec>, prev: Option<BVec>, nsegs: nat, sectors: nat,
                                      maxSectors: nat)
    requires Usable(q) && VecsOk(q.seg, vs) && Growing(q, nsegs, sectors, Bytes(vs), maxSectors)
    ensures
      var r := Scan(q, vs, prev, nsegs, sectors, maxSectors);
      && 0 <= Taken(r, sectors)
      && AllSmooth(q.seg, TakeBytes(vs, Taken(r, sectors)))
      && GapFreeAfter(q.seg, prev, TakeBytes(vs, Taken(r, sectors)))
  {
    if vs != [] && !GapTo(q.seg, prev, vs[0].off) {
      var v, r1 := vs[0], ScanOne(q, vs[0], nsegs, sectors, maxSectors);
      ScanOneTakes(q, v, nsegs, sectors, maxSectors);
      ScanOneSmooth(q, v, nsegs, sectors, maxSectors);
      if !r1.split {
        ScanSmooth(q, vs[1..], Some(v), r1.nsegs, r1.sectors, maxSectors);
        var t := TakeBytes(vs[1..], Taken(Scan(q, vs, prev, nsegs, sectors, maxSectors), r1.sectors));
        GapFreeCons(q.seg, prev, v, t);
        SmoothCons(q.seg, v, t);
      }
    }
  }

  /** The decision for one bio. */
  function Decide(q: IoLimits, b: Bio): SplitResult
    requires Usable(q) && BioOk(q.seg, b)
  {
    Scan(q, b.vecs, None, 0, 0, MaxIoSize(q, b.sector))
  }

  /** blk_bio_segment_split calls bio_split with a sector count its BUG checks accept iff the bio is empty
      or get_max_io_size leaves it some room. */
  lemma SplitIsAccepted(q: IoLimits, b: Bio)
    requires Usable(q) && BioOk(q.seg, b)
    ensures
      var r := Decide(q, b);
      (r.split ==> 0 < r.sectors < b.Sectors()) <==> (b.vecs == [] || MaxIoSize(q, b.sector) > 0)
  {
    var max := MaxIoSize(q, b.sector);
    ScanTakes(q, b.vecs, None, 0, 0, max);
    BytesAreSectors(q.seg, b.vecs);
    if b.vecs != [] {
      var r1 := ScanOne(q, b.vecs[0], 0, 0, max);
      ScanOneTakes(q, b.vecs[0], 0, 0, max);
      if !r1.split {
        ScanTakes(q, b.vecs[1..], Some(b.vecs[0]), r1.nsegs, r1.sectors, max);
      }
    }
  }

  // ---------------------------------------------------------------------------------------------
  // __blk_queue_split, repeated
  // ---------------------------------------------------------------------------------------------

  lemma SplitOk(q: IoLimits, b: Bio)
    requires Usable(q) && AlwaysRoom(q) && BioOk(q.seg, b) && Decide(q, b).split
    ensures 0 < Decide(q, b).sectors < b.Sectors()
    ensures
      var p := BioSplit(b, Decide(q, b).sectors);
      BioOk(q.seg, p.0) && BioOk(q.seg, p.1) && Bytes(p.1.vecs) < Bytes(b.vecs)
  {
    RoomSuffices(q, b.sector);
    SplitIsAccepted(q, b);
    BothOk(q.seg, b, Decide(q, b).sectors);
  }

  lemma BothOk(q: Limits, b: Bio, sectors: nat)
    requires 0 < q.page && BioOk(q, b) && 0 < sectors < b.Sectors()
    ensures
      var p := BioSplit(b, sectors);
      BioOk(q, p.0) && BioOk(q, p.1) && Bytes(p.1.vecs) < Bytes(b.vecs)
  {
    CutOk(q, b.vecs, sectors * SECTOR);
    CutBytes(b.vecs, sectors * SECTOR);
  }

  /** The bios a bio is split into: the first part goes to the driver, the rest is submitted again. */
  function Pieces(q: IoLimits, b: Bio): seq<Bio>
    requires Usable(q) && AlwaysRoom(q) && BioOk(q.seg, b)
    decreases Bytes(b.vecs)
  {
    if !Decide(q, b).split then [b]
    else
      SplitOk(q, b);
      var p := BioSplit(b, Decide(q, b).sectors);
      [p.0] + Pieces(q, p.1)
  }

  /** The memory of a list of bios, in order. */
  function PieceBytes(ps: seq<Bio>): seq<nat> {
    if ps == [] then [] else VecBytes(ps[0].vecs) + PieceBytes(ps[1..])
  }

  /** Each piece starts on the device where the one before it ends. */
  predicate Tiles(ps: seq<Bio>, sector: nat, end: nat) {
    if ps == [] then sector == end else ps[0].sector == sector && Tiles(ps[1..], sector + ps[0].Sectors(), end)
  }

  predicate WithinLimits(q: IoLimits, p: Bio)
    requires Usable(q)
  {
    p.Sectors() <= MaxIoSize(q, p.sector) && SegCount(q.seg, p.vecs) <= q.maxSegs
  }

  /** What goes to the driver: within the limits, without gaps, and with segments that end at the virt boundary. */
  predicate Piece(q: IoLimits, p: Bio)
    requires Usable(q)
  {
    WithinLimits(q, p) && GapFree(q.seg, p.vecs) && AllSmooth(q.seg, p.vecs)
  }

  lemma {:induction false} TakeAll(q: Limits, vs: seq<BVec>)
    requires 0 < q.page && VecsOk(q, vs)
    ensures TakeBytes(vs, Bytes(vs)) == vs
  {
    if vs != [] {
      assert VecOk(q, vs[0]);
      TakeAll(q, vs[1..]);
    }
  }

  lemma FirstIsPiece(q: IoLimits, b: Bio)
    requires Usable(q) && AlwaysRoom(q) && BioOk(q.seg, b)
    ensures Piece(q, Pieces(q, b)[0])
  {
    var r, max := Decide(q, b), MaxIoSize(q, b.sector);
    ScanTakes(q, b.vecs, None, 0, 0, max);
    ScanCounts(q, b.vecs, None, 0, 0, max);
    ScanSmooth(q, b.vecs, None, 0, 0, max);
    if !r.split {
      TakeAll(q.seg, b.vecs);
    } else {
      SplitOk(q, b);
    }
  }

  /** The pieces cover the bio in memory and on the device in order, and each is what the driver can take. */
  predicate GoodPieces(q: IoLimits, ps: seq<Bio>, b: Bio)
    requires Usable(q)
  {
    && PieceBytes(ps) == VecBytes(b.vecs)
    && Tiles(ps, b.sector, b.sector + b.Sectors())
    && forall i :: 0 <= i < |ps| ==> Piece(q, ps[i])
  }

  lemma GoodPiecesCons(q: IoLimits, p: Bio, rest: Bio, ps: seq<Bio>, b: Bio)
    requires Usable(q) && GoodPieces(q, ps, rest) && Piece(q, p)
    requires VecBytes(p.vecs) + VecBytes(rest.vecs) == VecBytes(b.vecs)
    requires p.sector == b.sector && rest.sector == p.sector + p.Sectors()
            && b.Sectors() == p.Sectors() + rest.Sectors()
    ensures GoodPieces(q, [p] + ps, b)
  {
    assert ([p] + ps)[1..] == ps;
  }

  /** Repeated splitting terminates without a BUG, and gives good pieces. */
  lemma {:induction false} PiecesTile(q: IoLimits, b: Bio)
    requires Usable(q) && AlwaysRoom(q) && BioOk(q.seg, b)
    ensures GoodPieces(q, Pieces(q, b), b)
    decreases Bytes(b.vecs)
  {
    FirstIsPiece(q, b);
    if Decide(q, b).split {
      SplitOk(q, b);
      var p := BioSplit(b, Decide(q, b).sectors);
      PiecesTile(q, p.1);
      GoodPiecesCons(q, p.0, p.1, Pieces(q, p.1), b);
    } else {
      assert PieceBytes([b]) == VecBytes(b.vecs) + PieceBytes([]);
    }
  }
}
