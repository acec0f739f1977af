/** The life of a read/write request: merges (bio_attempt_back_merge, bio_attempt_front_merge,
    attempt_merge), partial completion (blk_update_request), the end (blk_mq_end_request) and the mapping
    to a scatterlist (blk_rq_map_sg). */
module Requests {
  import opened Arith
  import opened Lists
  import opened Segments
  import opened SegmentCounting
  import opened SgMapping
  import opened BioSplitting

  function Size(b: Bio): nat {
    Bytes(b.vecs)
  }

  function Total(bios: seq<Bio>): nat {
    if bios == [] then 0 else Size(bios[0]) + Total(bios[1..])
  }

  /** The vectors of all bios, in order. */
  function Vecs(bios: seq<Bio>): seq<BVec> {
    if bios == [] then [] else bios[0].vecs + Vecs(bios[1..])
  }

  predicate BiosOk(q: Limits, bios: seq<Bio>)
    requires 0 < q.page
  {
    forall i :: 0 <= i < |bios| ==> VecsOk(q, bios[i].vecs) && bios[i].vecs != []
  }

  lemma {:induction false} TotalPlus(a: seq<Bio>, b: seq<Bio>)
    ensures Total(a + b) == Total(a) + Total(b)
  {
    if a == [] {
      assert a + b == b;
    } else {
      assert (a + b)[1..] == a[1..] + b;
      TotalPlus(a[1..], b);
    }
  }

  lemma {:induction false} VecsPlus(a: seq<Bio>, b: seq<Bio>)
    ensures Vecs(a + b) == Vecs(a) + Vecs(b)
  {
    if a == [] {
      assert a + b == b;
    } else {
      assert (a + b)[1..] == a[1..] + b;
      VecsPlus(a[1..], b);
      assert a[0].vecs + (Vecs(a[1..]) + Vecs(b)) == Vecs(a) + Vecs(b);
    }
  }

  lemma {:induction false} VecsBytes(bios: seq<Bio>)
    ensures Bytes(Vecs(bios)) == Total(bios)
  {
    if bios != [] {
      VecsBytes(bios[1..]);
      BytesPlus(bios[0].vecs, Vecs(bios[1..]));
    }
  }

  lemma {:induction false} VecsAllOk(q: Limits, bios: seq<Bio>)
    requires 0 < q.page && BiosOk(q, bios)
    ensures VecsOk(q, Vecs(bios))
    ensures Total(bios) % SECTOR == 0
    ensures bios != [] ==> Total(bios) > 0
  {
    if bios != [] {
      VecsAllOk(q, bios[1..]);
      BytesAreSectors(q, bios[0].vecs);
    }
  }

  /** Contiguous bios, then contiguous bios from where the first list ends. */
  lemma {:induction false} TilesPlus(a: seq<Bio>, b: seq<Bio>, start: nat, mid: nat, end: nat)
    requires Tiles(a, start, mid) && Tiles(b, mid, end)
    ensures Tiles(a + b, start, end)
  {
    if a == [] {
      assert a + b == b;
    } else {
      assert (a + b)[1..] == a[1..] + b;
      TilesPlus(a[1..], b, start + a[0].Sectors(), mid, end);
    }
  }

  // ---------------------------------------------------------------------------------------------
  // Partial completion
  // ---------------------------------------------------------------------------------------------

  /** The bios left once the first n bytes are done. */
  function Rest(bios: seq<Bio>, n: nat): seq<Bio> {
    if bios == [] || n == 0 then bios
    else if Size(bios[0]) <= n then Rest(bios[1..], n - Size(bios[0]))
    else [Bio(bios[0].sector + n / SECTOR, DropBytes(bios[0].vecs, n))] + bios[1..]
  }

  /** r is the bios without their first n bytes: on the device and in memory. */
  ghost predicate IsRest(q: Limits, bios: seq<Bio>, n: nat, start: nat, end: nat, r: seq<Bio>)
    requires 0 < q.page
  {
    && BiosOk(q, r)
    && Tiles(r, start + n / SECTOR, end)
    && Total(r) == Total(bios) - n
    && Vecs(r) == DropBytes(Vecs(bios), n)
  }

  lemma RestBeyond(q: Limits, bios: seq<Bio>, n: nat, start: nat, end: nat, r: seq<Bio>)
    requires 0 < q.page && BiosOk(q, bios) && bios != [] && Size(bios[0]) <= n && n % SECTOR == 0
    requires IsRest(q, bios[1..], n - Size(bios[0]), start + bios[0].Sectors(), end, r)
    ensures IsRest(q, bios, n, start, end, r)
  {
    BytesAreSectors(q, bios[0].vecs);
    DropFirst(q, bios, n);
    assert bios[0].Sectors() + (n - Size(bios[0])) / SECTOR == n / SECTOR;
  }

  /** What is left is a contiguous suffix of the request. */
  lemma {:induction false} RestIsSuffix(q: Limits, bios: seq<Bio>, n: nat, start: nat, end: nat)
    requires 0 < q.page && BiosOk(q, bios) && n % SECTOR == 0 && n <= Total(bios)
    requires Tiles(bios, start, end)
    ensures IsRest(q, bios, n, start, end, Rest(bios, n))
  {
    if bios == [] || n == 0 {
    } else if Size(bios[0]) <= n {
      BytesAreSectors(q, bios[0].vecs);
      RestIsSuffix(q, bios[1..], n - Size(bios[0]), start + bios[0].Sectors(), end);
      RestBeyond(q, bios, n, start, end, Rest(bios, n));
    } else {
      RestWithin(q, bios, n, start, end);
    }
  }

  lemma {:induction false} DropBeyond(a: seq<BVec>, b: seq<BVec>, n: nat)
    requires Bytes(a) <= n
    requires forall i :: 0 <= i < |a| ==> a[i].len > 0
    ensures DropBytes(a + b, n) == DropBytes(b, n - Bytes(a))
  {
    if a == [] {
      assert a + b == b;
    } else {
      assert (a + b)[1..] == a[1..] + b;
      DropBeyond(a[1..], b, n - a[0].len);
    }
  }

  lemma DropFirst(q: Limits, bios: seq<Bio>, n: nat)
    requires 0 < q.page && BiosOk(q, bios) && bios != [] && Size(bios[0]) <= n
    ensures DropBytes(Vecs(bios), n) == DropBytes(Vecs(bios[1..]), n - Size(bios[0]))
  {
    DropBeyond(bios[0].vecs, Vecs(bios[1..]), n);
  }

  lemma {:induction false} DropWithin(a: seq<BVec>, b: seq<BVec>, n: nat)
    requires n < Bytes(a)
    ensures DropBytes(a + b, n) == DropBytes(a, n) + b
    ensures DropBytes(a, n) != []
  {
    if n > 0 {
      assert (a + b)[1..] == a[1..] + b && (a + b)[0] == a[0];
      if a[0].len <= n {
        DropWithin(a[1..], b, n - a[0].len);
      } else {
        Assoc([BVec(a[0].page, a[0].off + n, a[0].len - n)], a[1..], b);
      }
    }
  }

  /** The bios after one round of the completion loop with `left` bytes to account for. */
  function AfterRound(bios: seq<Bio>, left: nat): seq<Bio>
    requires bios != []
  {
    if Size(bios[0]) <= left then bios[1..]
    else [Bio(bios[0].sector + left / SECTOR, DropBytes(bios[0].vecs, left))] + bios[1..]
  }

  lemma RestStep(q: Limits, bios: seq<Bio>, left: nat)
    requires 0 < q.page && BiosOk(q, bios) && bios != [] && left % SECTOR == 0
    ensures
      var r, bytes := AfterRound(bios, left), Min(Size(bios[0]), left);
      && Rest(r, left - bytes) == Rest(bios, left)
      && Total(r) == Total(bios) - bytes
      && BiosOk(q, r)
      && bytes % SECTOR == 0
  {
    BytesAreSectors(q, bios[0].vecs);
    if left < Size(bios[0]) {
      CutBytes(bios[0].vecs, left);
      CutOk(q, bios[0].vecs, left);
      assert AfterRound(bios, left)[1..] == bios[1..];
      if left == 0 {
        assert AfterRound(bios, left) == bios;
      }
    }
  }

  /** Between the rounds of the completion loop for n bytes. */
  ghost predicate Completing(q: Limits, bios0: seq<Bio>, n: nat, bios: seq<Bio>, total: nat, left: nat)
    requires 0 < q.page
  {
    && total + left == n && left % SECTOR == 0
    && total + Total(bios) == Total(bios0)
    && BiosOk(q, bios)
    && Rest(bios, left) == Rest(bios0, n)
  }

  lemma RoundKeeps(q: Limits, bios0: seq<Bio>, n: nat, bios: seq<Bio>, total: nat, left: nat)
    requires 0 < q.page && Completing(q, bios0, n, bios, total, left) && bios != []
    ensures
      var bytes := Min(Size(bios[0]), left);
      Completing(q, bios0, n, AfterRound(bios, left), total + bytes, left - bytes)
  {
    RestStep(q, bios, left);
  }

  lemma Completed(q: Limits, bios0: seq<Bio>, n: nat, bios: seq<Bio>, total: nat, left: nat)
    requires 0 < q.page && Completing(q, bios0, n, bios, total, left) && (bios == [] || left == 0)
    ensures total == Min(n, Total(bios0))
    ensures n < Total(bios0) ==> bios == Rest(bios0, n) && bios != []
    ensures n >= Total(bios0) ==> bios == []
  {
    VecsAllOk(q, bios);
  }

  lemma RestWithin(q: Limits, bios: seq<Bio>, n: nat, start: nat, end: nat)
    requires 0 < q.page && BiosOk(q, bios) && n % SECTOR == 0 && bios != [] && 0 < n < Size(bios[0])
    requires Tiles(bios, start, end)
    ensures IsRest(q, bios, n, start, end, Rest(bios, n))
  {
    var b, r := bios[0], Rest(bios, n);
    BytesAreSectors(q, b.vecs);
    CutOk(q, b.vecs, n);
    CutBytes(b.vecs, n);
    DropWithin(b.vecs, Vecs(bios[1..]), n);
    assert r[1..] == bios[1..];
    assert r[0].Sectors() == b.Sectors() - n / SECTOR;
  }

  // ---------------------------------------------------------------------------------------------
  // Completing part of a request never makes it need more segments
  // ---------------------------------------------------------------------------------------------

  lemma DivMonotone(x: nat, y: nat, b: nat)
    requires 0 < b && x <= y
    ensures x / b * b <= y / b * b
  {
    if y / b < x / b {
      assert (x / b - y / b) * b == x / b * b - y / b * b;
      MulAtLeast(x / b - y / b, b);
    }
  }

  /** A segment that starts later reaches at least as far. */
  lemma ReachMonotone(q: Limits, x: nat, y: nat)
    requires Sound(q) && x <= y
    ensures x + MaxSegmentSize(q, x) <= y + MaxSegmentSize(q, y)
  {
    DivMonotone(x, y, q.boundary);
    assert x == x / q.boundary * q.boundary + x % q.boundary;
    assert y == y / q.boundary * q.boundary + y % q.boundary;
  }

  /** Greedy cutting stays ahead: of two ranges with the same end, the one that starts later never needs
      more segments. */
  lemma {:induction false} LaterNeedsFewer(q: Limits, x: nat, y: nat, end: nat)
    requires Sound(q) && x <= y <= end
    ensures |Cuts(q, y, end - y)| <= |Cuts(q, x, end - x)|
    decreases end - x
  {
    if y < end {
      var n, m := Min(MaxSegmentSize(q, x), end - x), Min(MaxSegmentSize(q, y), end - y);
      ReachMonotone(q, x, y);
      LaterNeedsFewer(q, x + n, y + m, end);
      CutsHead(q, x, n, end - x);
      CutsHead(q, y, m, end - y);
      assert end - y - m == end - (y + m) && end - x - n == end - (x + n);
    }
  }

  lemma {:induction false} DropNeedsFewer(q: Limits, vs: seq<BVec>, n: nat)
    requires Sound(q)
    ensures SegCount(q, DropBytes(vs, n)) <= SegCount(q, vs)
  {
    if vs != [] && n > 0 {
      var v := vs[0];
      if v.len <= n {
        DropNeedsFewer(q, vs[1..], n - v.len);
      } else {
        LaterNeedsFewer(q, v.Addr(), v.Addr() + n, v.Addr() + v.len);
        assert DropBytes(vs, n)[1..] == vs[1..];
      }
    }
  }

  /** Nor does it make it cross a chunk boundary or the sector limit. */
  lemma RoomAfter(q: IoLimits, sector: nat, n: nat, k: nat)
    requires Usable(q) && n <= ChunkRoom(q, sector) && k < n
    ensures n - k <= ChunkRoom(q, sector + k)
  {
    if q.chunk > 0 {
      ModPlus(sector, k, q.chunk);
    }
  }

  // ---------------------------------------------------------------------------------------------
  // Gaps
  // ---------------------------------------------------------------------------------------------

  function VecLists(bios: seq<Bio>): seq<seq<BVec>> {
    if bios == [] then [] else [bios[0].vecs] + VecLists(bios[1..])
  }

  lemma {:induction false} VecListsOk(q: Limits, bios: seq<Bio>)
    requires 0 < q.page && BiosOk(q, bios)
    ensures Concat(VecLists(bios)) == Vecs(bios)
    ensures forall i :: 0 <= i < |VecLists(bios)| ==> VecsOk(q, VecLists(bios)[i])
  {
    if bios != [] {
      VecListsOk(q, bios[1..]);
    }
  }

  lemma {:induction false} VecListsAt(bios: seq<Bio>)
    ensures |VecLists(bios)| == |bios|
    ensures forall i :: 0 <= i < |bios| ==> VecLists(bios)[i] == bios[i].vecs
  {
    if bios != [] {
      VecListsAt(bios[1..]);
    }
  }

  lemma {:induction false} VecListsPlus(a: seq<Bio>, b: seq<Bio>)
    ensures VecLists(a + b) == VecLists(a) + VecLists(b)
  {
    if a == [] {
      assert a + b == b;
    } else {
      assert (a + b)[1..] == a[1..] + b;
      VecListsPlus(a[1..], b);
    }
  }

  /** bio_get_first_bvec and bio_get_last_bvec of a request. */
  function FirstVec(bios: seq<Bio>): BVec
    requires bios != [] && bios[0].vecs != []
  {
    bios[0].vecs[0]
  }

  function LastVec(bios: seq<Bio>): BVec
    requires bios != [] && bios[|bios| - 1].vecs != []
  {
    LastOf(bios[|bios| - 1].vecs)
  }

  function LastOf(vs: seq<BVec>): BVec
    requires vs != []
  {
    vs[|vs| - 1]
  }

  /** bio_will_gap: may a bio that starts with v not be put behind u, in a request that starts with `first`? */
  predicate WillGap(q: Limits, first: BVec, u: BVec, v: BVec)
    requires 0 < q.boundary && 0 < q.virt
  {
    q.virt > 1 && (first.off % q.virt != 0 || !Meets(q, u, v))
  }

  /** When a merge is refused for a gap: the request would not start on the virt boundary, or two vectors would meet
      off it and are not contiguous within one window. */
  lemma WillGapIff(q: Limits, first: BVec, u: BVec, v: BVec)
    requires Sound(q)
    ensures q.virt == 1 ==> !WillGap(q, first, u, v)
    ensures q.virt > 1 && first.off % q.virt != 0 ==> WillGap(q, first, u, v)
    ensures first.off % q.virt == 0 && (u.off + u.len) % q.virt == 0 && v.off % q.virt == 0 ==> !WillGap(q, first, u, v)
    ensures (first.off % q.virt == 0 && u.Addr() + u.len == v.Addr() && v.len > 0
             && u.Addr() % q.boundary + u.len + v.len <= q.boundary) ==> !WillGap(q, first, u, v)
    ensures q.virt > 1 && ((u.off + u.len) % q.virt != 0 || v.off % q.virt != 0) && u.Addr() + u.len != v.Addr()
        ==> WillGap(q, first, u, v)
  {
    if u.len + v.len > 0 {
      OneWindow(u.Addr(), u.len + v.len, q.boundary);
    }
  }

  lemma NoGapsPlus(q: Limits, x: seq<seq<BVec>>, y: seq<seq<BVec>>)
    requires 0 < q.boundary && 0 < q.virt && NoGaps(q, x) && NoGaps(q, y)
    requires x != [] && y != [] && x[|x| - 1] != [] && y[0] != [] && Meets(q, LastOf(x[|x| - 1]), y[0][0])
    ensures NoGaps(q, x + y)
  {
    var r := x + y;
    forall i | 0 < i < |r| ensures Joint(q, r, i) {
      if i < |x| {
        assert Joint(q, x, i);
      } else if i > |x| {
        assert Joint(q, y, i - |x|);
      }
    }
  }

  lemma {:induction false} JoinedNoGaps(q: Limits, a: seq<Bio>, b: seq<Bio>)
    requires 0 < q.page && 0 < q.boundary && 0 < q.virt && BiosOk(q, a) && BiosOk(q, b) && a != [] && b != []
    requires NoGaps(q, VecLists(a)) && NoGaps(q, VecLists(b)) && Meets(q, LastVec(a), FirstVec(b))
    ensures NoGaps(q, VecLists(a + b))
  {
    VecListsAt(a);
    VecListsAt(b);
    VecListsPlus(a, b);
    NoGapsPlus(q, VecLists(a), VecLists(b));
  }

  /** u' is what is left of u. */
  predicate TailOf(u': BVec, u: BVec) {
    u'.page == u.page && u.off <= u'.off && u'.off + u'.len == u.off + u.len && 0 < u'.len
  }

  lemma TailMeets(q: Limits, u': BVec, u: BVec, v: BVec)
    requires 0 < q.boundary && 0 < q.virt && TailOf(u', u) && Meets(q, u, v) && 0 < v.len
    ensures Meets(q, u', v)
  {
    if PhysMergeable(q, u, v) {
      var b, a := q.boundary, u.Addr();
      OneWindow(a, VecEnd(v) - a, b);
      ModPlus(a, u'.Addr() - a, b);
    }
  }

  lemma {:induction false} DropKeepsEnd(q: Limits, vs: seq<BVec>, n: nat)
    requires 0 < q.virt && GapFree(q, vs) && n < Bytes(vs) && forall i :: 0 <= i < |vs| ==> vs[i].len > 0
    ensures DropBytes(vs, n) != [] && TailOf(LastOf(DropBytes(vs, n)), LastOf(vs)) && GapFree(q, DropBytes(vs, n))
  {
    if n > 0 {
      if vs[0].len <= n {
        DropKeepsEnd(q, vs[1..], n - vs[0].len);
      } else {
        var r := DropBytes(vs, n);
        forall i | 0 < i < |r| ensures !Gap(q, r[i - 1], r[i].off) {
          assert !Gap(q, vs[i - 1], vs[i].off);
        }
      }
    }
  }

  lemma NoGapsTail(q: Limits, x: seq<seq<BVec>>)
    requires 0 < q.boundary && 0 < q.virt && x != [] && NoGaps(q, x)
    ensures NoGaps(q, x[1..])
  {
    forall i | 0 < i < |x[1..]| ensures Joint(q, x[1..], i) {
      assert Joint(q, x, i + 1);
    }
  }

  /** Shortening the first bio makes no gap. */
  lemma NoGapsShorter(q: Limits, x: seq<seq<BVec>>, n: nat)
    requires 0 < q.page && 0 < q.boundary && 0 < q.virt && x != [] && NoGaps(q, x)
    requires (forall i :: 0 <= i < |x| ==> VecsOk(q, x[i]) && x[i] != []) && n < Bytes(x[0])
    ensures NoGaps(q, [DropBytes(x[0], n)] + x[1..])
  {
    var y := DropBytes(x[0], n);
    DropKeepsEnd(q, x[0], n);
    NoGapsTail(q, x);
    if |x| > 1 {
      assert Joint(q, x, 1);
      assert VecOk(q, x[1][0]);
      TailMeets(q, LastOf(y), LastOf(x[0]), x[1][0]);
      NoGapsPlus(q, [y], x[1..]);
    } else {
      assert [y] + x[1..] == [y];
    }
  }

  lemma {:induction false} RestNoGaps(q: Limits, bios: seq<Bio>, n: nat)
    requires 0 < q.page && 0 < q.boundary && 0 < q.virt && BiosOk(q, bios) && NoGaps(q, VecLists(bios))
    ensures NoGaps(q, VecLists(Rest(bios, n)))
  {
    VecListsAt(bios);
    if bios != [] && n > 0 {
      if Size(bios[0]) <= n {
        NoGapsTail(q, VecLists(bios));
        RestNoGaps(q, bios[1..], n - Size(bios[0]));
      } else {
        NoGapsShorter(q, VecLists(bios), n);
        assert Rest(bios, n)[1..] == bios[1..];
      }
    }
  }

  // ---------------------------------------------------------------------------------------------
  // struct request
  // ---------------------------------------------------------------------------------------------

  /** Bios contiguous from `sector` on that add up to `dataLen` bytes and have no gaps. */
  predicate Run(q: IoLimits, bios: seq<Bio>, sector: nat, dataLen: nat)
    requires Usable(q)
  {
    && BiosOk(q.seg, bios) && bios != []
    && Tiles(bios, sector, sector + dataLen / SECTOR)
    && dataLen == Total(bios)
    && NoGaps(q.seg, VecLists(bios))
  }

  /** Limits under which __data_len cannot overflow. */
  predicate Plain(q: IoLimits) {
    Usable(q) && q.maxSectors <= UINT_MAX / SECTOR
  }

  /** The limits a queue starts with (blk_set_default_limits, on a machine with pages of 4096 bytes), and what
      blk_queue_virt_boundary makes of them. */
  const DEFAULT_LIMITS := IoLimits(Limits(4096, 0x1_0000_0000, 65536, 1), 255, 0, 1, 1, 128)
  const VIRT_LIMITS := DEFAULT_LIMITS.(seg := Limits(4096, 0x1_0000_0000, UINT_MAX, 4096))

  /** They are among those all the results here are about. */
  lemma DefaultLimitsArePlain()
    ensures Plain(DEFAULT_LIMITS) && AlwaysRoom(DEFAULT_LIMITS) && Even(DEFAULT_LIMITS.seg)
    ensures Plain(VIRT_LIMITS) && AlwaysRoom(VIRT_LIMITS) && Even(VIRT_LIMITS.seg)
  {
  }

  /** nr_phys_segments is right. */
  predicate Counted(q: IoLimits, bios: seq<Bio>, nrSegs: nat)
    requires Usable(q)
  {
    nrSegs == SegCount(q.seg, Vecs(bios)) <= q.maxSegs
  }

  /** Everything the block layer relies on for a live request; moreover the limits of the queue are kept. */
  predicate Coherent(q: IoLimits, bios: seq<Bio>, sector: nat, dataLen: nat, nrSegs: nat) {
    && Plain(q)
    && Run(q, bios, sector, dataLen)
    && dataLen / SECTOR <= ChunkRoom(q, sector)
    && (Even(q.seg) ==> Counted(q, bios, nrSegs))
  }

  /** Joining two runs of bios that meet. */
  lemma {:induction false} Joined(q: IoLimits, a: seq<Bio>, b: seq<Bio>, sa: nat, sb: nat, la: nat, lb: nat)
    requires Usable(q) && Run(q, a, sa, la) && Run(q, b, sb, lb)
    requires sa + la / SECTOR == sb && Meets(q.seg, LastVec(a), FirstVec(b))
    ensures Run(q, a + b, sa, la + lb)
    ensures (la + lb) / SECTOR == la / SECTOR + lb / SECTOR
    ensures SegCount(q.seg, Vecs(a + b)) == SegCount(q.seg, Vecs(a)) + SegCount(q.seg, Vecs(b))
  {
    CountsAdd(q, a, b);
    JoinedTiles(q.seg, a, b, sa, la, lb);
    JoinedNoGaps(q.seg, a, b);
  }

  lemma {:induction false} JoinedTiles(q: Limits, a: seq<Bio>, b: seq<Bio>, sector: nat, la: nat, lb: nat)
    requires 0 < q.page && BiosOk(q, a) && Total(a) == la && Total(b) == lb
    requires Tiles(a, sector, sector + la / SECTOR)
    requires Tiles(b, sector + la / SECTOR, sector + la / SECTOR + lb / SECTOR)
    ensures Tiles(a + b, sector, sector + (la + lb) / SECTOR) && Total(a + b) == la + lb
    ensures (la + lb) / SECTOR == la / SECTOR + lb / SECTOR
  {
    VecsAllOk(q, a);
    SectorsAdd(la, lb);
    TotalPlus(a, b);
    TilesPlus(a, b, sector, sector + la / SECTOR, sector + la / SECTOR + lb / SECTOR);
  }

  lemma SectorsAdd(x: nat, y: nat)
    requires x % SECTOR == 0
    ensures (x + y) / SECTOR == x / SECTOR + y / SECTOR
  {
  }

  lemma CountsAdd(q: IoLimits, a: seq<Bio>, b: seq<Bio>)
    requires Usable(q)
    ensures SegCount(q.seg, Vecs(a + b)) == SegCount(q.seg, Vecs(a)) + SegCount(q.seg, Vecs(b))
  {
    VecsPlus(a, b);
    SegCountPlus(q.seg, Vecs(a), Vecs(b));
  }

  lemma Shortened(q: IoLimits, bios: seq<Bio>, sector: nat, dataLen: nat, n: nat)
    requires Plain(q) && Run(q, bios, sector, dataLen) && dataLen / SECTOR <= ChunkRoom(q, sector)
    requires n % SECTOR == 0 && n < dataLen
    ensures
      var r := Rest(bios, n);
      && Run(q, r, sector + n / SECTOR, dataLen - n)
      && (dataLen - n) / SECTOR <= ChunkRoom(q, sector + n / SECTOR)
      && SegCount(q.seg, Vecs(r)) <= SegCount(q.seg, Vecs(bios))
  {
    VecsAllOk(q.seg, bios);
    RestIsSuffix(q.seg, bios, n, sector, sector + dataLen / SECTOR);
    RestNoGaps(q.seg, bios, n);
    DropNeedsFewer(q.seg, Vecs(bios), n);
    RoomAfter(q, sector, dataLen / SECTOR, n / SECTOR);
  }

  lemma OneBio(q: IoLimits, b: Bio)
    requires Usable(q) && VecsOk(q.seg, b.vecs) && b.vecs != [] && GapFree(q.seg, b.vecs)
    ensures Run(q, [b], b.sector, Size(b))
    ensures SegCount(q.seg, Vecs([b])) == SegCount(q.seg, b.vecs)
  {
    assert [b][1..] == [];
    assert Vecs([b]) == b.vecs + [] == b.vecs;
  }

  class Request {
    const q: IoLimits
    var bios: seq<Bio>
    var sector: nat
    var dataLen: nat
    var nrSegs: nat
    var noMerge: bool

    /** A request whose bios are gone is about to be freed. */
    ghost predicate Valid()
      reads this
    {
      bios != [] ==> Coherent(q, bios, sector, dataLen, nrSegs)
    }

    ghost predicate RightCount()
      reads this
    {
      Usable(q) && Counted(q, bios, nrSegs)
    }

    /** blk_rq_bio_prep, for a bio that went through the splitting of its queue. */
    constructor (q: IoLimits, b: Bio, nrSegs: nat)
      requires Plain(q) && VecsOk(q.seg, b.vecs) && b.vecs != []
      requires Piece(q, b) && nrSegs == SegCount(q.seg, b.vecs)
      ensures Valid() && RightCount() && this.q == q && bios == [b]
    {
      OneBio(q, b);
      this.q := q;
      bios, sector, dataLen, this.nrSegs, noMerge := [b], b.sector, Bytes(b.vecs), nrSegs, false;
    }

    /** Is there room for so many more sectors and segments, if the request then starts at `start`? */
    predicate Fitting(start: nat, sectors: nat, segs: nat)
      requires Plain(q)
      reads this
    {
      dataLen / SECTOR + sectors <= ChunkRoom(q, start) && nrSegs + segs <= q.maxSegs
    }

    /** There is room iff the merged request is within the limits at its new start. */
    lemma FittingIff(others: seq<Bio>, start: nat)
      requires Valid() && bios != [] && RightCount() && Total(others) % SECTOR == 0
      ensures Fitting(start, Total(others) / SECTOR, SegCount(q.seg, Vecs(others))) <==>
                Total(bios + others) <= ChunkRoom(q, start) * SECTOR && SegCount(q.seg, Vecs(bios + others)) <= q.maxSegs
    {
      VecsAllOk(q.seg, bios);
      TotalPlus(bios, others);
      VecsPlus(bios, others);
      SegCountPlus(q.seg, Vecs(bios), Vecs(others));
    }

    /** ll_back_merge_fn / ll_front_merge_fn / ll_new_hw_segment for a request that would start at `start`. */
    method NewHwSegment(start: nat, sectors: nat, segs: nat, gap: bool, allowed: bool) returns (ok: bool)
      requires Plain(q)
      modifies this`nrSegs, this`noMerge
      ensures ok <==> !gap && allowed && old(Fitting(start, sectors, segs))
      ensures nrSegs == if ok then old(nrSegs) + segs else old(nrSegs)
      ensures noMerge <==> old(noMerge) || (!gap && !old(Fitting(start, sectors, segs))
                                            && (allowed || dataLen / SECTOR + sectors > ChunkRoom(q, start)))
    {
      if gap {
        return false;
      }
      if dataLen / SECTOR + sectors > ChunkRoom(q, start) {
        noMerge := true;
        return false;
      }
      if !allowed {
        return false;
      }
      if nrSegs + segs > q.maxSegs {
        noMerge := true;
        return false;
      }
      nrSegs := nrSegs + segs;
      return true;
    }

    /** bio_attempt_back_merge, called when blk_try_merge found that the bio follows the request.
        `allowed` is the verdict of the inline-encryption check. */
    method BackMerge(b: Bio, segs: nat, allowed: bool) returns (ok: bool)
      requires Valid() && bios != []
      requires VecsOk(q.seg, b.vecs) && b.vecs != [] && GapFree(q.seg, b.vecs) && segs == SegCount(q.seg, b.vecs)
      requires sector + dataLen / SECTOR == b.sector
      modifies this
      ensures Valid() && sector == old(sector)
      ensures ok <==> allowed && !WillGap(q.seg, FirstVec(old(bios)), LastVec(old(bios)), b.vecs[0])
                      && old(Fitting(sector, b.Sectors(), segs))
      ensures bios == if ok then old(bios) + [b] else old(bios)
      ensures old(RightCount()) ==> RightCount()
    {
      OneBio(q, b);
      var gap := WillGap(q.seg, FirstVec(bios), LastVec(bios), b.vecs[0]);
      if !gap {
        Joined(q, bios, [b], sector, b.sector, dataLen, Size(b));
      }
      ok := NewHwSegment(sector, b.Sectors(), segs, gap, allowed);
      if ok {
        bios := bios + [b];
        dataLen := dataLen + Bytes(b.vecs);
      }
    }

    /** bio_attempt_front_merge, called when blk_try_merge found that the bio precedes the request. */
    method FrontMerge(b: Bio, segs: nat, allowed: bool) returns (ok: bool)
      requires Valid() && bios != []
      requires VecsOk(q.seg, b.vecs) && b.vecs != [] && GapFree(q.seg, b.vecs) && segs == SegCount(q.seg, b.vecs)
      requires b.sector + b.Sectors() == sector
      modifies this
      ensures Valid()
      ensures ok <==> allowed && !WillGap(q.seg, b.vecs[0], LastOf(b.vecs), FirstVec(old(bios)))
                      && old(Fitting(b.sector, b.Sectors(), segs))
      ensures bios == if ok then [b] + old(bios) else old(bios)
      ensures sector == if ok then b.sector else old(sector)
      ensures old(RightCount()) ==> RightCount()
    {
      OneBio(q, b);
      var gap := WillGap(q.seg, b.vecs[0], LastOf(b.vecs), FirstVec(bios));
      if !gap {
        Joined(q, [b], bios, b.sector, sector, Size(b), dataLen);
      }
      ok := NewHwSegment(b.sector, b.Sectors(), segs, gap, allowed);
      if ok {
        bios := [b] + bios;
        sector := b.sector;
        dataLen := dataLen + Bytes(b.vecs);
      }
    }

    /** attempt_merge: `next` hands its bios over if it follows this request and the limits allow it. */
    method AttemptMerge(next: Request, allowed: bool) returns (merged: bool)
      requires next != this && next.q == q
      requires Valid() && bios != [] && next.Valid() && next.bios != []
      modifies this, next
      ensures Valid() && next.Valid() && sector == old(sector)
      ensures merged <==> allowed && old(sector) + old(dataLen) / SECTOR == old(next.sector)
                          && !WillGap(q.seg, FirstVec(old(bios)), LastVec(old(bios)), FirstVec(old(next.bios)))
                          && old(Fitting(sector, next.dataLen / SECTOR, next.nrSegs))
      ensures merged ==> bios == old(bios) + old(next.bios) && next.bios == []
      ensures !merged ==> bios == old(bios) && next.bios == old(next.bios)
      ensures old(RightCount() && next.RightCount()) ==> RightCount()
    {
      if sector + dataLen / SECTOR != next.sector {
        return false;
      }
      if WillGap(q.seg, FirstVec(bios), LastVec(bios), FirstVec(next.bios)) {
        return false;
      }
      if dataLen / SECTOR + next.dataLen / SECTOR > ChunkRoom(q, sector) {
        return false;
      }
      if nrSegs + next.nrSegs > q.maxSegs || !allowed {
        return false;
      }
      Joined(q, bios, next.bios, sector, next.sector, dataLen, next.dataLen);
      nrSegs := nrSegs + next.nrSegs;
      bios := bios + next.bios;
      dataLen := dataLen + next.dataLen;
      next.bios := [];
      return true;
    }

    /** blk_update_request: n bytes are done.  Returns whether the request has more data. */
    method Update(n: nat) returns (more: bool)
      requires Valid() && n % SECTOR == 0
      modifies this
      ensures Valid()
      ensures more <==> old(bios) != [] && n < old(dataLen)
      ensures more ==> bios == Rest(old(bios), n)
      ensures more ==> dataLen == old(dataLen) - n && sector == old(sector) + n / SECTOR
      ensures !more ==> bios == [] && (old(bios) != [] ==> dataLen == 0)
      ensures more ==> nrSegs <= SegCount(q.seg, Vecs(bios))
      ensures more && old(RightCount()) ==> (RightCount() <==> AllSmooth(q.seg, Vecs(bios)))
    {
      if bios == [] {
        return false;
      }
      ghost var bios0 := bios;
      VecsAllOk(q.seg, bios);
      var total := CompleteBios(n);
      if bios == [] {
        dataLen := 0;
        return false;
      }
      Shortened(q, bios0, sector, dataLen, n);
      dataLen := dataLen - total;
      sector := sector + total / SECTOR;
      VecsAllOk(q.seg, bios);
      VecsBytes(bios);
      if dataLen < bios[0].vecs[0].len {
        FirstVecFits(bios);
        assert false;  // "request botched"
      }
      nrSegs := RecalcRqSegments(q.seg, Vecs(bios));
      return true;
    }

    /** One round of that loop. */
    method CompleteFirst(left: nat) returns (bytes: nat)
      requires bios != []
      modifies this`bios
      ensures bytes == Min(Size(old(bios)[0]), left)
      ensures bios == AfterRound(old(bios), left)
    {
      var b := bios[0];
      bytes := Min(Bytes(b.vecs), left);
      if bytes == Bytes(b.vecs) {
        bios := bios[1..];
      } else {
        bios := [Bio(b.sector + bytes / SECTOR, DropBytes(b.vecs, bytes))] + bios[1..];
      }
    }

    /** The loop of blk_update_request: bios are finished from the front, the last one in part. */
    method CompleteBios(n: nat) returns (total: nat)
      requires 0 < q.seg.page && bios != [] && BiosOk(q.seg, bios) && n % SECTOR == 0
      modifies this`bios
      ensures total == Min(n, Total(old(bios)))
      ensures n < Total(old(bios)) ==> bios == Rest(old(bios), n) && bios != []
      ensures n >= Total(old(bios)) ==> bios == []
    {
      var left := n;
      total := 0;
      ghost var bios0 := bios;
      while bios != []
        invariant 0 <= left && Completing(q.seg, bios0, n, bios, total, left)
        decreases |bios|, left
      {
        RoundKeeps(q.seg, bios0, n, bios, total, left);
        var bytes := CompleteFirst(left);
        total, left := total + bytes, left - bytes;
        if left == 0 {
          break;
        }
      }
      Completed(q.seg, bios0, n, bios, total, left);
    }

    /** blk_mq_end_request: completing blk_rq_bytes bytes always empties the request. */
    method EndRequest()
      requires Valid()
      modifies this
      ensures bios == []
    {
      if bios != [] {
        VecsAllOk(q.seg, bios);
        var more := Update(dataLen);
      }
    }

    /** blk_rq_map_sg: the warning that there are more entries than nr_phys_segments does not fire if the count is
        right, and the device gets no gaps. */
    method MapSg() returns (l: seq<Sg>, nsegs: nat)
      requires Valid() && bios != []
      ensures SgBytes(l) == VecBytes(Vecs(bios))
      ensures AllSgOk(q.seg, l)
      ensures nsegs == |l| <= SegCount(q.seg, Vecs(bios))
      ensures RightCount() ==> nsegs <= nrSegs <= q.maxSegs
      ensures Even(q.seg) ==> RightCount() && SgGapFree(q.seg, l)
    {
      VecListsOk(q.seg, bios);
      VecsBytes(bios);
      l, nsegs := BiosMapSg(q.seg, VecLists(bios));
    }
  }

  /** A queue with a virt boundary whose segment size is limited all the same, as by stacking it on another device. */
  const STACKED_LIMITS := IoLimits(Limits(4096, 0x1_0000_0000, 65536, 4096), 1024, 0, 1, 1, 128)

  lemma TwoCuts(q: Limits, addr: nat, n: nat, len: nat)
    requires Sound(q) && n == MaxSegmentSize(q, addr) && n < len && len - n <= MaxSegmentSize(q, addr + n)
    ensures |Cuts(q, addr, len)| == 2
  {
    CutsHead(q, addr, n, len);
    CutsHead(q, addr + n, len - n, len - n);
  }

  lemma TwoUnbroken(q: Limits, off: nat, addr: nat, n: nat, len: nat)
    requires Sound(q) && n == MaxSegmentSize(q, addr) && n < len && len - n <= MaxSegmentSize(q, addr + n)
    ensures Unbroken(q, off, addr, len) <==> (off + n) % q.virt == 0
  {
    assert Unbroken(q, off + n, addr + n, len - n);
  }

  /** A vector of two segments. */
  lemma TwoSegments(q: Limits, v: BVec, n: nat)
    requires Sound(q) && n == MaxSegmentSize(q, v.Addr()) < v.len && v.len - n <= MaxSegmentSize(q, v.Addr() + n)
    ensures SegCount(q, [v]) == 2
    ensures AllSmooth(q, [v]) <==> (v.off + n) % q.virt == 0
  {
    TwoCuts(q, v.Addr(), n, v.len);
    TwoUnbroken(q, v.off, v.Addr(), n, v.len);
    assert [v][1..] == [] && [v][0] == v;
    assert AllSmooth(q, [v]) <==> Smooth(q, [v][0]);
  }

  lemma StackedIsPlain(addr: nat)
    requires addr < 0x10_0000
    ensures Plain(STACKED_LIMITS) && MaxIoSize(STACKED_LIMITS, 0) == 1024
    ensures MaxSegmentSize(STACKED_LIMITS.seg, addr) == 65536
  {
  }

  lemma OneVec(q: Limits, v: BVec)
    requires 0 < q.page && 0 < q.virt && VecOk(q, v)
    ensures Bytes([v]) == v.len && VecsOk(q, [v]) && GapFree(q, [v])
  {
    assert [v][1..] == [];
  }

  /** One vector of two segments on that queue. */
  lemma StackedVec(v: BVec)
    requires v.page == 0 && VecOk(STACKED_LIMITS.seg, v) && 65536 < v.len <= 131072 && v.off < 65536
    ensures Plain(STACKED_LIMITS) && SegCount(STACKED_LIMITS.seg, [v]) == 2
    ensures AllSmooth(STACKED_LIMITS.seg, [v]) <==> v.off % 4096 == 0
    ensures Piece(STACKED_LIMITS, Bio(0, [v])) <==> v.off % 4096 == 0
  {
    var q := STACKED_LIMITS;
    StackedIsPlain(v.Addr());
    StackedIsPlain(v.Addr() + 65536);
    TwoSegments(q.seg, v, 65536);
    OneVec(q.seg, v);
  }

  /** What is left of a vector after its first sector. */
  function SectorLess(v: BVec): BVec
    requires SECTOR < v.len
  {
    BVec(v.page, v.off + SECTOR, v.len - SECTOR)
  }

  lemma RestOfOne(b: Bio, v: BVec)
    requires b.vecs == [v] && SECTOR < v.len
    ensures Vecs(Rest([b], SECTOR)) == [SectorLess(v)]
  {
    assert [v][1..] == [] && [b][1..] == [];
    assert Bytes(b.vecs) == v.len;
    var r := Rest([b], SECTOR);
    assert DropBytes(b.vecs, SECTOR) == [SectorLess(v)];
    assert r == [Bio(b.sector + 1, [SectorLess(v)])] && r[1..] == [];
  }

  /** When the first sector of such a vector is completed, the rest is cut elsewhere, off the virt boundary.  Then one
      segment is not counted, and the mapping has more entries than nr_phys_segments. */
  method MissedSegment(v: BVec) returns (r: Request, nsegs: nat)
    requires v.page == 0 && VecOk(STACKED_LIMITS.seg, v) && 65536 + SECTOR < v.len <= 131072
    requires v.off < 65024 && v.off % 4096 == 0
    ensures r.Valid() && Vecs(r.bios) == [SectorLess(v)] && r.nrSegs < nsegs
  {
    StackedVec(v);
    StackedVec(SectorLess(v));
    OneVec(STACKED_LIMITS.seg, v);
    var b := Bio(0, [v]);
    RestOfOne(b, v);
    r := new Request(STACKED_LIMITS, b, 2);
    var more := r.Update(SECTOR);
    OneVec(STACKED_LIMITS.seg, SectorLess(v));
    VecBytesLength(Vecs(r.bios));
    var l;
    l, nsegs := r.MapSg();
    AtMostOneEntry(STACKED_LIMITS.seg, l);
  }

  lemma AtMostOneEntry(q: Limits, l: seq<Sg>)
    requires 0 < q.boundary && AllSgOk(q, l)
    ensures |l| <= 1 ==> |SgBytes(l)| <= q.maxSeg
  {
    if |l| == 1 {
      SpanLength(l[0].Addr(), l[0].len);
      assert SgBytes(l[..0]) == [];
    }
  }

  lemma FirstVecFits(bios: seq<Bio>)
    requires bios != [] && bios[0].vecs != []
    ensures bios[0].vecs[0].len <= Total(bios)
  {
  }
}
