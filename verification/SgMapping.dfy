/** __blk_bios_map_sg and its helpers (block/blk-merge.c): mapping a request to a scatterlist. */
module SgMapping {
  import opened Arith
  import opened Lists
  import opened Segments
  import opened SegmentCounting

  /** __blk_segment_map_sg_merge: may v, the first vector of a bio, grow the last entry, which ends with u? */
  predicate CanGrow(q: Limits, v: BVec, u: BVec, l: seq<Sg>)
    requires 0 < q.boundary
  {
    l != [] && l[|l| - 1].len + v.len <= q.maxSeg && PhysMergeable(q, u, v)
  }

  function Grow(l: seq<Sg>, n: nat): seq<Sg>
    requires l != []
  {
    l[|l| - 1 := l[|l| - 1].(len := l[|l| - 1].len + n)]
  }

  lemma SgBytesSnoc(l: seq<Sg>, e: Sg)
    ensures SgBytes(l + [e]) == SgBytes(l) + Span(e.Addr(), e.len)
  {
    assert (l + [e])[..|l|] == l;
  }

  lemma GrowBytes(l: seq<Sg>, n: nat)
    requires l != []
    ensures SgBytes(Grow(l, n)) == SgBytes(l) + Span(End(l[|l| - 1]), n)
  {
    var k, e := |l| - 1, l[|l| - 1];
    var e' := e.(len := e.len + n);
    assert l == l[..k] + [e] && Grow(l, n) == l[..k] + [e'];
    SgBytesSnoc(l[..k], e);
    SgBytesSnoc(l[..k], e');
    SpanPlus(e.Addr(), e.len, n);
  }

  lemma GrowGapFree(q: Limits, l: seq<Sg>, n: nat)
    requires 0 < q.virt && l != []
    ensures SgGapFree(q, l) ==> SgGapFree(q, Grow(l, n))
  {
    assert Grow(l, n)[..|l| - 1] == l[..|l| - 1];
  }

  /** Two stretches that end together, each inside one window, leave the same room in it. */
  lemma SameRoom(a: nat, n: nat, c: nat, m: nat, b: nat)
    requires 0 < n && 0 < m && 0 < b && a + n == c + m && a % b + n <= b && c % b + m <= b
    ensures a % b + n == c % b + m
  {
    if c <= a {
      ModPlus(c, a - c, b);
    } else {
      ModPlus(a, c - a, b);
    }
  }

  /** The grown entry stays within one window even if it has been grown over several bios before: it
      holds a byte of u, and u and v share a window. */
  lemma GrowFits(q: Limits, e: Sg, u: BVec, v: BVec)
    requires Sound(q) && SgOk(q, e) && 0 < u.len && 0 < v.len
    requires End(e) == VecEnd(u) && PhysMergeable(q, u, v) && e.len + v.len <= q.maxSeg
    ensures SgOk(q, e.(len := e.len + v.len))
  {
    OneWindow(u.Addr(), u.len + v.len, q.boundary);
    SameRoom(e.Addr(), e.len, u.Addr(), u.len, q.boundary);
  }

  /** The entry for n bytes at offset `off`, which uses the page the offset falls into. */
  function Entry(q: Limits, page: nat, off: nat, n: nat): Sg
    requires 0 < q.page
  {
    Sg(page + off / q.page * q.page, off % q.page, n)
  }

  lemma EntryAddr(q: Limits, page: nat, off: nat, n: nat)
    requires 0 < q.page
    ensures Entry(q, page, off, n).Addr() == page + off && Entry(q, page, off, n).off < q.page
  {
  }

  lemma CutFits(q: Limits, addr: nat, n: nat)
    requires Sound(q) && 0 < n <= MaxSegmentSize(q, addr)
    ensures Fits(q, addr, n)
  {
  }

  /** l is l0 and entries for `total` bytes from addr on. */
  ghost predicate Mapped(q: Limits, l0: seq<Sg>, l: seq<Sg>, addr: nat, total: nat)
    requires 0 < q.boundary
  {
    && AllSgOk(q, l)
    && SgBytes(l) == SgBytes(l0) + Span(addr, total)
    && (total > 0 ==> l != [] && End(l[|l| - 1]) == addr + total)
  }

  lemma AddOk(q: Limits, l: seq<Sg>, e: Sg)
    requires 0 < q.boundary && AllSgOk(q, l) && SgOk(q, e)
    ensures AllSgOk(q, l + [e])
  {
  }

  lemma NextCut(q: Limits, addr: nat, len: nat, nbytes: nat)
    requires Sound(q) && 0 < nbytes && len == Min(MaxSegmentSize(q, addr), nbytes)
    ensures 0 < len <= nbytes && Fits(q, addr, len)
    ensures |Cuts(q, addr, nbytes)| == 1 + |Cuts(q, addr + len, nbytes - len)|
  {
    CutFits(q, addr, len);
  }

  /** The entries for nbytes bytes at offset `off`, one per segment. */
  function Entries(q: Limits, page: nat, off: nat, nbytes: nat): seq<Sg>
    requires Sound(q)
    decreases nbytes
  {
    if nbytes == 0 then []
    else
      var n := Min(MaxSegmentSize(q, page + off), nbytes);
      [Entry(q, page, off, n)] + Entries(q, page, off + n, nbytes - n)
  }

  lemma MappedOn(q: Limits, l0: seq<Sg>, e: Sg, l: seq<Sg>, rest: nat)
    requires 0 < q.boundary && 0 < e.len && Mapped(q, l0 + [e], l, End(e), rest) && (rest == 0 ==> l == l0 + [e])
    ensures Mapped(q, l0, l, e.Addr(), e.len + rest)
  {
    SgBytesSnoc(l0, e);
    SpanPlus(e.Addr(), e.len, rest);
    Assoc(SgBytes(l0), Span(e.Addr(), e.len), Span(End(e), rest));
  }

  /** They cover exactly these bytes, each fits the device, and there is one per segment. */
  lemma {:induction false} EntriesMapped(q: Limits, l: seq<Sg>, page: nat, off: nat, nbytes: nat)
    requires Sound(q) && AllSgOk(q, l)
    ensures Mapped(q, l, l + Entries(q, page, off, nbytes), page + off, nbytes)
    ensures |Entries(q, page, off, nbytes)| == |Cuts(q, page + off, nbytes)|
    decreases nbytes
  {
    if nbytes == 0 {
      assert l + [] == l;
    } else {
      var n := Min(MaxSegmentSize(q, page + off), nbytes);
      var e, rest := Entry(q, page, off, n), Entries(q, page, off + n, nbytes - n);
      EntryAddr(q, page, off, n);
      NextCut(q, page + off, n, nbytes);
      AddOk(q, l, e);
      EntriesMapped(q, l + [e], page, off + n, nbytes - n);
      Assoc(l, [e], rest);
      MappedOn(q, l, e, l + Entries(q, page, off, nbytes), nbytes - n);
    }
  }

  // ---------------------------------------------------------------------------------------------
  // Gaps
  // ---------------------------------------------------------------------------------------------

  /** No gaps so far, and none before what is left. */
  predicate Gapless(q: Limits, l: seq<Sg>, next: nat, nbytes: nat)
    requires 0 < q.virt
  {
    SgGapFree(q, l) && (nbytes > 0 ==> Clear(q, l, next))
  }

  lemma CutEndsEven(q: Limits, addr: nat, len: nat)
    requires Sound(q) && Even(q) && len <= UINT_MAX
    ensures
      var n := Min(MaxSegmentSize(q, addr), len);
      n == len || (addr + n) % q.virt == 0
  {
    if q.virt > 1 {
      WindowEndsEven(q, addr, addr);
    }
  }

  lemma GaplessStep(q: Limits, l: seq<Sg>, next: nat, nbytes: nat, e: Sg)
    requires Sound(q) && Even(q) && 0 < nbytes <= UINT_MAX && Gapless(q, l, next, nbytes)
    requires e.Addr() == next && e.len == Min(MaxSegmentSize(q, next), nbytes)
    ensures Gapless(q, l + [e], next + e.len, nbytes - e.len)
  {
    CutEndsEven(q, next, nbytes);
    assert (l + [e])[..|l|] == l;
  }

  lemma {:induction false} EntriesGapless(q: Limits, l: seq<Sg>, page: nat, off: nat, nbytes: nat)
    requires Sound(q) && Even(q) && nbytes <= UINT_MAX && Gapless(q, l, page + off, nbytes)
    ensures SgGapFree(q, l + Entries(q, page, off, nbytes))
    decreases nbytes
  {
    if nbytes == 0 {
      assert l + [] == l;
    } else {
      var n := Min(MaxSegmentSize(q, page + off), nbytes);
      var e, rest := Entry(q, page, off, n), Entries(q, page, off + n, nbytes - n);
      EntryAddr(q, page, off, n);
      GaplessStep(q, l, page + off, nbytes, e);
      EntriesGapless(q, l + [e], page, off + n, nbytes - n);
      Assoc(l, [e], rest);
    }
  }

  lemma NextEntry(q: Limits, l: seq<Sg>, page: nat, off: nat, nbytes: nat, len: nat)
    requires Sound(q) && 0 < nbytes && len == Min(MaxSegmentSize(q, page + off), nbytes)
    ensures l + [Entry(q, page, off, len)] + Entries(q, page, off + len, nbytes - len)
         == l + Entries(q, page, off, nbytes)
  {
    Assoc(l, [Entry(q, page, off, len)], Entries(q, page, off + len, nbytes - len));
  }

  /** blk_bvec_map_sg: one entry per segment of the vector. */
  method BvecMapSg(q: Limits, v: BVec, l: seq<Sg>) returns (l': seq<Sg>, nsegs: nat)
    requires Sound(q) && VecOk(q, v) && AllSgOk(q, l)
    ensures nsegs == |Cuts(q, v.Addr(), v.len)| && |l'| == |l| + nsegs
    ensures AllSgOk(q, l')
    ensures SgBytes(l') == SgBytes(l) + Span(v.Addr(), v.len)
    ensures l' != [] && End(l'[|l'| - 1]) == VecEnd(v)
    ensures l' == l + Entries(q, v.page, v.off, v.len)
  {
    var nbytes, total := v.len, 0;
    nsegs, l' := 0, l;
    while nbytes > 0
      invariant 0 <= total && 0 <= nbytes && total + nbytes == v.len && |l'| == |l| + nsegs
      invariant l' + Entries(q, v.page, v.off + total, nbytes) == l + Entries(q, v.page, v.off, v.len)
    {
      var offset := v.off + total;
      var len := Min(GetMaxSegmentSize(q, v.page + offset), nbytes);
      NextEntry(q, l', v.page, offset, nbytes, len);
      l' := l' + [Entry(q, v.page, offset, len)];
      total, nbytes, nsegs := total + len, nbytes - len, nsegs + 1;
    }
    assert l' + [] == l';
    EntriesMapped(q, l, v.page, v.off, v.len);
  }

  /** __blk_bvec_map_sg: a vector within a page is one entry. */
  function AddVec(q: Limits, v: BVec, l: seq<Sg>): (r: seq<Sg>)
    requires Sound(q) && VecOk(q, v) && AllSgOk(q, l) && v.off + v.len <= q.page
    ensures |Cuts(q, v.Addr(), v.len)| == 1 && |r| == |l| + 1
    ensures AllSgOk(q, r) && SgBytes(r) == SgBytes(l) + Span(v.Addr(), v.len)
    ensures End(r[|r| - 1]) == VecEnd(v)
    ensures Gapless(q, l, v.Addr(), v.len) ==> SgGapFree(q, r)
  {
    OnePageIsOneSegment(q, v);
    SgBytesSnoc(l, Sg(v.page, v.off, v.len));
    assert (l + [Sg(v.page, v.off, v.len)])[..|l|] == l;
    l + [Sg(v.page, v.off, v.len)]
  }

  lemma VecGapless(q: Limits, l: seq<Sg>, v: BVec)
    requires Sound(q) && VecOk(q, v)
    ensures Even(q) && Gapless(q, l, v.Addr(), v.len) ==> SgGapFree(q, l + Entries(q, v.page, v.off, v.len))
  {
    if Even(q) && Gapless(q, l, v.Addr(), v.len) {
      EntriesGapless(q, l, v.page, v.off, v.len);
    }
  }

  /** What growing the last entry gives. */
  lemma Grows(q: Limits, l: seq<Sg>, u: BVec, v: BVec)
    requires Sound(q) && AllSgOk(q, l) && l != [] && 0 < u.len && 0 < v.len
    requires End(l[|l| - 1]) == VecEnd(u) && CanGrow(q, v, u, l)
    ensures
      var r := Grow(l, v.len);
      && AllSgOk(q, r) && |r| == |l| && End(r[|r| - 1]) == VecEnd(v)
      && SgBytes(r) == SgBytes(l) + Span(v.Addr(), v.len)
      && (SgGapFree(q, l) ==> SgGapFree(q, r))
  {
    GrowFits(q, l[|l| - 1], u, v);
    GrowBytes(l, v.len);
    GrowGapFree(q, l, v.len);
  }

  /** One vector: grow the last entry if that is allowed, else one entry for a vector within a page, else
      one per segment.  Never more entries than the vector has segments. */
  method MapOne(q: Limits, v: BVec, prev: BVec, newBio: bool, l: seq<Sg>) returns (l': seq<Sg>, nsegs: nat)
    requires Sound(q) && VecOk(q, v) && AllSgOk(q, l)
    requires newBio ==> VecOk(q, prev) && l != [] && End(l[|l| - 1]) == VecEnd(prev)
    ensures nsegs <= |Cuts(q, v.Addr(), v.len)| && |l'| == |l| + nsegs
    ensures nsegs == 0 <==> newBio && l[|l| - 1].len + v.len <= q.maxSeg && PhysMergeable(q, prev, v)
    ensures nsegs != 0 ==> nsegs == |Cuts(q, v.Addr(), v.len)|
    ensures AllSgOk(q, l')
    ensures SgBytes(l') == SgBytes(l) + Span(v.Addr(), v.len)
    ensures l' != [] && End(l'[|l'| - 1]) == VecEnd(v)
    ensures Even(q) && SgGapFree(q, l) && (Clear(q, l, v.Addr()) || (newBio && CanGrow(q, v, prev, l)))
        ==> SgGapFree(q, l')
  {
    if newBio && CanGrow(q, v, prev, l) {
      Grows(q, l, prev, v);
      l', nsegs := Grow(l, v.len), 0;
    } else if v.off + v.len <= q.page {
      l', nsegs := AddVec(q, v, l), 1;
    } else {
      l', nsegs := BvecMapSg(q, v, l);
      VecGapless(q, l, v);
    }
  }

  lemma Extend(q: Limits, vs: seq<BVec>, v: BVec)
    requires Sound(q)
    ensures VecBytes(vs + [v]) == VecBytes(vs) + Span(v.Addr(), v.len)
    ensures SegCount(q, vs + [v]) == SegCount(q, vs) + |Cuts(q, v.Addr(), v.len)|
  {
    VecBytesPlus(vs, [v]);
    SegCountPlus(q, vs, [v]);
  }

  lemma {:induction false} ConcatSnoc(bios: seq<seq<BVec>>, vs: seq<BVec>)
    ensures Concat(bios + [vs]) == Concat(bios) + vs
  {
    if bios == [] {
      assert bios + [vs] == [vs];
    } else {
      assert (bios + [vs])[1..] == bios[1..] + [vs];
      ConcatSnoc(bios[1..], vs);
    }
  }

  /** The entries are those of the vectors so far. */
  ghost predicate MappedVecs(q: Limits, l: seq<Sg>, vs: seq<BVec>)
    requires Sound(q)
  {
    AllSgOk(q, l) && SgBytes(l) == VecBytes(vs) && |l| <= SegCount(q, vs)
  }

  /** The last entry ends where v does. */
  predicate EndsWith(l: seq<Sg>, v: BVec) {
    l != [] && End(l[|l| - 1]) == VecEnd(v)
  }

  lemma MappedNext(q: Limits, l: seq<Sg>, l': seq<Sg>, vs: seq<BVec>, v: BVec)
    requires Sound(q) && MappedVecs(q, l, vs) && AllSgOk(q, l')
    requires SgBytes(l') == SgBytes(l) + Span(v.Addr(), v.len) && |l'| <= |l| + |Cuts(q, v.Addr(), v.len)|
    ensures MappedVecs(q, l', vs + [v])
  {
    Extend(q, vs, v);
  }

  /** A vector that can follow u leaves no gap after u's entry, or grows it. */
  lemma MeetsIsClear(q: Limits, l: seq<Sg>, done: seq<BVec>, u: BVec, v: BVec)
    requires Sound(q) && Even(q) && MappedVecs(q, l, done) && Bytes(done) + v.len <= UINT_MAX
    requires VecOk(q, u) && VecOk(q, v) && EndsWith(l, u)
    ensures !Gap(q, u, v.off) ==> Clear(q, l, v.Addr())
    ensures Meets(q, u, v) ==> Clear(q, l, v.Addr()) || CanGrow(q, v, u, l)
  {
    EvenAddr(q, u.page, u.off + u.len);
    EvenAddr(q, v.page, v.off);
    VecBytesLength(done);
    SpanLength(l[|l| - 1].Addr(), l[|l| - 1].len);
  }

  /** The first vector of bio i can follow the last one of the bio before it. */
  predicate Joint(q: Limits, bios: seq<seq<BVec>>, i: nat)
    requires 0 < q.boundary && 0 < q.virt && 0 < i < |bios|
  {
    var u, v := bios[i - 1], bios[i];
    u != [] && v != [] && Meets(q, u[|u| - 1], v[0])
  }

  /** There are no gaps inside the bios, nor between them. */
  predicate NoGaps(q: Limits, bios: seq<seq<BVec>>)
    requires 0 < q.boundary && 0 < q.virt
  {
    && (forall i :: 0 <= i < |bios| ==> GapFree(q, bios[i]))
    && (forall i :: 0 < i < |bios| ==> Joint(q, bios, i))
  }

  /** vs can follow what has been mapped. */
  predicate CanFollow(q: Limits, l: seq<Sg>, prev: BVec, newBio: bool, vs: seq<BVec>)
    requires 0 < q.boundary && 0 < q.virt
  {
    GapFree(q, vs) && (l != [] && vs != [] ==> newBio && Meets(q, prev, vs[0]))
  }

  /** __blk_bios_map_sg: the entries cover exactly the bytes of the bios in order, each fits the device,
      and there are at most as many as the request has physical segments. */
  method BiosMapSg(q: Limits, bios: seq<seq<BVec>>) returns (l: seq<Sg>, nsegs: nat)
    requires Sound(q)
    requires forall i :: 0 <= i < |bios| ==> VecsOk(q, bios[i])
    ensures SgBytes(l) == VecBytes(Concat(bios))
    ensures AllSgOk(q, l)
    ensures nsegs == |l| <= SegCount(q, Concat(bios))
    ensures Even(q) && NoGaps(q, bios) && Bytes(Concat(bios)) <= UINT_MAX ==> SgGapFree(q, l)
  {
    l, nsegs := [], 0;
    var prev, newBio := BVec(0, 0, 0), false;
    var i := 0;
    while i < |bios|
      invariant i <= |bios| && nsegs == |l| && MappedVecs(q, l, Concat(bios[..i]))
      invariant newBio ==> VecOk(q, prev) && EndsWith(l, prev)
      invariant i > 0 && bios[i - 1] != [] ==> newBio && prev == bios[i - 1][|bios[i - 1]| - 1]
      invariant i == 0 ==> l == []
      invariant Even(q) && NoGaps(q, bios) && Bytes(Concat(bios)) <= UINT_MAX ==> SgGapFree(q, l)
    {
      PrefixFits(bios, i);
      assert NoGaps(q, bios) && i > 0 ==> Joint(q, bios, i);
      l, nsegs, prev, newBio := MapBio(q, Concat(bios[..i]), bios[i], l, nsegs, prev, newBio);
      ConcatSnoc(bios[..i], bios[i]);
      assert bios[..i + 1] == bios[..i] + [bios[i]];
      i := i + 1;
    }
    assert bios[..i] == bios;
  }

  lemma VecFits(done: seq<BVec>, vs: seq<BVec>, j: nat)
    requires j < |vs|
    ensures Bytes(done + vs[..j]) + vs[j].len <= Bytes(done + vs)
  {
    BytesPlus(done, vs);
    BytesPlus(done, vs[..j]);
    PrefixBytes(vs, j);
  }

  lemma {:induction false} PrefixFits(bios: seq<seq<BVec>>, i: nat)
    requires i < |bios|
    ensures Bytes(Concat(bios[..i]) + bios[i]) <= Bytes(Concat(bios))
    decreases i
  {
    if i == 0 {
      assert Concat(bios[..0]) + bios[0] == bios[0];
    } else {
      PrefixFits(bios[1..], i - 1);
      assert bios[..i][1..] == bios[1..][..i - 1];
      BytesPlus(bios[0], Concat(bios[..i][1..]) + bios[i]);
      assert Concat(bios[..i]) + bios[i] == bios[0] + (Concat(bios[..i][1..]) + bios[i]);
    }
    BytesPlus(bios[0], Concat(bios[1..]));
  }

  /** One bio: `done` are the vectors of the bios before it. */
  method MapBio(q: Limits, ghost done: seq<BVec>, vs: seq<BVec>, l: seq<Sg>, nsegs: nat, prev: BVec, newBio: bool)
    returns (l': seq<Sg>, nsegs': nat, prev': BVec, newBio': bool)
    requires Sound(q) && VecsOk(q, vs) && nsegs == |l| && MappedVecs(q, l, done)
    requires newBio ==> VecOk(q, prev) && EndsWith(l, prev)
    ensures nsegs' == |l'| && MappedVecs(q, l', done + vs)
    ensures newBio' ==> VecOk(q, prev') && EndsWith(l', prev')
    ensures vs != [] ==> newBio' && prev' == vs[|vs| - 1]
    ensures Even(q) && SgGapFree(q, l) && CanFollow(q, l, prev, newBio, vs) && Bytes(done + vs) <= UINT_MAX
        ==> SgGapFree(q, l')
  {
    l', nsegs', prev', newBio' := l, nsegs, prev, newBio;
    var j := 0;
    assert done + vs[..0] == done;
    ghost var follows :=
      Even(q) && SgGapFree(q, l) && CanFollow(q, l, prev, newBio, vs) && Bytes(done + vs) <= UINT_MAX;
    while j < |vs|
      invariant j <= |vs| && nsegs' == |l'| && MappedVecs(q, l', done + vs[..j])
      invariant newBio' ==> VecOk(q, prev) && EndsWith(l', prev)
      invariant prev' == prev && (j > 0 ==> EndsWith(l', vs[j - 1]))
      invariant j == 0 ==> l' == l && newBio' == newBio
      invariant follows ==> SgGapFree(q, l')
    {
      var n: nat;
      ghost var before := l';
      if follows {
        VecFits(done, vs, j);
        if j > 0 {
          MeetsIsClear(q, l', done + vs[..j], vs[j - 1], vs[j]);
        } else if newBio' {
          MeetsIsClear(q, l', done + vs[..j], prev, vs[j]);
        }
      }
      l', n := MapOne(q, vs[j], prev, newBio', l');
      MappedNext(q, before, l', done + vs[..j], vs[j]);
      assert done + vs[..j] + [vs[j]] == done + vs[..j + 1];
      nsegs', newBio', j := nsegs' + n, false, j + 1;
    }
    assert done + vs[..|vs|] == done + vs;
    if |vs| > 0 {
      prev', newBio' := vs[|vs| - 1], true;
    }
  }
}
