/** Splitting discards: blk_bio_discard_split (block/blk-merge.c). */
module Discards {
  import opened Lists
  import opened Arith
  import opened Segments

  /** maxDiscard in sectors, the others in bytes. */
  datatype DiscardLimits = DiscardLimits(maxDiscard: nat, granularity: nat, alignment: nat, logicalBlock: nat)

  /** Zero-sector and one-sector granularities are the same. */
  function Granularity(q: DiscardLimits): (r: nat)
    ensures r > 0
  {
    Max(q.granularity / SECTOR, 1)
  }

  function Alignment(q: DiscardLimits): nat {
    q.alignment / SECTOR % Granularity(q)
  }

  /** bio_allowed_max_sectors */
  function AllowedMaxSectors(logicalBlock: nat): nat
    requires 0 < logicalBlock
  {
    RoundDown(UINT_MAX, logicalBlock) / SECTOR
  }

  /** max_discard_sectors capped by bio_allowed_max_sectors, rounded down to the granularity. */
  function MaxDiscard(q: DiscardLimits): (r: nat)
    requires 0 < q.logicalBlock
    ensures r % Granularity(q) == 0 && r <= q.maxDiscard
  {
    RoundDown(Min(q.maxDiscard, AllowedMaxSectors(q.logicalBlock)), Granularity(q))
  }

  /** Where to split a discard of n sectors, if at all: the first part ends aligned. */
  function DiscardSplit(q: DiscardLimits, sector: nat, n: nat): (r: Option<nat>)
    requires 0 < q.logicalBlock
    ensures r.Some? <==> 0 < MaxDiscard(q) < n
    ensures r.Some? ==> 0 < r.value <= MaxDiscard(q) && (sector + r.value) % Granularity(q) == Alignment(q)
    ensures r.Some? ==> MaxDiscard(q) - Granularity(q) < r.value
  {
    var max, g, a := MaxDiscard(q), Granularity(q), Alignment(q);
    if max == 0 || n <= max then None
    else
      var tmp := (sector + max - a) % g;
      MultipleAtLeast(max, g);
      StepBack(sector + max, a, g);
      Some(if max > tmp then max - tmp else max)
  }

  datatype Discard = Discard(sector: nat, n: nat)

  function DiscardPieces(q: DiscardLimits, sector: nat, n: nat): seq<Discard>
    requires 0 < q.logicalBlock
    decreases n
  {
    match DiscardSplit(q, sector, n)
    case None => [Discard(sector, n)]
    case Some(k) => [Discard(sector, k)] + DiscardPieces(q, sector + k, n - k)
  }

  predicate DiscardTiles(ps: seq<Discard>, sector: nat, end: nat) {
    if ps == [] then sector == end else ps[0].sector == sector && DiscardTiles(ps[1..], sector + ps[0].n, end)
  }

  /** Repeated splitting of a discard terminates; the pieces tile the range, each but the first starts at
      the discard alignment, and all are within the limit unless rounding to the granularity leaves no
      limit at all, in which case the discard goes out unsplit. */
  lemma {:induction false} DiscardPiecesTile(q: DiscardLimits, sector: nat, n: nat)
    requires 0 < q.logicalBlock
    ensures
      var ps := DiscardPieces(q, sector, n);
      && DiscardTiles(ps, sector, sector + n)
      && (forall i :: 0 < i < |ps| ==> ps[i].sector % Granularity(q) == Alignment(q))
      && (MaxDiscard(q) > 0 ==> forall i :: 0 <= i < |ps| ==> ps[i].n <= MaxDiscard(q))
      && (MaxDiscard(q) == 0 ==> ps == [Discard(sector, n)])
    decreases n
  {
    var split := DiscardSplit(q, sector, n);
    if split.Some? {
      var k := split.value;
      DiscardPiecesTile(q, sector + k, n - k);
      var ps, rest := DiscardPieces(q, sector, n), DiscardPieces(q, sector + k, n - k);
      assert ps[1..] == rest && rest[0].sector == sector + k;
      forall i | 0 < i < |ps| ensures ps[i].sector % Granularity(q) == Alignment(q) {
        assert ps[i] == rest[i - 1];
      }
    }
  }

  // ---------------------------------------------------------------------------------------------
  // In terms of the limits a driver sets
  // ---------------------------------------------------------------------------------------------

  /** Granularity and alignment are whole sectors. */
  predicate WholeSectors(q: DiscardLimits) {
    0 < q.logicalBlock && 0 < q.granularity && q.granularity % SECTOR == 0 && q.alignment % SECTOR == 0
  }

  /** A piece may start at this sector: its byte address is `alignment` away from a multiple of `granularity`. */
  predicate OnBoundary(q: DiscardLimits, sector: int)
    requires 0 < q.granularity
  {
    (sector * SECTOR - q.alignment) % q.granularity == 0
  }

  /** So many sectors are a multiple of the granularity within what the device takes and a bio can hold. */
  predicate Acceptable(q: DiscardLimits, m: nat)
    requires 0 < q.granularity && 0 < q.logicalBlock
  {
    && m * SECTOR % q.granularity == 0
    && m <= q.maxDiscard && m * SECTOR <= UINT_MAX - UINT_MAX % q.logicalBlock
  }

  lemma ScaledMod(x: int, g: int)
    requires 0 < g
    ensures x * SECTOR % (g * SECTOR) == 0 <==> x % g == 0
  {
    DivMod(x * SECTOR, x / g, x % g * SECTOR, g * SECTOR) by {
      assert x * SECTOR == (x / g * g + x % g) * SECTOR == x / g * (g * SECTOR) + x % g * SECTOR;
      assert x % g * SECTOR < g * SECTOR;
    }
  }

  lemma WholeGranularity(q: DiscardLimits)
    requires WholeSectors(q)
    ensures Granularity(q) * SECTOR == q.granularity
  {
  }

  lemma DiffMod(x: int, y: int, g: int)
    requires 0 < g
    ensures (x - y) % g == 0 <==> x % g == y % g
  {
    if (x - y) % g == 0 {
      ModMultiple(y, (x - y) / g, g);
    } else if x % g == y % g {
      SameMod(x, y, -y, g);
    }
  }

  lemma BoundaryIs(q: DiscardLimits, sector: int)
    requires WholeSectors(q)
    ensures OnBoundary(q, sector) <==> sector % Granularity(q) == Alignment(q)
  {
    var a := q.alignment / SECTOR;
    WholeGranularity(q);
    assert sector * SECTOR - q.alignment == (sector - a) * SECTOR;
    ScaledMod(sector - a, Granularity(q));
    DiffMod(sector, a, Granularity(q));
  }

  lemma AcceptableIs(q: DiscardLimits, m: nat)
    requires WholeSectors(q)
    ensures Acceptable(q, m) <==> m % Granularity(q) == 0 && m <= q.maxDiscard && m <= AllowedMaxSectors(q.logicalBlock)
  {
    WholeGranularity(q);
    ScaledMod(m, Granularity(q));
    WholeIn(m, UINT_MAX - UINT_MAX % q.logicalBlock);
    assert RoundDown(UINT_MAX, q.logicalBlock) == UINT_MAX - UINT_MAX % q.logicalBlock;
  }

  lemma WholeIn(m: nat, bytes: nat)
    ensures m * SECTOR <= bytes <==> m <= bytes / SECTOR
  {
  }

  lemma LargestMultiple(m: nat, x: nat, g: nat)
    requires 0 < g && m % g == 0 && m <= x
    ensures m <= RoundDown(x, g)
  {
    var r := RoundDown(x, g);
    if r < m {
      ModSum(m, r, g);
      MultipleAtLeast(m - r, g);
    }
  }

  lemma MaxDiscardIsLargest(q: DiscardLimits, m: nat)
    requires WholeSectors(q)
    ensures Acceptable(q, MaxDiscard(q)) && (Acceptable(q, m) ==> m <= MaxDiscard(q))
  {
    AcceptableIs(q, MaxDiscard(q));
    AcceptableIs(q, m);
    if Acceptable(q, m) {
      LargestMultiple(m, Min(q.maxDiscard, AllowedMaxSectors(q.logicalBlock)), Granularity(q));
    }
  }

  /** Something of the size of the granularity fits. */
  predicate SomethingFits(q: DiscardLimits)
    requires 0 < q.logicalBlock
  {
    q.granularity <= q.maxDiscard * SECTOR && q.granularity <= UINT_MAX - UINT_MAX % q.logicalBlock
  }

  lemma SomethingFitsIff(q: DiscardLimits)
    requires WholeSectors(q)
    ensures SomethingFits(q) <==> MaxDiscard(q) > 0
  {
    var g := Granularity(q);
    WholeGranularity(q);
    MaxDiscardIsLargest(q, g);
    AcceptableIs(q, g);
    AcceptableIs(q, MaxDiscard(q));
    if MaxDiscard(q) > 0 {
      MultipleAtLeast(MaxDiscard(q), g);
    }
  }

  predicate AllTaken(q: DiscardLimits, ps: seq<Discard>) {
    forall i :: 0 <= i < |ps| ==> ps[i].n <= q.maxDiscard && ps[i].n * SECTOR <= UINT_MAX
  }

  /** The pieces tile the range; the device and a bio can take each of them, and each but the first starts on a
      boundary, if something of the size of the granularity fits. */
  lemma DiscardLaw(q: DiscardLimits, sector: nat, n: nat)
    requires WholeSectors(q) && SomethingFits(q)
    ensures
      var ps := DiscardPieces(q, sector, n);
      && DiscardTiles(ps, sector, sector + n)
      && AllTaken(q, ps)
      && (forall i :: 0 < i < |ps| ==> OnBoundary(q, ps[i].sector))
  {
    var ps := DiscardPieces(q, sector, n);
    DiscardPiecesTile(q, sector, n);
    SomethingFitsIff(q);
    MaxDiscardIsLargest(q, 0);
    forall i | 0 < i < |ps| ensures OnBoundary(q, ps[i].sector) {
      BoundaryIs(q, ps[i].sector);
    }
  }

  /** Otherwise a discard goes out unsplit, whatever its length: the limit is kept for all discards iff something of
      the size of the granularity fits. */
  lemma LimitKeptIff(q: DiscardLimits)
    requires WholeSectors(q)
    ensures (forall sector, n :: AllTaken(q, DiscardPieces(q, sector, n))) <==> SomethingFits(q)
  {
    if SomethingFits(q) {
      forall sector, n ensures AllTaken(q, DiscardPieces(q, sector, n)) {
        DiscardLaw(q, sector, n);
      }
    } else {
      SomethingFitsIff(q);
      DiscardPiecesTile(q, 0, q.maxDiscard + 1);
      assert DiscardPieces(q, 0, q.maxDiscard + 1)[0].n == q.maxDiscard + 1;
    }
  }

  /** Nothing is split that the device can take whole, up to a multiple of the granularity. */
  lemma ShortIsWhole(q: DiscardLimits, sector: nat, n: nat, m: nat)
    requires WholeSectors(q) && Acceptable(q, m) && n <= m
    ensures DiscardPieces(q, sector, n) == [Discard(sector, n)]
  {
    MaxDiscardIsLargest(q, m);
  }

  /** The first piece is as long as it can be, so that the next one starts on a boundary. */
  lemma FirstIsLongest(q: DiscardLimits, sector: nat, n: nat, m: nat, j: nat)
    requires WholeSectors(q) && |DiscardPieces(q, sector, n)| > 1
    requires Acceptable(q, m) && j <= m && OnBoundary(q, sector + j)
    ensures j <= DiscardPieces(q, sector, n)[0].n
  {
    var k, g := DiscardSplit(q, sector, n).value, Granularity(q);
    MaxDiscardIsLargest(q, m);
    BoundaryIs(q, sector + j);
    if k < j {
      DiffMod(sector + j, sector + k, g);
      MultipleAtLeast(j - k, g);
    }
  }

  lemma SameLimits(q: DiscardLimits)
    requires 0 < q.logicalBlock && q.granularity < 2 * SECTOR
    ensures
      var r := q.(granularity := SECTOR);
      Granularity(r) == Granularity(q) && Alignment(r) == Alignment(q) && MaxDiscard(r) == MaxDiscard(q)
  {
    assert Granularity(q) == 1 == Granularity(q.(granularity := SECTOR));
  }

  /** A granularity that is not known is one sector. */
  lemma {:induction false} UnknownGranularity(q: DiscardLimits, sector: nat, n: nat)
    requires 0 < q.logicalBlock && q.granularity < 2 * SECTOR
    ensures DiscardPieces(q, sector, n) == DiscardPieces(q.(granularity := SECTOR), sector, n)
    decreases n
  {
    var split := DiscardSplit(q, sector, n);
    SameLimits(q);
    assert DiscardSplit(q.(granularity := SECTOR), sector, n) == split;
    if split.Some? {
      UnknownGranularity(q, sector + split.value, n - split.value);
    }
  }
}
