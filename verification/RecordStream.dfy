/** Length-prefixed records read from a stream in pieces (record_stream.cpp). */
module RecordStream {

  newtype byte = x: int | 0 <= x < 256

  const HEADER_SIZE := 4

  /** ntohl of the first four bytes */
  function Length(s: seq<byte>): (n: nat)
    requires |s| >= HEADER_SIZE
    ensures n < 0x1_0000_0000
  {
    ((s[0] as int * 256 + s[1] as int) * 256 + s[2] as int) * 256 + s[3] as int
  }

  /** A length in network byte order */
  function Header(n: nat): (h: seq<byte>)
    requires n < 0x1_0000_0000
    ensures |h| == HEADER_SIZE && Length(h) == n
  {
    var n1 := n / 256;
    var n2 := n1 / 256;
    [(n2 / 256) as byte, (n2 % 256) as byte, (n1 % 256) as byte, (n % 256) as byte]
  }

  lemma HeaderOfLength(s: seq<byte>)
    requires |s| >= HEADER_SIZE
    ensures Header(Length(s)) == s[..HEADER_SIZE]
  {
    var a, b, c, d := s[0] as int, s[1] as int, s[2] as int, s[3] as int;
    var n1 := (a * 256 + b) * 256 + c;
    assert Length(s) == n1 * 256 + d && Length(s) / 256 == n1;
    assert n1 / 256 == a * 256 + b && (a * 256 + b) / 256 == a;
  }

  /** Network byte order: the first byte weighs most, and each weighs as much as 256 of the next. */
  lemma NetworkOrder(s: seq<byte>, i: nat)
    requires |s| >= HEADER_SIZE && i < HEADER_SIZE && s[i] < 255
    ensures
      var weight := if i == 0 then 0x100_0000 else if i == 1 then 0x1_0000 else if i == 2 then 0x100 else 1;
      Length(s[i := s[i] + 1]) == Length(s) + weight
    ensures Length([0, 0, 0, 0]) == 0 && Length([0, 0, 1, 5]) == 261 && Header(261) == [0, 0, 1, 5]
  {
    assert Length([0, 0, 0, 0]) == 0;
  }

  /** There is a whole record at the front. */
  predicate Whole(s: seq<byte>) {
    |s| >= HEADER_SIZE && |s| >= HEADER_SIZE + Length(s)
  }

  function First(s: seq<byte>): seq<byte>
    requires Whole(s)
  {
    s[HEADER_SIZE..HEADER_SIZE + Length(s)]
  }

  function After(s: seq<byte>): seq<byte>
    requires Whole(s)
  {
    s[HEADER_SIZE + Length(s)..]
  }

  // ---------------------------------------------------------------------------------------------
  // The format
  // ---------------------------------------------------------------------------------------------

  /** The records of a byte string decoded at once, up to the first incomplete one. */
  function Records(s: seq<byte>): seq<seq<byte>>
    decreases |s|
  {
    if Whole(s) then [First(s)] + Records(After(s)) else []
  }

  predicate Sized(rs: seq<seq<byte>>, max: nat) {
    forall r :: r in rs ==> |r| <= max
  }

  function Encode(rs: seq<seq<byte>>): seq<byte>
    requires Sized(rs, 0xffff_ffff)
  {
    if rs == [] then [] else Header(|rs[0]|) + rs[0] + Encode(rs[1..])
  }

  lemma EncodeOne(r: seq<byte>, t: seq<byte>)
    requires |r| <= 0xffff_ffff
    ensures
      var s := Header(|r|) + r + t;
      Whole(s) && First(s) == r && After(s) == t
  {
    var h := Header(|r|);
    var s := h + r + t;
    assert s[0] == h[0] && s[1] == h[1] && s[2] == h[2] && s[3] == h[3];
    assert Length(s) == Length(h) == |r|;
  }

  lemma FirstRest(s: seq<byte>)
    requires Whole(s)
    ensures Header(|First(s)|) + First(s) + After(s) == s
  {
    HeaderOfLength(s);
  }

  lemma HeadAndRest<T>(a: seq<T>, b: seq<T>)
    requires a != []
    ensures [a[0]] + (a[1..] + b) == a + b
  {
  }

  lemma RecordsCons(r: seq<byte>, s: seq<byte>, t: seq<byte>)
    requires |r| <= 0xffff_ffff && s == Header(|r|) + r + t
    ensures Records(s) == [r] + Records(t)
  {
    EncodeOne(r, t);
  }

  lemma EncodeCons(rs: seq<seq<byte>>, t: seq<byte>)
    requires Sized(rs, 0xffff_ffff) && rs != []
    ensures Encode(rs) + t == Header(|rs[0]|) + rs[0] + (Encode(rs[1..]) + t)
  {
  }

  /** What was encoded is decoded, and what follows it is decoded after it. */
  lemma {:induction false} RecordsOfEncode(rs: seq<seq<byte>>, t: seq<byte>)
    requires Sized(rs, 0xffff_ffff)
    ensures Records(Encode(rs) + t) == rs + Records(t)
  {
    if rs == [] {
      assert Encode(rs) + t == t;
    } else {
      EncodeCons(rs, t);
      RecordsCons(rs[0], Encode(rs) + t, Encode(rs[1..]) + t);
      RecordsOfEncode(rs[1..], t);
      HeadAndRest(rs, Records(t));
    }
  }

  lemma {:induction false} EncodePlus(rs: seq<seq<byte>>, r: seq<byte>)
    requires Sized(rs, 0xffff_ffff) && |r| <= 0xffff_ffff
    ensures Encode(rs + [r]) == Encode(rs) + (Header(|r|) + r)
  {
    if rs == [] {
      assert rs + [r] == [r];
      assert Encode([r][1..]) == [];
    } else {
      assert (rs + [r])[1..] == rs[1..] + [r];
      EncodePlus(rs[1..], r);
    }
  }

  /** More bytes only add records: how the stream is cut into reads does not matter. */
  lemma {:induction false} RecordsGrow(s: seq<byte>, t: seq<byte>)
    ensures Records(s) <= Records(s + t)
    decreases |s|
  {
    if Whole(s) {
      WholeGrows(s, t);
      RecordsGrow(After(s), t);
    }
  }

  lemma WholeGrows(s: seq<byte>, t: seq<byte>)
    requires Whole(s)
    ensures Whole(s + t) && First(s + t) == First(s) && After(s + t) == After(s) + t
  {
    assert Length(s + t) == Length(s);
  }

  /** In a stream of records within the limit, every header the reader sees is within the limit. */
  lemma {:induction false} HeadersWithinLimit(rs: seq<seq<byte>>, max: nat, done: seq<seq<byte>>, rest: seq<byte>)
    requires max <= 0xffff && Sized(rs, max) && Sized(done, 0xffff_ffff)
    requires Encode(done) + rest <= Encode(rs)
    ensures |rest| >= HEADER_SIZE ==> Length(rest) <= max
  {
    if done == [] {
      assert Encode(done) + rest == rest;
      if rs != [] && |rest| >= HEADER_SIZE {
        EncodeOne(rs[0], Encode(rs[1..]));
        assert Length(rest) == Length(Encode(rs));
      }
    } else {
      var u := Encode(done[1..]) + rest;
      EncodeCons(done, rest);
      EncodeOne(done[0], u);
      FirstOfPrefix(Encode(done) + rest, Encode(rs));
      assert rs != [];
      EncodeOne(rs[0], Encode(rs[1..]));
      HeadersWithinLimit(rs[1..], max, done[1..], rest);
    }
  }

  lemma FirstOfPrefix(s: seq<byte>, w: seq<byte>)
    requires Whole(s) && s <= w
    ensures Whole(w) && First(w) == First(s) && After(s) <= After(w)
  {
    assert w == s + w[|s|..];
    WholeGrows(s, w[|s|..]);
  }

  // ---------------------------------------------------------------------------------------------
  // The reader
  // ---------------------------------------------------------------------------------------------

  /** What the bytes received so far amount to: the records handed out, then the bytes still held. */
  ghost predicate Split(received: seq<byte>, delivered: seq<seq<byte>>, held: seq<byte>) {
    Sized(delivered, 0xffff_ffff) && received == Encode(delivered) + held
  }

  lemma SplitPlus(received: seq<byte>, delivered: seq<seq<byte>>, held: seq<byte>, got: seq<byte>)
    requires Split(received, delivered, held)
    ensures Split(received + got, delivered, held + got)
  {
    assert Encode(delivered) + (held + got) == received + got;
  }

  lemma HandOut(received: seq<byte>, delivered: seq<seq<byte>>, held: seq<byte>)
    requires Split(received, delivered, held) && Whole(held)
    ensures Split(received, delivered + [First(held)], After(held))
  {
    EncodePlus(delivered, First(held));
    FirstRest(held);
  }

  lemma HeldBack(received: seq<byte>, delivered: seq<seq<byte>>, held: seq<byte>)
    requires Split(received, delivered, held)
    ensures delivered <= Records(received)
    ensures !Whole(held) <==> Records(received) == delivered
  {
    RecordsOfEncode(delivered, held);
  }

  /** A stream of records within the limit, read in any pieces: what a reader has handed out is always a first
      part of the records sent, no header it holds is over the limit (so the full-buffer branch is not taken),
      and once everything is received and nothing is held back, all of them have been handed out. */
  lemma EveryStream(rs: seq<seq<byte>>, max: nat, received: seq<byte>, delivered: seq<seq<byte>>, held: seq<byte>)
    requires max <= 0xffff && Sized(rs, max)
    requires received <= Encode(rs) && Split(received, delivered, held)
    ensures delivered <= rs
    ensures |held| >= HEADER_SIZE ==> Length(held) <= max
    ensures received == Encode(rs) && delivered == Records(received) ==> delivered == rs
  {
    var w := Encode(rs);
    RecordsOfEncode(rs, []);
    assert w + [] == w && rs + Records([]) == rs;
    HeldBack(received, delivered, held);
    RecordsGrow(received, w[|received|..]);
    assert received + w[|received|..] == w;
    HeadersWithinLimit(rs, max, delivered, held);
  }

  /** The bytes received are a first part of a stream of these records, none longer than max. */
  predicate FirstPart(received: seq<byte>, rs: seq<seq<byte>>, max: nat)
    requires max <= 0xffff
  {
    Sized(rs, max) && received <= Encode(rs)
  }

  lemma SliceOfSlice(b: seq<byte>, u: nat, e: nat, i: nat, j: nat)
    requires i <= j && u + j <= e <= |b|
    ensures b[u..e][i..j] == b[u + i..u + j]
  {
    var s, r := b[u..e][i..j], b[u + i..u + j];
    forall k | 0 <= k < j - i ensures s[k] == r[k] {
      assert s[k] == b[u..e][i + k] == b[u + i + k] == r[k];
    }
  }

  lemma InBuffer(b: seq<byte>, u: nat, e: nat)
    requires u + HEADER_SIZE <= e <= |b|
    ensures
      var held, len := b[u..e], Length(b[u..u + HEADER_SIZE]);
      && len == Length(held)
      && (Whole(held) <==> u + HEADER_SIZE + len <= e)
      && (Whole(held) ==>
            && First(held) == b[u + HEADER_SIZE..u + HEADER_SIZE + len]
            && After(held) == b[u + HEADER_SIZE + len..e])
  {
    var held, len := b[u..e], Length(b[u..u + HEADER_SIZE]);
    SliceOfSlice(b, u, e, 0, HEADER_SIZE);
    assert held[0..HEADER_SIZE] == held[..HEADER_SIZE];
    if Whole(held) {
      SliceOfSlice(b, u, e, HEADER_SIZE, HEADER_SIZE + len);
      SliceOfSlice(b, u, e, HEADER_SIZE + len, e - u);
      assert held[HEADER_SIZE + len..e - u] == held[HEADER_SIZE + len..];
    }
  }

  lemma FullBuffer(held: seq<byte>, max: nat)
    requires |held| == max + HEADER_SIZE
    ensures !Whole(held) <==> Length(held) > max
  {
  }

  /** What a call reports: a record at buffer[start..start + len], a need for another read, the end of the
      stream or a failed read, or a record longer than the buffer. */
  datatype Outcome = Record(start: nat, len: nat) | Again | Ended | TooBig

  class Reader {
    const maxLen: nat
    const buffer: array<byte>
    var unconsumed: nat
    var readEnd: nat
    /** Everything read from the stream so far. */
    ghost var received: seq<byte>
    /** The records handed out so far. */
    ghost var delivered: seq<seq<byte>>

    ghost predicate Valid()
      reads this, buffer
    {
      && maxLen <= 0xffff
      && buffer.Length == maxLen + HEADER_SIZE
      && unconsumed <= readEnd <= buffer.Length
      && Split(received, delivered, buffer[unconsumed..readEnd])
    }

    /** record_stream_new */
    constructor (maxLen: nat)
      requires maxLen <= 0xffff
      ensures Valid() && fresh(buffer) && this.maxLen == maxLen && received == [] && delivered == []
    {
      this.maxLen := maxLen;
      buffer := new byte[maxLen + HEADER_SIZE](i => 0);
      unconsumed, readEnd := 0, 0;
      received, delivered := [], [];
    }

    /** The outcome points at a record in the buffer, which is the next one delivered. */
    ghost predicate Handed(o: Outcome, before: seq<seq<byte>>)
      reads this, buffer
    {
      && o.Record?
      && o.start + o.len <= buffer.Length
      && delivered == before + [buffer[o.start..o.start + o.len]]
    }

    /** getEndOfRecord: where the first record held ends, if it is whole */
    method EndOfRecord() returns (found: bool, end: nat)
      requires unconsumed <= readEnd <= buffer.Length
      ensures
        var held := buffer[unconsumed..readEnd];
        && (found <==> Whole(held))
        && (found ==> end == unconsumed + HEADER_SIZE + Length(held) <= readEnd)
        && (found ==> First(held) == buffer[unconsumed + HEADER_SIZE..end] && After(held) == buffer[end..readEnd])
    {
      if readEnd < unconsumed + HEADER_SIZE {
        return false, 0;
      }
      var len := Length(buffer[unconsumed..unconsumed + HEADER_SIZE]);
      assert buffer[..][unconsumed..unconsumed + HEADER_SIZE] == buffer[unconsumed..unconsumed + HEADER_SIZE];
      assert buffer[..][unconsumed..readEnd] == buffer[unconsumed..readEnd];
      InBuffer(buffer[..], unconsumed, readEnd);
      end := unconsumed + HEADER_SIZE + len;
      found := end <= readEnd;
    }

    /** getNextRecord: the first whole record held is handed out, if there is one */
    method NextRecord() returns (o: Outcome)
      requires Valid()
      modifies this`unconsumed, this`delivered
      ensures Valid()
      ensures
        var held := buffer[old(unconsumed)..readEnd];
        if Whole(held) then o == Record(old(unconsumed) + HEADER_SIZE, Length(held)) && Handed(o, old(delivered))
        else o == Again && unconsumed == old(unconsumed) && delivered == old(delivered)
    {
      var found, end := EndOfRecord();
      if !found {
        return Again;
      }
      var start := unconsumed + HEADER_SIZE;
      HandOut(received, delivered, buffer[unconsumed..readEnd]);
      delivered := delivered + [buffer[start..end]];
      unconsumed := end;
      return Record(start, end - start);
    }

    /** The memmove: what is held goes to the start of the buffer. */
    method Compact()
      requires Valid()
      modifies this`unconsumed, this`readEnd, buffer
      ensures Valid() && unconsumed == 0 && readEnd == old(readEnd - unconsumed)
      ensures buffer[..readEnd] == old(buffer[unconsumed..readEnd])
    {
      var n, i := readEnd - unconsumed, 0;
      while i < n
        invariant i <= n
        invariant forall j :: 0 <= j < i ==> buffer[j] == old(buffer[unconsumed + j])
        invariant forall j :: unconsumed + i <= j < buffer.Length ==> buffer[j] == old(buffer[j])
        modifies buffer
      {
        buffer[i] := buffer[unconsumed + i];
        i := i + 1;
      }
      unconsumed, readEnd := 0, n;
      assert buffer[..n] == old(buffer[unconsumed..readEnd]);
      assert buffer[0..n] == buffer[..n];
    }

    /** The bytes of a read go behind what is held. */
    method Fill(got: seq<byte>)
      requires Valid() && |got| <= buffer.Length - readEnd
      modifies this`readEnd, this`received, buffer
      ensures Valid() && readEnd == old(readEnd) + |got| && received == old(received) + got
      ensures buffer[unconsumed..readEnd] == old(buffer[unconsumed..readEnd]) + got
    {
      var i := 0;
      while i < |got|
        invariant i <= |got|
        invariant forall j :: 0 <= j < readEnd ==> buffer[j] == old(buffer[j])
        invariant forall j :: 0 <= j < i ==> buffer[readEnd + j] == got[j]
        modifies buffer
      {
        buffer[readEnd + i] := got[i];
        i := i + 1;
      }
      ghost var held := old(buffer[unconsumed..readEnd]);
      assert buffer[unconsumed..readEnd + |got|] == held + got;
      SplitPlus(received, delivered, held, got);
      readEnd, received := readEnd + |got|, received + got;
    }

    method MakeRoom()
      requires Valid()
      modifies this`unconsumed, this`readEnd, buffer
      ensures Valid() && unconsumed == 0 && readEnd == old(readEnd - unconsumed)
    {
      if unconsumed != 0 {
        Compact();
      }
    }

    /** The part of record_stream_get_next that reads: one read, into all the room there is. */
    method ReadMore(read: nat -> seq<byte>) returns (o: Outcome)
      requires Valid() && forall n :: |read(n)| <= n
      requires unconsumed != 0 || readEnd != buffer.Length
      requires delivered == Records(received)
      modifies this, buffer
      ensures Valid()
      ensures
        var n := maxLen + HEADER_SIZE - old(readEnd - unconsumed);
        received == old(received) + read(n) && (o.Ended? <==> read(n) == [])
      ensures !o.TooBig? && (o.Record? ==> Handed(o, old(delivered)))
      ensures !o.Record? ==> delivered == old(delivered) == Records(received)
    {
      MakeRoom();
      var n := buffer.Length - readEnd;
      var got := read(n);
      if got == [] {
        assert received + got == received;
        return Ended;
      }
      Fill(got);
      HeldBack(received, delivered, buffer[unconsumed..readEnd]);
      o := NextRecord();
    }

    /** record_stream_get_next; `read(n)` is what the stream gives when asked for n bytes, nothing at its end
        or on an error.

        A record already held is handed out without a read. Otherwise one read asks for as much as there is room for,
        and the outcome says exactly whether a record has become whole. The full-buffer branch is taken exactly
        when a header announces more than the limit and the buffer is full of that record. */
    method GetNext(read: nat -> seq<byte>) returns (o: Outcome)
      requires Valid() && forall n :: |read(n)| <= n
      modifies this, buffer
      ensures Valid()
      ensures o.Record? ==> Handed(o, old(delivered))
      ensures !o.Record? ==> delivered == old(delivered) == Records(received)
      ensures old(delivered) != Records(old(received)) ==> o.Record? && received == old(received)
      ensures
        old(delivered) == Records(old(received)) && !o.TooBig? ==>
          var n := maxLen + HEADER_SIZE - old(readEnd - unconsumed);
          n > 0 && received == old(received) + read(n) && (o.Ended? <==> read(n) == [])
      ensures o.TooBig? <==>
                old(readEnd - unconsumed == maxLen + HEADER_SIZE && Length(buffer[unconsumed..readEnd]) > maxLen)
      ensures o.TooBig? ==> received == old(received)
    {
      ghost var held := buffer[unconsumed..readEnd];
      HeldBack(received, delivered, held);
      if |held| == maxLen + HEADER_SIZE {
        FullBuffer(held, maxLen);
      }
      o := NextRecord();
      if o.Again? {
        if unconsumed == 0 && readEnd == buffer.Length {
          return TooBig;
        }
        o := ReadMore(read);
      }
    }

    /** The same on a stream of records within the limit, however it is cut into reads: the full-buffer branch is
        never taken, what has been handed out is a first part of the records sent, and at the end of the stream it
        is all of them. */
    method GetNextWithinLimit(read: nat -> seq<byte>, ghost rs: seq<seq<byte>>) returns (o: Outcome)
      requires Valid() && forall n :: |read(n)| <= n
      requires FirstPart(received, rs, maxLen) && forall n :: FirstPart(received + read(n), rs, maxLen)
      modifies this, buffer
      ensures Valid() && FirstPart(received, rs, maxLen) && !o.TooBig?
      ensures delivered <= rs && (o.Ended? && received == Encode(rs) ==> delivered == rs)
    {
      EveryStream(rs, maxLen, received, delivered, buffer[unconsumed..readEnd]);
      o := GetNext(read);
      EveryStream(rs, maxLen, received, delivered, buffer[unconsumed..readEnd]);
    }
  }
}
