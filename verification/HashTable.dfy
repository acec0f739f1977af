/** The chained hash table of libcutils (hashmap.cpp). */
module HashTable {
  import opened Lists

  /** The functions a table is created with. */
  datatype Hasher<!K> = Hasher(hash: K -> bv32, equals: (K, K) -> bool)

  /** `equals` is an equivalence, and equal keys have equal hashes. */
  ghost predicate Lawful<K(!new)>(h: Hasher<K>) {
    && (forall a :: h.equals(a, a))
    && (forall a, b :: h.equals(a, b) ==> h.equals(b, a) && h.hash(a) == h.hash(b))
    && (forall a, b, c :: h.equals(a, b) && h.equals(b, c) ==> h.equals(a, c))
  }

  /** hashKey: the secondary hashing, in 32-bit arithmetic. */
  function Mix(h0: bv32): bv32 {
    var h1 := h0 + !(h0 << 9);
    var h2 := h1 ^ (h1 >> 14);
    var h3 := h2 + (h2 << 4);
    h3 ^ (h3 >> 10)
  }

  function HashKey<K>(h: Hasher<K>, k: K): bv32 {
    Mix(h.hash(k))
  }

  /** calculateIndex: the int hash is widened with its sign, and n is a power of two, so that masking with
      n - 1 is the remainder. */
  function Index(n: nat, hash: bv32): (i: nat)
    requires n > 0
    ensures i < n
  {
    var x := hash as int;
    (if x < 0x8000_0000 then x else x - 0x1_0000_0000) % n
  }

  datatype Entry<K, V> = Entry(key: K, hash: bv32, value: V)

  /** equalKeys: identical keys, or equal hashes and equal keys. */
  predicate EqualKeys<K(==)>(h: Hasher<K>, a: K, ha: bv32, b: K, hb: bv32) {
    a == b || (ha == hb && h.equals(a, b))
  }

  lemma EqualKeysIsEquals<K(!new)>(h: Hasher<K>, a: K, b: K)
    requires Lawful(h)
    ensures EqualKeys(h, a, HashKey(h, a), b, HashKey(h, b)) <==> h.equals(a, b)
  {
  }

  predicate PowerOfTwo(n: nat) {
    n == 1 || (n > 1 && n % 2 == 0 && PowerOfTwo(n / 2))
  }

  // ---------------------------------------------------------------------------------------------
  // The table and the finite map it stands for
  // ---------------------------------------------------------------------------------------------

  /** The entries are keyed by `equals`, and carry the hash of their key. */
  ghost predicate Keyed<K(!new), V(!new)>(h: Hasher<K>, content: set<Entry<K, V>>) {
    && (forall e :: e in content ==> e.hash == HashKey(h, e.key))
    && (forall e, f :: e in content && f in content && h.equals(e.key, f.key) ==> e == f)
  }

  /** The buckets hold exactly these entries, each in the bucket of its hash. */
  ghost predicate Placed<K(!new), V(!new)>(bs: seq<seq<Entry<K, V>>>, content: set<Entry<K, V>>) {
    && |bs| > 0
    && (forall i, e :: 0 <= i < |bs| && e in bs[i] ==> e in content && Index(|bs|, e.hash) == i)
    && (forall e :: e in content ==> e in bs[Index(|bs|, e.hash)])
  }

  ghost predicate Chains<K, V>(bs: seq<seq<Entry<K, V>>>) {
    forall i :: 0 <= i < |bs| ==> Distinct(bs[i])
  }

  /** What the table maps k to. */
  ghost function Lookup<K(!new), V(!new)>(h: Hasher<K>, content: set<Entry<K, V>>, k: K): Option<V> {
    if exists e :: e in content && h.equals(e.key, k) then
      var e :| e in content && h.equals(e.key, k);
      Some(e.value)
    else None
  }

  lemma LookupIs<K(!new), V(!new)>(h: Hasher<K>, content: set<Entry<K, V>>, e: Entry<K, V>, k: K)
    requires Lawful(h) && Keyed(h, content) && e in content && h.equals(e.key, k)
    ensures Lookup(h, content, k) == Some(e.value)
  {
    var f :| f in content && h.equals(f.key, k) && Lookup(h, content, k) == Some(f.value);
    assert h.equals(k, e.key);
    assert h.equals(f.key, e.key);
  }

  lemma LookupSame<K(!new), V(!new)>(h: Hasher<K>, c: set<Entry<K, V>>, d: set<Entry<K, V>>, k: K)
    requires Lawful(h) && Keyed(h, c) && Keyed(h, d)
    requires forall e: Entry<K, V> :: h.equals(e.key, k) ==> (e in c <==> e in d)
    ensures Lookup(h, c, k) == Lookup(h, d, k)
  {
    if e :| e in c && h.equals(e.key, k) {
      LookupIs(h, c, e, k);
      LookupIs(h, d, e, k);
    }
  }

  /** The map is updated at k. */
  ghost predicate Updated<K(!new), V(!new)>(h: Hasher<K>, c: set<Entry<K, V>>, d: set<Entry<K, V>>, k: K,
                            v: Option<V>) {
    forall x :: Lookup(h, d, x) == if h.equals(x, k) then v else Lookup(h, c, x)
  }

  lemma AddUpdates<K(!new), V(!new)>(h: Hasher<K>, c: set<Entry<K, V>>, k: K, v: V)
    requires Lawful(h) && Keyed(h, c) && forall e :: e in c ==> !h.equals(e.key, k)
    ensures
      var d := c + {Entry(k, HashKey(h, k), v)};
      Keyed(h, d) && |d| == |c| + 1 && Updated(h, c, d, k, Some(v)) && Lookup(h, c, k) == None
  {
    var n := Entry(k, HashKey(h, k), v);
    var d := c + {n};
    forall e, f | e in d && f in d && h.equals(e.key, f.key) ensures e == f {
      assert h.equals(f.key, e.key);
    }
    forall x ensures Lookup(h, d, x) == if h.equals(x, k) then Some(v) else Lookup(h, c, x) {
      if h.equals(x, k) {
        LookupIs(h, d, n, x);
      } else {
        LookupSame(h, c, d, x);
      }
    }
  }

  lemma ReplaceKeyed<K(!new), V(!new)>(h: Hasher<K>, c: set<Entry<K, V>>, e: Entry<K, V>, v: V)
    requires Lawful(h) && Keyed(h, c) && e in c
    ensures Keyed(h, c - {e} + {e.(value := v)}) && |c - {e} + {e.(value := v)}| == |c|
  {
    var n := e.(value := v);
    var d := c - {e} + {n};
    forall f, g | f in d && g in d && h.equals(f.key, g.key) ensures f == g {
    }
    if n in c {
      assert h.equals(n.key, e.key);
      assert n == e;
    }
  }

  lemma ReplaceUpdates<K(!new), V(!new)>(h: Hasher<K>, c: set<Entry<K, V>>, e: Entry<K, V>, k: K, v: V)
    requires Lawful(h) && Keyed(h, c) && e in c && h.equals(e.key, k)
    ensures
      var d := c - {e} + {e.(value := v)};
      Keyed(h, d) && |d| == |c| && Updated(h, c, d, k, Some(v)) && Lookup(h, c, k) == Some(e.value)
  {
    var n := e.(value := v);
    var d := c - {e} + {n};
    ReplaceKeyed(h, c, e, v);
    LookupIs(h, c, e, k);
    forall x ensures Lookup(h, d, x) == if h.equals(x, k) then Some(v) else Lookup(h, c, x) {
      if h.equals(x, k) {
        assert h.equals(k, x) && h.equals(n.key, x);
        LookupIs(h, d, n, x);
      } else {
        assert h.equals(e.key, x) ==> h.equals(x, e.key);
        LookupSame(h, c, d, x);
      }
    }
  }

  lemma RemoveUpdates<K(!new), V(!new)>(h: Hasher<K>, c: set<Entry<K, V>>, e: Entry<K, V>, k: K)
    requires Lawful(h) && Keyed(h, c) && e in c && h.equals(e.key, k)
    ensures
      var d := c - {e};
      Keyed(h, d) && |d| == |c| - 1 && Updated(h, c, d, k, None) && Lookup(h, c, k) == Some(e.value)
    ensures forall f :: f in c && h.equals(f.key, k) ==> f == e
  {
    var d := c - {e};
    LookupIs(h, c, e, k);
    forall f | f in c && h.equals(f.key, k) ensures f == e {
      assert h.equals(k, e.key) && h.equals(f.key, e.key);
    }
    forall x ensures Lookup(h, d, x) == if h.equals(x, k) then None else Lookup(h, c, x) {
      if h.equals(x, k) {
        forall f | f in d ensures !h.equals(f.key, x) {
          assert h.equals(f.key, x) ==> h.equals(f.key, k);
          assert h.equals(f.key, k) ==> h.equals(k, e.key) && h.equals(f.key, e.key);
        }
      } else {
        assert h.equals(e.key, x) ==> h.equals(x, e.key);
        LookupSame(h, c, d, x);
      }
    }
  }

  // ---------------------------------------------------------------------------------------------
  // Changing one chain
  // ---------------------------------------------------------------------------------------------

  lemma {:induction false} DropIn<T>(c: seq<T>, p: nat, y: T)
    requires Distinct(c) && p < |c|
    ensures y in c[..p] + c[p + 1..] <==> y in c && y != c[p]
  {
    if p == 0 {
      assert c[..0] + c[1..] == c[1..] && c == [c[0]] + c[1..];
    } else {
      DropIn(c[1..], p - 1, y);
      DropCons(c, p);
      assert c == [c[0]] + c[1..] && c[p] in c[1..];
    }
  }

  lemma DropCons<T>(c: seq<T>, p: nat)
    requires 0 < p < |c|
    ensures c[..p] + c[p + 1..] == [c[0]] + (c[1..][..p - 1] + c[1..][p..])
  {
  }

  lemma {:induction false} DropDistinct<T>(c: seq<T>, p: nat)
    requires Distinct(c) && p < |c|
    ensures Distinct(c[..p] + c[p + 1..])
  {
    var d := c[..p] + c[p + 1..];
    if p == 0 {
      assert d == c[1..];
    } else {
      DropDistinct(c[1..], p - 1);
      assert d[1..] == c[1..][..p - 1] + c[1..][p..];
      assert d[0] == c[0];
      DropIn(c[1..], p - 1, c[0]);
    }
  }

  lemma ReplaceIn<T>(c: seq<T>, p: nat, x: T, y: T)
    requires Distinct(c) && p < |c|
    ensures y in c[p := x] <==> y == x || (y in c && y != c[p])
  {
    var d := c[p := x];
    assert d[p] == x;
    if y in c && y != c[p] {
      var j :| 0 <= j < |c| && c[j] == y;
      assert d[j] == y;
    }
    if y in d && y != x {
      var j :| 0 <= j < |d| && d[j] == y;
      if j < p {
        DistinctAt(c, j, p);
      } else {
        DistinctAt(c, p, j);
      }
    }
  }

  lemma {:induction false} ReplaceDistinct<T>(c: seq<T>, p: nat, x: T)
    requires Distinct(c) && p < |c| && (x !in c || x == c[p])
    ensures Distinct(c[p := x])
  {
    if p == 0 {
      assert c[0 := x] == [x] + c[1..];
    } else {
      ReplaceDistinct(c[1..], p - 1, x);
      assert c[p := x][1..] == c[1..][p - 1 := x];
      ReplaceIn(c[1..], p - 1, x, c[0]);
      DistinctAt(c, 0, p);
    }
  }

  lemma AppendPlaced<K(!new), V(!new)>(bs: seq<seq<Entry<K, V>>>, c: set<Entry<K, V>>, n: Entry<K, V>)
    requires Placed(bs, c)
    ensures
      var i := Index(|bs|, n.hash);
      Placed(bs[i := bs[i] + [n]], c + {n})
  {
  }

  lemma ReplacePlaced<K(!new), V(!new)>(bs: seq<seq<Entry<K, V>>>, c: set<Entry<K, V>>, i: nat, p: nat, n: Entry<K, V>)
    requires Placed(bs, c) && i < |bs| && p < |bs[i]| && Distinct(bs[i])
    requires n.hash == bs[i][p].hash && (n !in bs[i] || n == bs[i][p])
    ensures Placed(bs[i := bs[i][p := n]], c - {bs[i][p]} + {n})
  {
    var e, r := bs[i][p], bs[i := bs[i][p := n]];
    forall x ensures x in bs[i][p := n] <==> x == n || (x in bs[i] && x != e) {
      ReplaceIn(bs[i], p, n, x);
    }
    assert e in bs[i];
    forall j, x | 0 <= j < |r| && x in r[j] ensures x in c - {e} + {n} && Index(|r|, x.hash) == j {
      assert x != n ==> x in bs[j];
    }
    forall x | x in c - {e} + {n} ensures x in r[Index(|r|, x.hash)] {
      if x != n {
        assert x in bs[Index(|bs|, x.hash)];
      }
    }
  }

  lemma RemovePlaced<K(!new), V(!new)>(bs: seq<seq<Entry<K, V>>>, c: set<Entry<K, V>>, i: nat, p: nat)
    requires Placed(bs, c) && i < |bs| && p < |bs[i]| && Distinct(bs[i])
    ensures Placed(bs[i := bs[i][..p] + bs[i][p + 1..]], c - {bs[i][p]})
  {
    var e, r := bs[i][p], bs[i := bs[i][..p] + bs[i][p + 1..]];
    forall x ensures x in bs[i][..p] + bs[i][p + 1..] <==> x in bs[i] && x != e {
      DropIn(bs[i], p, x);
    }
    assert e in bs[i];
    forall j, x | 0 <= j < |r| && x in r[j] ensures x in c - {e} && Index(|r|, x.hash) == j {
      assert x in bs[j];
    }
    forall x | x in c - {e} ensures x in r[Index(|r|, x.hash)] {
      assert x in bs[Index(|bs|, x.hash)];
    }
  }

  lemma PrependPlaced<K(!new), V(!new)>(bs: seq<seq<Entry<K, V>>>, c: set<Entry<K, V>>, n: Entry<K, V>)
    requires Placed(bs, c) && Chains(bs) && n !in c
    ensures
      var i := Index(|bs|, n.hash);
      Placed(bs[i := [n] + bs[i]], c + {n}) && Chains(bs[i := [n] + bs[i]])
  {
    var i := Index(|bs|, n.hash);
    assert ([n] + bs[i])[1..] == bs[i];
  }

  ghost function Elements<T>(c: seq<T>): set<T> {
    set x | x in c
  }

  /** A power of two of buckets, every entry in the bucket of its hash, no two with equal keys. */
  ghost predicate Table<K(!new), V(!new)>(h: Hasher<K>, bs: seq<seq<Entry<K, V>>>, c: set<Entry<K, V>>) {
    PowerOfTwo(|bs|) && Keyed(h, c) && Placed(bs, c) && Chains(bs)
  }

  lemma AppendTable<K(!new), V(!new)>(h: Hasher<K>, bs: seq<seq<Entry<K, V>>>, c: set<Entry<K, V>>, n: Entry<K, V>)
    requires Lawful(h) && Table(h, bs, c) && n.hash == HashKey(h, n.key)
    requires forall e :: e in c ==> !h.equals(e.key, n.key)
    ensures
      var i := Index(|bs|, n.hash);
      Table(h, bs[i := bs[i] + [n]], c + {n})
  {
    var i := Index(|bs|, n.hash);
    AddUpdates(h, c, n.key, n.value);
    assert h.equals(n.key, n.key);
    AppendPlaced(bs, c, n);
    DistinctSnoc(bs[i], n);
  }

  lemma ReplaceTable<K(!new), V(!new)>(h: Hasher<K>, bs: seq<seq<Entry<K, V>>>, c: set<Entry<K, V>>, i: nat, p: nat,
                                       v: V)
    requires Lawful(h) && Table(h, bs, c) && i < |bs| && p < |bs[i]|
    ensures
      var e := bs[i][p];
      var n := e.(value := v);
      Table(h, bs[i := bs[i][p := n]], c - {e} + {n})
  {
    var e := bs[i][p];
    var n := e.(value := v);
    assert n in c ==> n == e by {
      assert h.equals(n.key, e.key);
    }
    ReplaceKeyed(h, c, e, v);
    ReplaceDistinct(bs[i], p, n);
    ReplacePlaced(bs, c, i, p, n);
  }

  lemma RemoveTable<K(!new), V(!new)>(h: Hasher<K>, bs: seq<seq<Entry<K, V>>>, c: set<Entry<K, V>>, i: nat, p: nat)
    requires Table(h, bs, c) && i < |bs| && p < |bs[i]|
    ensures Table(h, bs[i := bs[i][..p] + bs[i][p + 1..]], c - {bs[i][p]})
  {
    DropDistinct(bs[i], p);
    RemovePlaced(bs, c, i, p);
  }

  lemma HeadElements<T>(c: seq<T>)
    requires c != []
    ensures Elements(c) == {c[0]} + Elements(c[1..])
  {
    assert c == [c[0]] + c[1..];
  }

  /** The entries of the first k of n buckets. */
  ghost function Before<K, V>(c: set<Entry<K, V>>, n: nat, k: nat): set<Entry<K, V>>
    requires n > 0
  {
    set e | e in c && Index(n, e.hash) < k
  }

  lemma NextBucket<K(!new), V(!new)>(bs: seq<seq<Entry<K, V>>>, c: set<Entry<K, V>>, k: nat)
    requires Placed(bs, c) && k < |bs|
    ensures Before(c, |bs|, k + 1) == Before(c, |bs|, k) + Elements(bs[k])
    ensures forall e :: e in bs[k] ==> e !in Before(c, |bs|, k)
  {
  }

  lemma {:induction false} JoinDistinct<T>(a: seq<T>, b: seq<T>)
    requires Distinct(a) && Distinct(b) && forall x :: x in b ==> x !in Elements(a)
    ensures Distinct(a + b) && Elements(a + b) == Elements(a) + Elements(b)
  {
    if a == [] {
      assert a + b == b;
    } else {
      assert (a + b)[1..] == a[1..] + b;
      HeadElements(a);
      JoinDistinct(a[1..], b);
      HeadElements(a + b);
    }
  }

  lemma AbsentUpdates<K(!new), V(!new)>(h: Hasher<K>, c: set<Entry<K, V>>, k: K)
    requires Lawful(h) && Keyed(h, c) && forall e :: e in c ==> !h.equals(e.key, k)
    ensures Updated(h, c, c, k, None)
  {
    forall x | h.equals(x, k) ensures Lookup(h, c, x) == None {
      assert forall e :: e in c && h.equals(e.key, x) ==> h.equals(e.key, k);
    }
  }

  class Hashmap<K(!new, ==), V(!new)> {
    const h: Hasher<K>
    var buckets: array<seq<Entry<K, V>>>
    var size: nat
    ghost var content: set<Entry<K, V>>

    /** The buckets hold the content, and the size is exact. */
    ghost predicate Valid()
      reads this, buckets
    {
      && Lawful(h)
      && Table(h, buckets[..], content)
      && size == |content|
    }

    /** hashmapCreate */
    constructor (initialCapacity: nat, h: Hasher<K>)
      requires Lawful(h)
      ensures Valid() && fresh(buckets) && content == {} && this.h == h
      ensures initialCapacity * 4 / 3 < buckets.Length
      ensures buckets.Length == 1 || buckets.Length / 2 <= initialCapacity * 4 / 3
    {
      var minimum := initialCapacity * 4 / 3;
      var n := 1;
      while n <= minimum
        invariant n > 0 && PowerOfTwo(n) && (n == 1 || n / 2 <= minimum)
        decreases minimum - n
      {
        n := n * 2;
      }
      this.h := h;
      buckets := new seq<Entry<K, V>>[n](i => []);
      size, content := 0, {};
    }

    /** Walking a chain up to the entry of k. */
    method FindInChain(c: seq<Entry<K, V>>, k: K, hash: bv32) returns (p: nat)
      requires Lawful(h) && hash == HashKey(h, k) && forall e :: e in c ==> e.hash == HashKey(h, e.key)
      ensures p <= |c|
      ensures p < |c| ==> h.equals(c[p].key, k)
      ensures p == |c| ==> forall e :: e in c ==> !h.equals(e.key, k)
    {
      p := 0;
      while p < |c|
        invariant p <= |c|
        invariant forall i :: 0 <= i < p ==> !h.equals(c[i].key, k)
      {
        assert c[p] in c;
        EqualKeysIsEquals(h, c[p].key, k);
        if EqualKeys(h, c[p].key, c[p].hash, k, hash) {
          return;
        }
        p := p + 1;
      }
    }

    /** The chain k belongs to, and where it is on it. */
    method Locate(k: K) returns (i: nat, p: nat)
      requires Valid()
      ensures i == Index(buckets.Length, HashKey(h, k)) && p <= |buckets[i]|
      ensures p < |buckets[i]| ==> buckets[i][p] in content && h.equals(buckets[i][p].key, k)
      ensures p == |buckets[i]| ==> forall e :: e in content ==> !h.equals(e.key, k)
    {
      i := Index(buckets.Length, HashKey(h, k));
      assert buckets[i] == buckets[..][i];
      p := FindInChain(buckets[i], k, HashKey(h, k));
      if p == |buckets[i]| {
        forall e | e in content ensures !h.equals(e.key, k) {
          assert e in buckets[..][Index(buckets.Length, e.hash)];
        }
      }
    }

    /** hashmapGet */
    method Get(k: K) returns (v: Option<V>)
      requires Valid()
      ensures v == Lookup(h, content, k)
    {
      var i, p := Locate(k);
      if p < |buckets[i]| {
        LookupIs(h, content, buckets[i][p], k);
        return Some(buckets[i][p].value);
      }
      return None;
    }

    /** One chain changes, and the content with it. */
    method SetChain(i: nat, chain: seq<Entry<K, V>>, count: nat, ghost c: set<Entry<K, V>>)
      requires Lawful(h) && i < buckets.Length && Table(h, buckets[..][i := chain], c) && count == |c|
      modifies this`size, this`content, buckets
      ensures Valid() && content == c
    {
      ghost var bs := buckets[..];
      buckets[i] := chain;
      size, content := count, c;
      assert buckets[..] == bs[i := chain];
    }

    /** A new entry goes to the end of its chain. */
    method Append(i: nat, k: K, v: V)
      requires Valid() && i == Index(buckets.Length, HashKey(h, k))
      requires forall e :: e in content ==> !h.equals(e.key, k)
      modifies this, buckets
      ensures Valid() && buckets == old(buckets)
      ensures Updated(h, old(content), content, k, Some(v)) && Lookup(h, old(content), k) == None
      ensures size == old(size) + 1
    {
      ghost var bs, c := buckets[..], content;
      var n := Entry(k, HashKey(h, k), v);
      AddUpdates(h, c, k, v);
      AppendTable(h, bs, c, n);
      SetChain(i, buckets[i] + [n], size + 1, c + {n});
    }

    /** The entry found keeps its key and takes the new value. */
    method Replace(i: nat, p: nat, k: K, v: V)
      requires Valid() && i < buckets.Length && p < |buckets[i]|
      requires buckets[i][p] in content && h.equals(buckets[i][p].key, k)
      modifies this, buckets
      ensures Valid() && buckets == old(buckets)
      ensures Updated(h, old(content), content, k, Some(v))
      ensures Lookup(h, old(content), k) == Some(old(buckets[i][p]).value)
      ensures size == old(size)
    {
      ghost var bs, c := buckets[..], content;
      var e := buckets[i][p];
      var n := e.(value := v);
      ReplaceUpdates(h, c, e, k, v);
      ReplaceTable(h, bs, c, i, p, v);
      SetChain(i, buckets[i][p := n], size, c - {e} + {n});
    }

    /** hashmapPut. Nothing changes when a new entry cannot be allocated; the table only grows when the
        allocation of a larger one succeeds. */
    method Put(k: K, v: V, entryOk: bool, tableOk: bool) returns (was: Option<V>, ok: bool)
      requires Valid()
      modifies this, buckets
      ensures Valid() && (buckets == old(buckets) || fresh(buckets))
      ensures was == Lookup(h, old(content), k)
      ensures ok == (was.Some? || entryOk)
      ensures if ok then Updated(h, old(content), content, k, Some(v)) else content == old(content)
      ensures buckets.Length > old(buckets.Length) <==>
                was.None? && entryOk && tableOk && old(size) + 1 > old(buckets.Length) * 3 / 4
      ensures tableOk && old(size <= buckets.Length * 3 / 4) ==> size <= buckets.Length * 3 / 4
    {
      var i, p := Locate(k);
      if p < |buckets[i]| {
        was, ok := Some(buckets[i][p].value), true;
        Replace(i, p, k, v);
      } else if !entryOk {
        return None, false;
      } else {
        Append(i, k, v);
        ExpandIfNecessary(tableOk);
        return None, true;
      }
    }

    /** hashmapRemove */
    method Remove(k: K) returns (was: Option<V>)
      requires Valid()
      modifies this, buckets
      ensures Valid() && buckets == old(buckets)
      ensures was == Lookup(h, old(content), k)
      ensures Updated(h, old(content), content, k, None)
      ensures content <= old(content) && forall e :: e in old(content) ==> (e in content <==> !h.equals(e.key, k))
    {
      var i, p := Locate(k);
      ghost var bs, c := buckets[..], content;
      if p == |buckets[i]| {
        AbsentUpdates(h, c, k);
        return None;
      }
      var e := buckets[i][p];
      RemoveUpdates(h, c, e, k);
      RemoveTable(h, bs, c, i, p);
      SetChain(i, buckets[i][..p] + buckets[i][p + 1..], size - 1, c - {e});
      return Some(e.value);
    }

    /** One bucket of the table moves to the front of its chains in the larger one. */
    method MoveChain(to: array<seq<Entry<K, V>>>, chain: seq<Entry<K, V>>, ghost moved: set<Entry<K, V>>)
      requires to.Length > 0 && Placed(to[..], moved) && Chains(to[..])
      requires Distinct(chain) && forall e :: e in chain ==> e !in moved
      modifies to
      ensures Placed(to[..], moved + Elements(chain)) && Chains(to[..])
    {
      var rest := chain;
      ghost var done := moved;
      while rest != []
        invariant Distinct(rest) && forall e :: e in rest ==> e !in done
        invariant done + Elements(rest) == moved + Elements(chain)
        invariant Placed(to[..], done) && Chains(to[..])
        decreases |rest|
      {
        var e := rest[0];
        var i := Index(to.Length, e.hash);
        ghost var bs := to[..];
        PrependPlaced(bs, done, e);
        HeadElements(rest);
        to[i] := [e] + to[i];
        assert to[..] == bs[i := [e] + bs[i]];
        done := done + {e};
        rest := rest[1..];
      }
      assert done == moved + Elements(chain);
    }

    /** The loop of expandIfNecessary: every entry moves to a table of twice the size. */
    method Rehash() returns (to: array<seq<Entry<K, V>>>)
      requires Valid()
      ensures fresh(to) && to.Length == buckets.Length * 2
      ensures Table(h, to[..], content)
    {
      var n := buckets.Length;
      to := new seq<Entry<K, V>>[n * 2](i => []);
      ghost var moved: set<Entry<K, V>> := {};
      var i := 0;
      while i < n
        invariant i <= n && buckets[..] == old(buckets[..])
        invariant moved == Before(content, n, i)
        invariant Placed(to[..], moved) && Chains(to[..])
      {
        assert buckets[i] == buckets[..][i];
        MoveChain(to, buckets[i], moved);
        NextBucket(buckets[..], content, i);
        moved := moved + Elements(buckets[i]);
        i := i + 1;
      }
      assert moved == content;
    }

    /** expandIfNecessary: the table doubles past a load of three quarters, and keeps its content. */
    method ExpandIfNecessary(tableOk: bool)
      requires Valid()
      modifies this`buckets
      ensures Valid() && (buckets == old(buckets) || fresh(buckets))
      ensures buckets.Length == old(buckets.Length) * if size > old(buckets.Length) * 3 / 4 && tableOk then 2 else 1
    {
      if size > buckets.Length * 3 / 4 && tableOk {
        buckets := Rehash();
      }
    }

    /** hashmapForEach with a callback that never stops it: every entry is visited, once. */
    method Entries() returns (es: seq<Entry<K, V>>)
      requires Valid()
      ensures Elements(es) == content && Distinct(es)
    {
      es := [];
      var i := 0;
      while i < buckets.Length
        invariant i <= buckets.Length && Distinct(es)
        invariant Elements(es) == Before(content, buckets.Length, i)
      {
        assert buckets[i] == buckets[..][i];
        NextBucket(buckets[..], content, i);
        JoinDistinct(es, buckets[i]);
        es := es + buckets[i];
        i := i + 1;
      }
      assert Before(content, buckets.Length, i) == content;
    }
  }
}
