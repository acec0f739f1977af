/** Parameter strings `key=value;key=value` (str_parms.cpp), kept in the hash table. */
module StrParms {
  import opened Lists
  import opened HashTable

  // ---------------------------------------------------------------------------------------------
  // What a string means
  // ---------------------------------------------------------------------------------------------

  /** The first position of c, or the length (strchr, strcspn). */
  function Find(s: string, c: char): (n: nat)
    ensures n <= |s| && c !in s[..n] && (n < |s| ==> s[n] == c)
  {
    if s == [] || s[0] == c then 0
    else
      var n := Find(s[1..], c);
      assert s[..n + 1] == [s[0]] + s[1..][..n];
      n + 1
  }

  /** The non-empty runs without a semicolon, in order. */
  function Tokens(s: string): seq<string>
    decreases |s|
  {
    if s == [] then []
    else if s[0] == ';' then Tokens(s[1..])
    else
      var n := Find(s, ';');
      [s[..n]] + Tokens(s[n..])
  }

  /** The key and value of a token; one that starts with '=' has none. */
  function Pair(t: string): Option<(string, string)> {
    var n := Find(t, '=');
    if n == 0 then None
    else if n < |t| then Some((t[..n], t[n + 1..]))
    else Some((t, ""))
  }

  function Store(m: map<string, string>, t: string): map<string, string> {
    match Pair(t)
    case Some((k, v)) => m[k := v]
    case None => m
  }

  function Apply(m: map<string, string>, ts: seq<string>): map<string, string>
    decreases |ts|
  {
    if ts == [] then m else Apply(Store(m, ts[0]), ts[1..])
  }

  function Parse(s: string): map<string, string> {
    Apply(map[], Tokens(s))
  }

  function Render(e: Entry<string, string>): string {
    e.key + "=" + e.value
  }

  function Print(es: seq<Entry<string, string>>): string {
    if es == [] then ""
    else
      var n := |es| - 1;
      (if n == 0 then "" else Print(es[..n]) + ";") + Render(es[n])
  }

  function ToMap(es: seq<Entry<string, string>>): map<string, string> {
    if es == [] then map[]
    else
      var n := |es| - 1;
      ToMap(es[..n])[es[n].key := es[n].value]
  }

  /** What the syntax can express: non-empty keys without '=' and ';', values without ';'. */
  predicate Clean(key: string, value: string) {
    key != "" && '=' !in key && ';' !in key && ';' !in value
  }

  ghost predicate AllClean(m: map<string, string>) {
    forall k :: k in m ==> Clean(k, m[k])
  }

  // ---------------------------------------------------------------------------------------------
  // Parsing gives clean maps
  // ---------------------------------------------------------------------------------------------

  ghost predicate IsToken(t: string) {
    t != "" && ';' !in t
  }

  lemma {:induction false} TokensAre(s: string)
    ensures forall t :: t in Tokens(s) ==> IsToken(t)
    decreases |s|
  {
    if s == [] {
    } else if s[0] == ';' {
      TokensAre(s[1..]);
    } else {
      TokensAre(s[Find(s, ';')..]);
    }
  }

  lemma PairClean(t: string)
    requires IsToken(t)
    ensures Pair(t).Some? ==> Clean(Pair(t).value.0, Pair(t).value.1)
  {
    var n := Find(t, '=');
    assert n < |t| ==> t == t[..n] + ['='] + t[n + 1..];
  }

  lemma {:induction false} ApplyClean(m: map<string, string>, ts: seq<string>)
    requires AllClean(m) && forall t :: t in ts ==> IsToken(t)
    ensures AllClean(Apply(m, ts))
    decreases |ts|
  {
    if ts != [] {
      PairClean(ts[0]);
      ApplyClean(Store(m, ts[0]), ts[1..]);
    }
  }

  lemma ParseClean(s: string)
    ensures AllClean(Parse(s))
  {
    TokensAre(s);
    ApplyClean(map[], Tokens(s));
  }

  // ---------------------------------------------------------------------------------------------
  // The last pair for a key is the one that counts
  // ---------------------------------------------------------------------------------------------

  /** The value of the last pair for k. */
  function Last(ts: seq<string>, k: string): Option<string> {
    if ts == [] then None
    else
      var rest := Last(ts[1..], k);
      if rest.Some? then rest
      else if Pair(ts[0]).Some? && Pair(ts[0]).value.0 == k then Some(Pair(ts[0]).value.1)
      else None
  }

  lemma {:induction false} LastWins(m: map<string, string>, ts: seq<string>, k: string)
    ensures k in Apply(m, ts) <==> Last(ts, k).Some? || k in m
    ensures k in Apply(m, ts) ==> Apply(m, ts)[k] == if Last(ts, k).Some? then Last(ts, k).value else m[k]
    decreases |ts|
  {
    if ts != [] {
      LastWins(Store(m, ts[0]), ts[1..], k);
    }
  }

  // ---------------------------------------------------------------------------------------------
  // Printing and parsing
  // ---------------------------------------------------------------------------------------------

  lemma {:induction false} FindBefore(a: string, c: char, b: string)
    requires c !in a
    ensures Find(a + [c] + b, c) == |a|
  {
    if a == [] {
      assert a + [c] + b == [c] + b;
    } else {
      assert (a + [c] + b)[1..] == a[1..] + [c] + b;
      FindBefore(a[1..], c, b);
    }
  }

  lemma OneToken(t: string)
    requires IsToken(t)
    ensures Tokens(t) == [t]
  {
    var n := Find(t, ';');
    assert n == |t| && t[..n] == t && t[n..] == [];
  }

  lemma {:induction false} TokensJoin(a: string, b: string)
    ensures Tokens(a + [';'] + b) == Tokens(a) + Tokens(b)
    decreases |a|
  {
    var s := a + [';'] + b;
    if a == [] {
      assert s[1..] == b;
    } else if a[0] == ';' {
      assert s[1..] == a[1..] + [';'] + b;
      TokensJoin(a[1..], b);
    } else {
      var n := Find(a, ';');
      assert Find(s, ';') == n && s[..n] == a[..n] by {
        FindJoin(a, ';', b);
      }
      assert s[n..] == a[n..] + [';'] + b;
      TokensJoin(a[n..], b);
    }
  }

  lemma FindJoin(a: string, c: char, b: string)
    ensures Find(a + [c] + b, c) == Find(a, c)
  {
    var n := Find(a, c);
    if n < |a| {
      FindBefore(a[..n], c, a[n + 1..] + [c] + b);
      assert a + [c] + b == a[..n] + [c] + (a[n + 1..] + [c] + b);
    } else {
      assert a[..n] == a;
      FindBefore(a, c, b);
    }
  }

  lemma PairOfRender(e: Entry<string, string>)
    requires Clean(e.key, e.value)
    ensures IsToken(Render(e)) && Pair(Render(e)) == Some((e.key, e.value))
  {
    var t := Render(e);
    FindBefore(e.key, '=', e.value);
    assert t == e.key + ['='] + e.value;
    assert t[..|e.key|] == e.key && t[|e.key| + 1..] == e.value;
  }

  lemma {:induction false} ApplyPlus(m: map<string, string>, a: seq<string>, b: seq<string>)
    ensures Apply(m, a + b) == Apply(Apply(m, a), b)
    decreases |a|
  {
    if a == [] {
      assert a + b == b;
    } else {
      assert (a + b)[1..] == a[1..] + b;
      ApplyPlus(Store(m, a[0]), a[1..], b);
    }
  }

  ghost predicate CleanEntries(es: seq<Entry<string, string>>) {
    forall e :: e in es ==> Clean(e.key, e.value)
  }

  lemma ParseAppend(a: string, t: string)
    requires IsToken(t)
    ensures Parse(a + [';'] + t) == Store(Parse(a), t)
  {
    TokensJoin(a, t);
    OneToken(t);
    ApplyPlus(map[], Tokens(a), [t]);
  }

  /** One more pair at the end of a string: its value counts; a value may contain '='; a pair without a key is
      ignored; a key without '=' gets the empty value. */
  lemma Appending(a: string, k: string, v: string)
    requires '=' !in k && ';' !in k && ';' !in v
    ensures Parse(a + [';'] + (k + ['='] + v)) == if k == "" then Parse(a) else Parse(a)[k := v]
    ensures k != "" ==> Parse(a + [';'] + k) == Parse(a)[k := ""]
  {
    var t := k + ['='] + v;
    FindBefore(k, '=', v);
    assert t[..|k|] == k && t[|k| + 1..] == v;
    ParseAppend(a, t);
    if k != "" {
      ParseAppend(a, k);
    }
  }

  lemma PrintOne(e: Entry<string, string>)
    ensures Print([e]) == e.key + "=" + e.value
  {
    assert [e][..0] == [];
  }

  lemma PrintSnoc(es: seq<Entry<string, string>>, e: Entry<string, string>)
    requires es != []
    ensures Print(es + [e]) == Print(es) + ";" + Render(e)
  {
    assert (es + [e])[..|es|] == es;
  }

  lemma Regroup(x: string, y: string, z: string)
    ensures x + ";" + y + ";" + z == x + ";" + (y + ";" + z)
  {
  }

  /** Printed entries are key=value, with a semicolon between two of them. */
  lemma {:induction false} PrintJoin(a: seq<Entry<string, string>>, b: seq<Entry<string, string>>)
    requires a != [] && b != []
    ensures Print(a + b) == Print(a) + ";" + Print(b)
    ensures |b| == 1 ==> Print(b) == b[0].key + "=" + b[0].value
    decreases |b|
  {
    var n := |b| - 1;
    var rest, e := b[..n], b[n];
    if n == 0 {
      assert b == [e];
      PrintOne(e);
      PrintSnoc(a, e);
    } else {
      assert b == rest + [e] && a + b == a + rest + [e];
      PrintJoin(a, rest);
      PrintSnoc(a + rest, e);
      PrintSnoc(rest, e);
      Regroup(Print(a), Print(rest), Render(e));
    }
  }

  lemma {:induction false} ParsePrint(es: seq<Entry<string, string>>)
    requires CleanEntries(es)
    ensures Parse(Print(es)) == ToMap(es)
  {
    if es != [] {
      var n := |es| - 1;
      var e := es[n];
      PairOfRender(e);
      OneToken(Render(e));
      if n > 0 {
        ParsePrint(es[..n]);
        TokensJoin(Print(es[..n]), Render(e));
        assert Print(es) == Print(es[..n]) + [';'] + Render(e);
        ApplyPlus(map[], Tokens(Print(es[..n])), [Render(e)]);
      } else {
        assert Print(es) == Render(e) && es[..n] == [];
        assert Apply(map[], [Render(e)]) == Apply(Store(map[], Render(e)), []);
      }
    }
  }

  lemma {:induction false} InToMap(es: seq<Entry<string, string>>, k: string)
    ensures k in ToMap(es) <==> exists e :: e in es && e.key == k
    ensures k in ToMap(es) ==> exists e :: e in es && e.key == k && ToMap(es)[k] == e.value
  {
    if es != [] {
      var n := |es| - 1;
      assert es == es[..n] + [es[n]];
      InToMap(es[..n], k);
    }
  }

  /** No two entries with the same key. */
  ghost predicate UniqueKeys(es: seq<Entry<string, string>>) {
    forall e, f :: e in es && f in es && e.key == f.key ==> e == f
  }

  /** str_parms_to_str and str_parms_create_str: printing and parsing gives the map back exactly when the
      syntax can express it, whatever the order of the entries. */
  lemma RoundTrip(es: seq<Entry<string, string>>)
    requires UniqueKeys(es)
    ensures Parse(Print(es)) == ToMap(es) <==> CleanEntries(es)
  {
    if CleanEntries(es) {
      ParsePrint(es);
    }
    if Parse(Print(es)) == ToMap(es) {
      ParseClean(Print(es));
      forall e | e in es ensures Clean(e.key, e.value) {
        InToMap(es, e.key);
      }
    }
  }

  /** Parsing is unchanged by printing what was parsed and parsing it again. */
  lemma Normalises(s: string, es: seq<Entry<string, string>>)
    requires UniqueKeys(es) && ToMap(es) == Parse(s)
    ensures Parse(Print(es)) == Parse(s)
  {
    ParseClean(s);
    forall e | e in es ensures Clean(e.key, e.value) {
      InToMap(es, e.key);
    }
    ParsePrint(es);
  }

  // ---------------------------------------------------------------------------------------------
  // The object
  // ---------------------------------------------------------------------------------------------

  /** str_hash_fn, in 32-bit arithmetic */
  function StrHash(s: string): bv32 {
    if s == [] then 5381
    else
      var h := StrHash(s[..|s| - 1]);
      (h << 5) + h + (s[|s| - 1] as int) as bv32
  }

  const STRINGS: Hasher<string> := Hasher(StrHash, (a, b) => a == b)

  ghost predicate Holds(c: set<Entry<string, string>>, m: map<string, string>) {
    forall k :: Lookup(STRINGS, c, k) == if k in m then Some(m[k]) else None
  }

  lemma HoldsPut(c: set<Entry<string, string>>, d: set<Entry<string, string>>, m: map<string, string>, k: string,
                 v: string)
    requires Holds(c, m) && Updated(STRINGS, c, d, k, Some(v))
    ensures Holds(d, m[k := v])
  {
    forall x ensures Lookup(STRINGS, d, x) == if x in m[k := v] then Some(m[k := v][x]) else None {
      assert Lookup(STRINGS, c, x) == if x in m then Some(m[x]) else None;
    }
  }

  lemma HoldsMinus(c: set<Entry<string, string>>, d: set<Entry<string, string>>, m: map<string, string>, k: string)
    requires Holds(c, m) && Updated(STRINGS, c, d, k, None)
    ensures Holds(d, m - {k})
  {
    forall x ensures Lookup(STRINGS, d, x) == if x in m - {k} then Some((m - {k})[x]) else None {
      assert Lookup(STRINGS, c, x) == if x in m then Some(m[x]) else None;
    }
  }

  lemma EnumerationIs(es: seq<Entry<string, string>>, c: set<Entry<string, string>>, m: map<string, string>)
    requires Lawful(STRINGS) && Keyed(STRINGS, c) && Elements(es) == c && Holds(c, m)
    ensures UniqueKeys(es) && ToMap(es) == m
  {
    forall k ensures k in ToMap(es) <==> k in m {
      InToMap(es, k);
      if k in m {
        assert Lookup(STRINGS, c, k).Some?;
      }
      if e :| e in es && e.key == k {
        LookupIs(STRINGS, c, e, k);
      }
    }
    forall k | k in m ensures ToMap(es)[k] == m[k] {
      InToMap(es, k);
      var e :| e in es && e.key == k && ToMap(es)[k] == e.value;
      LookupIs(STRINGS, c, e, k);
    }
  }

  lemma EnumerationRoundTrip(es: seq<Entry<string, string>>, c: set<Entry<string, string>>, m: map<string, string>)
    requires Lawful(STRINGS) && Keyed(STRINGS, c) && Elements(es) == c && Holds(c, m)
    ensures Parse(Print(es)) == m <==> AllClean(m)
  {
    EnumerationIs(es, c, m);
    RoundTrip(es);
    forall k | k in m ensures exists e :: e in es && e.key == k && m[k] == e.value {
      InToMap(es, k);
    }
    forall e | e in es ensures e.key in m && m[e.key] == e.value {
      InToMap(es, e.key);
    }
  }

  lemma NothingLeft(c: set<Entry<string, string>>, m: map<string, string>, key: Option<string>)
    requires Holds(c, m) && forall e :: e in c ==> key.Some? && e.key != key.value
    ensures m == match key case Some(k) => m - {k} case None => map[]
  {
    forall k | k in m ensures key.Some? && k != key.value {
      assert Lookup(STRINGS, c, k).Some?;
    }
  }

  /** combine_strings, called for every entry */
  method CombineStrings(es: seq<Entry<string, string>>) returns (s: string)
    ensures s == Print(es)
  {
    s := "";
    var i := 0;
    while i < |es|
      invariant i <= |es| && s == Print(es[..i])
    {
      assert es[..i + 1][..i] == es[..i];
      s := (if i == 0 then "" else s + ";") + es[i].key + "=" + es[i].value;
      i := i + 1;
    }
    assert es[..i] == es;
  }

  /** strtok_r skips the delimiters in front of a token. */
  method SkipDelimiters(s: string, p: nat) returns (b: nat)
    requires p <= |s|
    ensures p <= b <= |s| && (b < |s| ==> s[b] != ';')
    ensures Tokens(s[b..]) == Tokens(s[p..])
  {
    b := p;
    while b < |s| && s[b] == ';'
      invariant p <= b <= |s| && Tokens(s[b..]) == Tokens(s[p..])
    {
      assert s[b..][1..] == s[b + 1..];
      b := b + 1;
    }
  }

  method FindDelimiter(s: string, b: nat) returns (q: nat)
    requires b <= |s|
    ensures b <= q <= |s| && ';' !in s[b..q] && (q < |s| ==> s[q] == ';')
  {
    q := b;
    while q < |s| && s[q] != ';'
      invariant b <= q <= |s| && ';' !in s[b..q]
    {
      assert s[b..q + 1] == s[b..q] + [s[q]];
      q := q + 1;
    }
  }

  /** strtok_r with the delimiter ";": the next token from position p, empty at the end. */
  method NextToken(s: string, p: nat) returns (t: string, q: nat)
    requires p <= |s|
    ensures p <= q <= |s| && (t != "" ==> p < q)
    ensures Tokens(s[p..]) == if t == "" then [] else [t] + Tokens(s[q..])
  {
    var b := SkipDelimiters(s, p);
    q := FindDelimiter(s, b);
    t := s[b..q];
    if t != "" {
      TokenAt(s, b, q);
      if q < |s| {
        assert s[q..][1..] == s[q + 1..];
        q := q + 1;
      }
    }
  }

  lemma TokenAt(s: string, b: nat, q: nat)
    requires b < q <= |s| && ';' !in s[b..q] && (q < |s| ==> s[q] == ';')
    ensures Tokens(s[b..]) == [s[b..q]] + Tokens(s[q..])
  {
    var r := s[b..];
    assert r[..q - b] == s[b..q] && r[q - b..] == s[q..];
    if q < |s| {
      FindBefore(s[b..q], ';', s[q + 1..]);
      assert r == s[b..q] + [';'] + s[q + 1..];
    } else {
      assert r == s[b..q];
    }
    assert Find(r, ';') == q - b;
    assert r[0] == s[b..q][0];
  }

  class Parms {
    const table: Hashmap<string, string>
    ghost var contents: map<string, string>

    ghost predicate Valid()
      reads this, table, table.buckets
    {
      table.h == STRINGS && table.Valid() && Holds(table.content, contents)
    }

    /** str_parms_create */
    constructor ()
      ensures Valid() && fresh(table) && fresh(table.buckets) && contents == map[]
    {
      table := new Hashmap(5, STRINGS);
      contents := map[];
    }

    /** The hashmapPut of one pair, its allocations succeeding; the table grows or stays as it is. */
    method Store(key: string, value: string)
      requires Valid()
      modifies this, table, table.buckets
      ensures Valid() && (table.buckets == old(table.buckets) || fresh(table.buckets))
      ensures contents == old(contents)[key := value]
    {
      var tableOk: bool := *;
      var _, _ := table.Put(key, value, true, tableOk);
      HoldsPut(old(table.content), table.content, contents, key, value);
      contents := contents[key := value];
    }

    /** The loop of str_parms_create_str. */
    method Load(s: string)
      requires Valid()
      modifies this, table, table.buckets
      ensures Valid() && (table.buckets == old(table.buckets) || fresh(table.buckets))
      ensures contents == Apply(old(contents), Tokens(s))
    {
      var t, p := NextToken(s, 0);
      assert s[0..] == s;
      while t != ""
        invariant p <= |s| && Valid() && (table.buckets == old(table.buckets) || fresh(table.buckets))
        invariant Apply(contents, if t == "" then [] else [t] + Tokens(s[p..])) == Apply(old(contents), Tokens(s))
        decreases |s| - p, t != ""
      {
        match Pair(t) {
          case Some((k, v)) => Store(k, v);
          case None =>
        }
        t, p := NextToken(s, p);
      }
    }

    /** str_parms_get_str and str_parms_has_key: the stored string, if any */
    method Get(key: string) returns (v: Option<string>)
      requires Valid()
      ensures v == if key in contents then Some(contents[key]) else None
    {
      v := table.Get(key);
    }

    method RemoveKey(k: string)
      requires Valid()
      modifies this, table, table.buckets
      ensures Valid() && table.buckets == old(table.buckets) && contents == old(contents) - {k}
      ensures table.content <= old(table.content)
      ensures forall e :: e in table.content ==> e.key != k
    {
      var _ := table.Remove(k);
      HoldsMinus(old(table.content), table.content, contents, k);
      contents := contents - {k};
    }

    /** No entry in the first i buckets is one that remove_pair would remove. */
    ghost predicate Passed(i: nat, key: Option<string>)
      reads this, table, table.buckets
      requires table.buckets.Length > 0
    {
      forall e :: e in table.content && Index(table.buckets.Length, e.hash) < i ==> key.Some? && e.key != key.value
    }

    /** hashmapForEach with remove_pair, on one chain: the next entry is taken before the callback may remove
        the current one, and a match ends the walk. */
    method RemoveInChain(i: nat, key: Option<string>) returns (stop: bool)
      requires Valid() && i < table.buckets.Length && Passed(i, key)
      modifies this, table, table.buckets
      ensures Valid() && table.buckets == old(table.buckets)
      ensures stop ==> key.Some? && contents == old(contents) - {key.value}
      ensures !stop ==> Passed(i + 1, key) && (key.Some? ==> contents == old(contents))
    {
      var rest := table.buckets[i];
      assert table.buckets[i] == table.buckets[..][i];
      while rest != []
        invariant Valid() && table.buckets == old(table.buckets) && Passed(i, key)
        invariant forall e :: e in table.content && Index(table.buckets.Length, e.hash) == i && e !in rest ==>
                    key.Some? && e.key != key.value
        invariant key.Some? ==> contents == old(contents)
        decreases |rest|
      {
        var e := rest[0];
        rest := rest[1..];
        if key.None? {
          RemoveKey(e.key);
        } else if key.value == e.key {
          RemoveKey(e.key);
          return true;
        }
      }
      return false;
    }

    /** str_parms_del with a key, and the loop of str_parms_destroy without one */
    method Del(key: Option<string>)
      requires Valid()
      modifies this, table, table.buckets
      ensures Valid() && table.buckets == old(table.buckets)
      ensures contents == match key case Some(k) => old(contents) - {k} case None => map[]
    {
      var i := 0;
      while i < table.buckets.Length
        invariant Valid() && table.buckets == old(table.buckets) && i <= table.buckets.Length && Passed(i, key)
        invariant key.Some? ==> contents == old(contents)
      {
        var stop := RemoveInChain(i, key);
        if stop {
          return;
        }
        i := i + 1;
      }
      NothingLeft(table.content, contents, key);
    }

    /** str_parms_to_str: parsing what it returns gives the parameters back exactly when the syntax can
        express them. */
    method ToStr() returns (s: string)
      requires Valid()
      ensures Parse(s) == contents <==> AllClean(contents)
    {
      var es := table.Entries();
      s := CombineStrings(es);
      EnumerationRoundTrip(es, table.content, contents);
    }
  }
}
