/**
 The inherited-metadata store (scraper/prefixdb.go): metadata records filed below URI prefixes, and
 the lookup that accumulates them from the root of a URI to its leaf.  The two stores are kept as
 an ordered list of entries and a set of keys; the Bloom filter as a set that may hold more than
 was added to it.
 */
module PrefixDb {
  import opened Bytes

  // A metadata record: where it was published, its key and its value.
  datatype Record = Record(uri: Str, key: Str, value: Str)

  type Doc = map<Str, Str>

  // ---- URIs ----

  predicate MetaAt(uri: Str, i: int) {
    0 <= i <= |uri| && META <= uri[i..]
  }

  // strings.LastIndex(uri, "/!meta"), looking at positions up to n.
  function LastMeta(uri: Str, n: int): (i: int)
    requires -1 <= n <= |uri|
    ensures -1 <= i <= n
    decreases n + 1
  {
    if n < 0 then -1 else if MetaAt(uri, n) then n else LastMeta(uri, n - 1)
  }

  // getStrippedURI
  function Stripped(uri: Str): Str {
    var li := LastMeta(uri, |uri|);
    if li > 0 then uri[..li] else uri
  }

  function LastSlash(uri: Str, n: int): (i: int)
    requires -1 <= n < |uri|
    ensures -1 <= i <= n
    decreases n + 1
  {
    if n < 0 then -1 else if uri[n] == SLASH then n else LastSlash(uri, n - 1)
  }

  // getURIKey
  function KeyOf(uri: Str): Str {
    var li := LastSlash(uri, |uri| - 1);
    if li > 0 then uri[li + 1..] else uri
  }

  lemma {:induction false} LastSlashFinds(uri: Str, n: int, i: int)
    requires -1 <= n < |uri|
    ensures LastSlash(uri, n) >= 0 ==> uri[LastSlash(uri, n)] == SLASH
    ensures 0 <= i <= n && uri[i] == SLASH ==> LastSlash(uri, n) >= i
    decreases n + 1
  {
    if n >= 0 && uri[n] != SLASH {
      LastSlashFinds(uri, n - 1, i);
    }
  }

  lemma NoSlash(k: Str)
    requires SLASH !in k
    ensures KeyOf(k) == k
  {
    hide SLASH;
    LastSlashFinds(k, |k| - 1, 0);
  }

  lemma SlashAt(uri: Str, i: nat)
    requires i < |uri| && uri[i] == SLASH && forall j :: i < j < |uri| ==> uri[j] != SLASH
    ensures KeyOf(uri) == if i == 0 then uri else uri[i + 1..]
  {
    hide SLASH;
    LastSlashFinds(uri, |uri| - 1, i);
  }

  /** The key of a URI is what comes after its last slash, unless that is its first byte. */
  lemma KeyExact(a: Str, k: Str)
    requires SLASH !in k
    ensures KeyOf(k) == k
    ensures KeyOf(a + [SLASH] + k) == if a == [] then [SLASH] + k else k
  {
    hide SLASH, KeyOf;
    NoSlash(k);
    var uri := a + [SLASH] + k;
    assert uri[|a| + 1..] == k;
    assert forall j :: |a| < j < |uri| ==> uri[j] == k[j - |a| - 1];
    assert a == [] ==> uri == [SLASH] + k;
    SlashAt(uri, |a|);
  }

  // "/!meta" occurs at most once in the URI, and not at its very beginning.
  ghost predicate Filed(uri: Str) {
    forall i :: MetaAt(uri, i) ==> i == LastMeta(uri, |uri|) > 0
  }

  lemma {:induction false} LastMetaFinds(uri: Str, n: int, i: int)
    requires -1 <= n <= |uri|
    ensures LastMeta(uri, n) >= 0 ==> MetaAt(uri, LastMeta(uri, n))
    ensures i <= n && MetaAt(uri, i) ==> LastMeta(uri, n) >= i
    decreases n + 1
  {
    hide MetaAt;
    if n >= 0 && !MetaAt(uri, n) {
      LastMetaFinds(uri, n - 1, i);
    }
    if MetaAt(uri, i) {
      MetaAtRange(uri, i);
    }
  }

  lemma MetaAtRange(uri: Str, i: int)
    requires MetaAt(uri, i)
    ensures i >= 0
  {
  }

  lemma MetaBelow(uri: Str, p: Str)
    requires p + META <= uri
    ensures MetaAt(uri, |p|) && p == uri[..|p|]
  {
    assert uri[..|p| + |META|] == p + META;
    assert uri[|p|..][..|META|] == META;
  }

  lemma MetaSplits(uri: Str, i: int)
    requires MetaAt(uri, i)
    ensures uri[..i] + META <= uri
  {
    assert uri == uri[..i] + uri[i..];
    assert uri[..i + |META|] == uri[..i] + META;
  }

  /** A filed record lies in the metadata of its stripped URI and of no other prefix. */
  lemma FiledBelow(uri: Str, p: Str)
    requires Filed(uri) && p + META <= uri
    ensures p == Stripped(uri)
  {
    hide META;
    MetaBelow(uri, p);
  }

  /** Any other record lies in the metadata of a prefix that is not its stripped URI. */
  lemma NotFiledBelow(uri: Str) returns (p: Str)
    requires !Filed(uri)
    ensures p + META <= uri && |p| < |Stripped(uri)|
  {
    hide META;
    var i :| MetaAt(uri, i) && !(i == LastMeta(uri, |uri|) > 0);
    MetaSplits(uri, i);
    LastMetaFinds(uri, |uri|, i);
    p := uri[..i];
    if LastMeta(uri, |uri|) == 0 {
      NotAllMeta(uri, i);
    }
  }

  lemma NotAllMeta(uri: Str, i: int)
    requires MetaAt(uri, i)
    ensures i < |uri|
  {
  }

  // ---- the slash-boundary prefixes of a URI ----

  // uri[..i] for every slash at a position i from n on, then the whole URI.
  function Prefixes(uri: Str, n: nat): seq<Str>
    requires n <= |uri|
    decreases |uri| - n
  {
    if n == |uri| then [uri]
    else (if uri[n] == SLASH then [uri[..n]] else []) + Prefixes(uri, n + 1)
  }

  lemma {:induction false} PrefixesSkip(uri: Str, n: nat, m: nat)
    requires n <= m <= |uri| && forall i :: n <= i < m ==> uri[i] != SLASH
    ensures Prefixes(uri, n) == Prefixes(uri, m)
    decreases m - n
  {
    if n < m {
      PrefixesSkip(uri, n + 1, m);
    }
  }

  predicate Above(p: Str, uri: Str) {
    p == uri || (p <= uri && |p| < |uri| && uri[|p|] == SLASH)
  }

  lemma {:induction false} PrefixesAre(uri: Str, n: nat, p: Str)
    requires n <= |uri|
    ensures p in Prefixes(uri, n) <==> Above(p, uri) && |p| >= n
    decreases |uri| - n
  {
    if n < |uri| {
      PrefixesAre(uri, n + 1, p);
      if Above(p, uri) && |p| == n {
        assert p == uri[..n];
        assert p in [uri[..n]];
      }
    }
  }

  // ---- the store ----

  predicate Sorted(db: seq<Record>) {
    forall i, j :: 0 <= i < j < |db| ==> Less(db[i].uri, db[j].uri)
  }

  // Put: the entry of that URI is replaced, or the new one goes to its place in the order.
  function Put(db: seq<Record>, e: Record): seq<Record> {
    if db == [] then [e]
    else if db[0].uri == e.uri then [e] + db[1..]
    else if Less(e.uri, db[0].uri) then [e] + db
    else [db[0]] + Put(db[1..], e)
  }

  // The entries of the metadata below prefix p, in key order.
  function Scan(db: seq<Record>, p: Str): seq<Record> {
    if db == [] then []
    else (if p + META <= db[0].uri then [db[0]] else []) + Scan(db[1..], p)
  }

  // Every key/value pair is written to the document, a later one over an earlier one.
  function Fold(es: seq<Record>, doc: Doc): Doc {
    if es == [] then doc else Fold(es[1..], doc[es[0].key := es[0].value])
  }

  function PrefixDoc(db: seq<Record>, p: Str): Doc {
    Fold(Scan(db, p), map[])
  }

  function Accumulate(db: seq<Record>, ps: seq<Str>, doc: Doc): Doc {
    if ps == [] then doc else Accumulate(db, ps[1..], Fold(Scan(db, ps[0]), doc))
  }

  /** The document that Lookup returns. */
  function LookupDoc(db: seq<Record>, uri: Str): Doc {
    Accumulate(db, Prefixes(uri, 0), map[])
  }

  lemma {:induction false} FoldOver(es: seq<Record>, doc: Doc)
    ensures Fold(es, doc) == doc + Fold(es, map[])
  {
    if es != [] {
      var e := es[0];
      FoldOver(es[1..], doc[e.key := e.value]);
      FoldOver(es[1..], map[e.key := e.value]);
    }
  }

  lemma {:induction false} AccumulateOver(db: seq<Record>, ps: seq<Str>, doc: Doc)
    ensures Accumulate(db, ps, doc) == doc + Accumulate(db, ps, map[])
  {
    if ps != [] {
      FoldOver(Scan(db, ps[0]), doc);
      AccumulateOver(db, ps[1..], Fold(Scan(db, ps[0]), doc));
      AccumulateOver(db, ps[1..], Fold(Scan(db, ps[0]), map[]));
    }
  }

  // ---- longest prefix wins ----

  // The entry that decides key k below p: the last one in key order.
  ghost predicate Decides(es: seq<Record>, k: Str, i: nat) {
    i < |es| && es[i].key == k && forall j :: i < j < |es| ==> es[j].key != k
  }

  lemma {:induction false} FoldLast(es: seq<Record>, k: Str)
    ensures k in Fold(es, map[]) <==> exists i: nat :: i < |es| && es[i].key == k
    ensures forall i: nat :: Decides(es, k, i) ==> k in Fold(es, map[]) && Fold(es, map[])[k] == es[i].value
  {
    if es != [] {
      var e, rest := es[0], es[1..];
      FoldOver(rest, map[e.key := e.value]);
      FoldLast(rest, k);
      forall i: nat | Decides(es, k, i)
        ensures k in Fold(es, map[]) && Fold(es, map[])[k] == es[i].value
      {
        if i > 0 {
          assert Decides(rest, k, i - 1);
        } else {
          assert forall j :: 0 <= j < |rest| ==> rest[j] == es[j + 1];
        }
      }
      if i: nat :| i < |es| && es[i].key == k {
        if i > 0 {
          assert rest[i - 1].key == k;
        }
      }
    }
  }

  lemma {:induction false} ScanHas(db: seq<Record>, p: Str, e: Record)
    ensures e in Scan(db, p) <==> e in db && p + META <= e.uri
  {
    if db != [] {
      ScanHas(db[1..], p, e);
      assert e in db <==> e == db[0] || e in db[1..];
    }
  }

  /** A prefix carries key k exactly when the store holds a record with that key in its metadata. */
  lemma PrefixCarries(db: seq<Record>, p: Str, k: Str)
    ensures k in PrefixDoc(db, p) <==> exists e :: e in db && p + META <= e.uri && e.key == k
  {
    var es := Scan(db, p);
    FoldLast(es, k);
    if k in PrefixDoc(db, p) {
      var i: nat :| i < |es| && es[i].key == k;
      ScanHas(db, p, es[i]);
    }
    if e :| e in db && p + META <= e.uri && e.key == k {
      ScanHas(db, p, e);
      var i: nat :| i < |es| && es[i] == e;
    }
  }

  // p is the longest of the prefixes of uri, from position n on, that carries k.
  ghost predicate Longest(db: seq<Record>, uri: Str, n: nat, k: Str, p: Str) {
    && Above(p, uri) && |p| >= n && k in PrefixDoc(db, p)
    && forall q :: Above(q, uri) && |q| > |p| ==> k !in PrefixDoc(db, q)
  }

  lemma AccumulateStep(db: seq<Record>, uri: Str, n: nat)
    requires n < |uri|
    ensures Accumulate(db, Prefixes(uri, n), map[]) ==
            (if uri[n] == SLASH then PrefixDoc(db, uri[..n]) else map[]) + Accumulate(db, Prefixes(uri, n + 1), map[])
  {
    hide META, SLASH;
    var rest := Prefixes(uri, n + 1);
    if uri[n] == SLASH {
      var ps := Prefixes(uri, n);
      assert ps == [uri[..n]] + rest;
      assert ps[0] == uri[..n] && ps[1..] == rest;
      AccumulateOver(db, rest, PrefixDoc(db, uri[..n]));
    } else {
      assert Prefixes(uri, n) == rest;
    }
  }

  lemma LastPrefix(db: seq<Record>, uri: Str)
    ensures Accumulate(db, Prefixes(uri, |uri|), map[]) == PrefixDoc(db, uri)
  {
    assert Prefixes(uri, |uri|) == [uri] && [uri][1..] == [];
    assert Accumulate(db, [], PrefixDoc(db, uri)) == PrefixDoc(db, uri);
  }

  lemma {:induction false} AccumulateHas(db: seq<Record>, uri: Str, n: nat, k: Str)
    requires n <= |uri|
    ensures k in Accumulate(db, Prefixes(uri, n), map[]) <==>
            exists p :: Above(p, uri) && |p| >= n && k in PrefixDoc(db, p)
    decreases |uri| - n
  {
    if n == |uri| {
      LastPrefix(db, uri);
      assert Above(uri, uri);
    } else {
      AccumulateStep(db, uri, n);
      AccumulateHas(db, uri, n + 1, k);
      assert uri[n] == SLASH ==> Above(uri[..n], uri);
      if p :| Above(p, uri) && |p| >= n && k in PrefixDoc(db, p) && |p| == n {
        assert p == uri[..n];
      }
    }
  }

  lemma LongestIs(db: seq<Record>, uri: Str, n: nat, k: Str, p: Str)
    requires n <= |uri| && Longest(db, uri, n, k, p)
    ensures n <= |p| <= |uri| && p == uri[..|p|] && k in PrefixDoc(db, p)
    ensures |p| > n ==> Longest(db, uri, n + 1, k, p)
    ensures |p| < |uri| ==> uri[|p|] == SLASH
  {
    hide PrefixDoc;
  }

  // What is behind the longest prefix does not carry the key.
  lemma NoLonger(db: seq<Record>, uri: Str, n: nat, k: Str, p: Str)
    requires n < |uri| && Longest(db, uri, n, k, p) && |p| == n
    ensures k !in Accumulate(db, Prefixes(uri, n + 1), map[])
  {
    hide PrefixDoc;
    AccumulateHas(db, uri, n + 1, k);
  }

  lemma {:induction false} AccumulateLongest(db: seq<Record>, uri: Str, n: nat, k: Str, p: Str)
    requires n <= |uri| && Longest(db, uri, n, k, p)
    ensures k in Accumulate(db, Prefixes(uri, n), map[])
    ensures Accumulate(db, Prefixes(uri, n), map[])[k] == PrefixDoc(db, p)[k]
    decreases |uri| - n
  {
    hide META, PrefixDoc, Longest;
    LongestIs(db, uri, n, k, p);
    if n == |uri| {
      assert uri[..|uri|] == uri;
      LastPrefix(db, uri);
    } else {
      AccumulateStep(db, uri, n);
      if |p| > n {
        AccumulateLongest(db, uri, n + 1, k, p);
      } else {
        NoLonger(db, uri, n, k, p);
      }
    }
  }

  /** Lookup(uri)[k] is the value at the longest prefix that carries k; k is absent if none does. */
  lemma LongestPrefixWins(db: seq<Record>, uri: Str, k: Str)
    ensures k in LookupDoc(db, uri) <==> exists p :: Above(p, uri) && k in PrefixDoc(db, p)
    ensures forall p :: Longest(db, uri, 0, k, p) ==>
              k in LookupDoc(db, uri) && LookupDoc(db, uri)[k] == PrefixDoc(db, p)[k]
  {
    AccumulateHas(db, uri, 0, k);
    forall p | Longest(db, uri, 0, k, p)
      ensures k in LookupDoc(db, uri) && LookupDoc(db, uri)[k] == PrefixDoc(db, p)[k]
    {
      AccumulateLongest(db, uri, 0, k, p);
    }
  }

  // ---- inserting a record ----

  lemma {:induction false} LessTrichotomy(a: Str, b: Str)
    ensures !(Less(a, b) && Less(b, a)) && !Less(a, a)
    ensures Less(a, b) || Less(b, a) || a == b
  {
    if a != [] && b != [] {
      LessTrichotomy(a[1..], b[1..]);
      LessTrichotomy(a[1..], a[1..]);
      assert a == [a[0]] + a[1..] && b == [b[0]] + b[1..];
    } else if a != [] {
      LessTrichotomy(a[1..], a[1..]);
    }
  }

  lemma {:induction false} LessTransitive(a: Str, b: Str, c: Str)
    requires Less(a, b) && Less(b, c)
    ensures Less(a, c)
  {
    if a != [] && a[0] == b[0] == c[0] {
      LessTransitive(a[1..], b[1..], c[1..]);
    }
  }

  /** Put keeps the order, replaces what was filed under the URI, and touches nothing else. */
  lemma {:induction false} PutExact(db: seq<Record>, e: Record)
    requires Sorted(db)
    ensures Sorted(Put(db, e))
    ensures forall x :: x in Put(db, e) <==> x == e || (x in db && x.uri != e.uri)
  {
    if db != [] {
      var d := db[0];
      LessTrichotomy(d.uri, e.uri);
      assert db == [d] + db[1..];
      forall x | x in db[1..]
        ensures Less(d.uri, x.uri) && x.uri != d.uri
      {
        var i :| 0 <= i < |db[1..]| && db[1..][i] == x;
        assert x == db[i + 1];
        LessTrichotomy(d.uri, x.uri);
      }
      if d.uri != e.uri && !Less(e.uri, d.uri) {
        PutExact(db[1..], e);
        var rest := Put(db[1..], e);
        forall i, j | 0 <= i < j < |[d] + rest|
          ensures Less(([d] + rest)[i].uri, ([d] + rest)[j].uri)
        {
          if i == 0 {
            assert rest[j - 1] in rest;
          }
        }
      } else if Less(e.uri, d.uri) {
        forall x | x in db
          ensures Less(e.uri, x.uri) && x.uri != e.uri
        {
          if x != d {
            LessTransitive(e.uri, d.uri, x.uri);
          }
          LessTrichotomy(e.uri, x.uri);
        }
        forall i, j | 0 <= i < j < |[e] + db|
          ensures Less(([e] + db)[i].uri, ([e] + db)[j].uri)
        {
          if i == 0 {
            assert db[j - 1] in db;
          }
        }
      } else {
        forall i, j | 0 <= i < j < |[e] + db[1..]|
          ensures Less(([e] + db[1..])[i].uri, ([e] + db[1..])[j].uri)
        {
          assert db[i].uri == ([e] + db[1..])[i].uri && db[j].uri == ([e] + db[1..])[j].uri;
        }
      }
    }
  }

  // A record below another prefix leaves the scan of p as it is.
  lemma {:induction false} PutElsewhere(db: seq<Record>, e: Record, p: Str)
    requires !(p + META <= e.uri)
    ensures Scan(Put(db, e), p) == Scan(db, p)
  {
    hide META;
    if db == [] {
      assert [e][1..] == [];
    } else if db[0].uri == e.uri {
      assert ([e] + db[1..])[1..] == db[1..];
    } else if Less(e.uri, db[0].uri) {
      assert ([e] + db)[1..] == db;
    } else {
      PutElsewhere(db[1..], e, p);
      assert ([db[0]] + Put(db[1..], e))[1..] == Put(db[1..], e);
    }
  }

  lemma {:induction false} AccumulateSame(db: seq<Record>, db': seq<Record>, ps: seq<Str>, doc: Doc)
    requires forall p :: p in ps ==> Scan(db, p) == Scan(db', p)
    ensures Accumulate(db, ps, doc) == Accumulate(db', ps, doc)
  {
    if ps != [] {
      AccumulateSame(db, db', ps[1..], Fold(Scan(db, ps[0]), doc));
    }
  }

  /** A filed record changes only the lookups of URIs below its prefix. */
  lemma PutUnseen(db: seq<Record>, e: Record, uri: Str)
    requires Filed(e.uri) && !Above(Stripped(e.uri), uri)
    ensures LookupDoc(Put(db, e), uri) == LookupDoc(db, uri)
  {
    hide META;
    forall p | p in Prefixes(uri, 0)
      ensures Scan(db, p) == Scan(Put(db, e), p)
    {
      PrefixesAre(uri, 0, p);
      if p + META <= e.uri {
        FiledBelow(e.uri, p);
      }
      PutElsewhere(db, e, p);
    }
    AccumulateSame(db, Put(db, e), Prefixes(uri, 0), map[]);
  }

  // Every record carries the key that its URI names, as the records made from messages do.
  predicate Named(db: seq<Record>) {
    forall e :: e in db ==> e.key == KeyOf(e.uri)
  }

  // The two documents say the same about a key.
  predicate Same(d: Doc, d': Doc, k: Str) {
    (k in d <==> k in d') && (k in d ==> d[k] == d'[k])
  }

  lemma FoldSame(es: seq<Record>, d: Doc, d': Doc, k: Str)
    requires Same(d, d', k)
    ensures Same(Fold(es, d), Fold(es, d'), k)
  {
    FoldOver(es, d);
    FoldOver(es, d');
  }

  lemma {:induction false} FoldOther(db: seq<Record>, e: Record, p: Str, d: Doc, d': Doc, k: Str)
    requires Named(db) && e.key == KeyOf(e.uri) && k != e.key && Same(d, d', k)
    ensures Same(Fold(Scan(Put(db, e), p), d), Fold(Scan(db, p), d'), k)
  {
    hide META, KeyOf;
    if db == [] || (Less(e.uri, db[0].uri) && db[0].uri != e.uri) {
      OneMore(db, e, p, d);
      FoldSame(Scan(db, p), if p + META <= e.uri then d[e.key := e.value] else d, d', k);
    } else {
      assert db == [db[0]] + db[1..];
      OneMore(db[1..], db[0], p, d');
      var f' := if p + META <= db[0].uri then d'[db[0].key := db[0].value] else d';
      if db[0].uri == e.uri {
        OneMore(db[1..], e, p, d);
        FoldSame(Scan(db[1..], p), if p + META <= e.uri then d[e.key := e.value] else d, f', k);
      } else {
        OneMore(Put(db[1..], e), db[0], p, d);
        FoldOther(db[1..], e, p, if p + META <= db[0].uri then d[db[0].key := db[0].value] else d, f', k);
      }
    }
  }

  lemma OneMore(db: seq<Record>, e: Record, p: Str, d: Doc)
    ensures Fold(Scan([e] + db, p), d) == Fold(Scan(db, p), if p + META <= e.uri then d[e.key := e.value] else d)
  {
    hide META;
    assert ([e] + db)[1..] == db;
    assert [e][1..] + Scan(db, p) == Scan(db, p);
    if p + META <= e.uri {
      assert ([e] + Scan(db, p))[1..] == Scan(db, p);
    } else {
      assert [] + Scan(db, p) == Scan(db, p);
    }
  }

  lemma {:induction false} AccumulateOther(db: seq<Record>, e: Record, ps: seq<Str>, d: Doc, d': Doc, k: Str)
    requires Named(db) && e.key == KeyOf(e.uri) && k != e.key && Same(d, d', k)
    ensures Same(Accumulate(Put(db, e), ps, d), Accumulate(db, ps, d'), k)
  {
    hide Named, KeyOf, Same;
    if ps != [] {
      FoldOther(db, e, ps[0], d, d', k);
      AccumulateOther(db, e, ps[1..], Fold(Scan(Put(db, e), ps[0]), d), Fold(Scan(db, ps[0]), d'), k);
    }
  }

  /** A put changes what lookups say about the key of its record, and about no other. */
  lemma PutOther(db: seq<Record>, e: Record, uri: Str, k: Str)
    requires Named(db) && e.key == KeyOf(e.uri) && k != e.key
    ensures Same(LookupDoc(Put(db, e), uri), LookupDoc(db, uri), k)
  {
    AccumulateOther(db, e, Prefixes(uri, 0), map[], map[], k);
  }

  /** An insert may add keys to a lookup or change their values; it never removes a key. */
  lemma PutKeepsKeys(db: seq<Record>, e: Record, uri: Str)
    requires Sorted(db) && Named(db) && e.key == KeyOf(e.uri)
    ensures LookupDoc(db, uri).Keys <= LookupDoc(Put(db, e), uri).Keys
  {
    hide META, KeyOf, LookupDoc;
    PutExact(db, e);
    forall k | k in LookupDoc(db, uri)
      ensures k in LookupDoc(Put(db, e), uri)
    {
      LongestPrefixWins(db, uri, k);
      LongestPrefixWins(Put(db, e), uri, k);
      var p :| Above(p, uri) && k in PrefixDoc(db, p);
      PrefixCarries(db, p, k);
      var x :| x in db && p + META <= x.uri && x.key == k;
      var y := if x.uri == e.uri then e else x;
      assert y in Put(db, e) && p + META <= y.uri && y.key == k;
      PrefixCarries(Put(db, e), p, k);
    }
  }
}
