/**
 The metadata store as its objects change it: class PrefixDB follows scraper/prefixdb.go:78-224, and
 class MongoStore the refresh loop and InitializeURI of archiver/metadata_store.go.  Every method
 is tied to a step of MetadataView.
 */
module MetadataStore {
  import opened Bytes
  import opened PrefixDb
  import opened MetadataView

  // ---- what the methods compute ----

  // bytes.Index(s, "/")
  function IndexSlash(s: Str): (i: int)
    ensures -1 <= i < |s|
    ensures i >= 0 ==> s[i] == SLASH && forall j :: 0 <= j < i ==> s[j] != SLASH
    ensures i == -1 ==> SLASH !in s
  {
    if s == [] then -1
    else if s[0] == SLASH then 0
    else var i := IndexSlash(s[1..]); if i == -1 then -1 else i + 1
  }

  function PutAll(db: seq<Record>, recs: seq<Record>): seq<Record>
    decreases |recs|
  {
    if recs == [] then db else PutAll(Put(db, recs[0]), recs[1..])
  }

  function MarkedAll(deps: set<Str>, filter: set<Str>, recs: seq<Record>): set<Str> {
    if recs == [] then {} else Marked(deps, filter, recs[0]) + MarkedAll(deps, filter, recs[1..])
  }

  // After the writes the store holds the last record written under each URI, and the others as they were.
  lemma {:induction false} PutAllExact(db: seq<Record>, recs: seq<Record>, x: Record)
    requires Sorted(db)
    ensures Sorted(PutAll(db, recs))
    ensures x in PutAll(db, recs) <==>
            || (exists i :: 0 <= i < |recs| && LastUnder(recs, i) && recs[i] == x)
            || (x in db && forall i :: 0 <= i < |recs| ==> recs[i].uri != x.uri)
    decreases |recs|
  {
    hide Put, Sorted;
    if recs != [] {
      var e, rest := recs[0], recs[1..];
      PutExact(db, e);
      PutAllExact(Put(db, e), rest, x);
      assert recs == [e] + rest;
      forall i | 0 <= i < |rest|
        ensures LastUnder(recs, i + 1) <==> LastUnder(rest, i)
      {
        LastUnderShift(e, rest, i);
      }
      assert forall i :: 0 < i < |recs| ==>
        recs[i] == rest[i - 1] && (LastUnder(recs, i) <==> LastUnder(rest, i - 1));
      assert LastUnder(recs, 0) <==> forall i :: 0 <= i < |rest| ==> rest[i].uri != e.uri;
    }
  }

  // No later record has the URI of record i.
  predicate LastUnder(recs: seq<Record>, i: nat)
    requires i < |recs|
  {
    forall j :: i < j < |recs| ==> recs[j].uri != recs[i].uri
  }

  lemma LastUnderShift(e: Record, rest: seq<Record>, i: nat)
    requires i < |rest|
    ensures LastUnder([e] + rest, i + 1) <==> LastUnder(rest, i)
  {
    assert forall j :: i < j < |rest| ==> rest[j] == ([e] + rest)[j + 1];
  }

  // What the records mark: the registered URIs below the prefix of one, if that prefix is in the filter.
  lemma {:induction false} MarkedExact(deps: set<Str>, filter: set<Str>, recs: seq<Record>, u: Str)
    ensures u in MarkedAll(deps, filter, recs) <==>
            u in deps && exists i :: 0 <= i < |recs| && Stripped(recs[i].uri) in filter && Stripped(recs[i].uri) <= u
  {
    hide Stripped;
    if recs != [] {
      var rest := recs[1..];
      MarkedExact(deps, filter, rest, u);
      if i :| 0 <= i < |rest| && Stripped(rest[i].uri) in filter && Stripped(rest[i].uri) <= u {
        assert recs[i + 1] == rest[i];
      }
      if i :| 0 < i < |recs| && Stripped(recs[i].uri) in filter && Stripped(recs[i].uri) <= u {
        assert rest[i - 1] == recs[i];
      }
    }
  }

  lemma {:induction false} InsertedAllIs(s: State, recs: seq<Record>)
    ensures InsertedAll(s, recs) ==
            s.(db := PutAll(s.db, recs), updated := s.updated + MarkedAll(s.deps, s.filter, recs))
    decreases |recs|
  {
    hide Put, Marked;
    if recs != [] {
      InsertedAllIs(Inserted(s, recs[0]), recs[1..]);
    }
  }

  lemma {:induction false} MarkedSnoc(deps: set<Str>, filter: set<Str>, recs: seq<Record>, rec: Record)
    ensures MarkedAll(deps, filter, recs + [rec]) == MarkedAll(deps, filter, recs) + Marked(deps, filter, rec)
  {
    hide Marked;
    if recs == [] {
      assert recs + [rec] == [rec] && [rec][1..] == [];
    } else {
      assert (recs + [rec])[0] == recs[0] && (recs + [rec])[1..] == recs[1..] + [rec];
      MarkedSnoc(deps, filter, recs[1..], rec);
    }
  }

  lemma {:induction false} PutAllSnoc(db: seq<Record>, recs: seq<Record>, rec: Record)
    ensures PutAll(db, recs + [rec]) == Put(PutAll(db, recs), rec)
    decreases |recs|
  {
    hide Put;
    if recs == [] {
      assert recs + [rec] == [rec] && [rec][1..] == [];
    } else {
      assert (recs + [rec])[0] == recs[0] && (recs + [rec])[1..] == recs[1..] + [rec];
      PutAllSnoc(Put(db, recs[0]), recs[1..], rec);
    }
  }

  lemma {:induction false} InsertedAllKeepsView(s: State, recs: seq<Record>)
    requires ViewOk(s) && forall i :: 0 <= i < |recs| ==> Fitting(recs[i]) && Placed(recs[i])
    ensures ViewOk(InsertedAll(s, recs))
    decreases |recs|
  {
    hide ViewOk, Inserted, Placed, Fitting;
    if recs != [] {
      InsertKeepsView(s, recs[0]);
      InsertedAllKeepsView(Inserted(s, recs[0]), recs[1..]);
    }
  }

  /** A transaction keeps the view, whether it commits or is discarded with its marks left behind. */
  lemma TransactionKeepsView(s: State, recs: seq<Record>, n: nat, ok: bool)
    requires ViewOk(s) && n <= |recs| && (ok ==> n == |recs|)
    requires forall i :: 0 <= i < |recs| ==> Fitting(recs[i]) && Placed(recs[i])
    ensures ViewOk(s.(db := if ok then PutAll(s.db, recs) else s.db,
                      updated := s.updated + MarkedAll(s.deps, s.filter, recs[..n])))
  {
    hide Placed, Fitting, LookupDoc, Sorted, Named, Marked, Prefixes;
    if ok {
      assert recs[..n] == recs;
      InsertedAllIs(s, recs);
      InsertedAllKeepsView(s, recs);
    } else {
      var s' := s.(updated := s.updated + MarkedAll(s.deps, s.filter, recs[..n]));
      forall id | id in s.docs
        ensures DocOk(s', id)
      {
        assert DocOk(s, id);
      }
    }
  }

  // The next slash at or behind a position.
  lemma NextPrefix(uri: Str, start: nat, index: int)
    requires start <= |uri| && index == IndexSlash(uri[start..])
    ensures index == -1 ==> Prefixes(uri, start) == [uri]
    ensures index >= 0 ==> Prefixes(uri, start) == [uri[..start + index]] + Prefixes(uri, start + index + 1)
  {
    if index == -1 {
      assert forall i :: start <= i < |uri| ==> uri[i] == uri[start..][i - start];
      PrefixesSkip(uri, start, |uri|);
    } else {
      assert forall i :: start <= i <= start + index ==> uri[i] == uri[start..][i - start];
      PrefixesSkip(uri, start, start + index);
    }
  }

  // The lookup of a URI, with the URI.
  function FreshDoc(db: seq<Record>, uri: Str): Doc {
    LookupDoc(db, uri)[ORIGINALURI := uri]
  }

  function Fresh(db: seq<Record>, order: seq<Str>): seq<Doc> {
    if order == [] then [] else [FreshDoc(db, order[0])] + Fresh(db, order[1..])
  }

  lemma {:induction false} FreshSnoc(db: seq<Record>, order: seq<Str>, u: Str)
    ensures Fresh(db, order + [u]) == Fresh(db, order) + [FreshDoc(db, u)]
  {
    hide FreshDoc;
    if order == [] {
      assert order + [u] == [u] && [u][1..] == [];
    } else {
      assert (order + [u])[0] == order[0] && (order + [u])[1..] == order[1..] + [u];
      FreshSnoc(db, order[1..], u);
    }
  }

  lemma {:induction false} FreshAt(db: seq<Record>, order: seq<Str>, i: nat)
    ensures |Fresh(db, order)| == |order|
    ensures i < |order| ==> Fresh(db, order)[i] == FreshDoc(db, order[i])
  {
    hide FreshDoc;
    if order != [] {
      FreshAt(db, order[1..], if i > 0 then i - 1 else 0);
    }
  }

  // Every member of the set, once.
  predicate Lists(order: seq<Str>, us: set<Str>) {
    && (forall i, j :: 0 <= i < j < |order| ==> order[i] != order[j])
    && (forall u :: u in order ==> u in us) && (forall u :: u in us ==> u in order)
  }

  lemma EmptyLists()
    ensures Lists([], {})
  {
  }

  lemma ListsSnoc(order: seq<Str>, us: set<Str>, u: Str)
    requires Lists(order, us) && u !in us
    ensures Lists(order + [u], us + {u})
  {
    var o := order + [u];
    assert forall v :: v in o <==> v in order || v == u;
    assert forall i :: 0 <= i < |order| ==> o[i] == order[i];
  }

  lemma Moved(rest: set<Str>, done: set<Str>, u: Str)
    requires u in rest && rest !! done
    ensures (rest - {u}) + (done + {u}) == rest + done && rest - {u} !! done + {u}
    ensures |rest - {u}| < |rest| && u !in done
  {
  }

  lemma ListsNext(order: seq<Str>, us: set<Str>, i: nat)
    requires Lists(order, us) && i < |order|
    ensures order[i] !in order[..i] && order[..i + 1] == order[..i] + [order[i]]
  {
  }

  lemma ListsAll(order: seq<Str>, us: set<Str>)
    requires Lists(order, us)
    ensures Members(order) == us
  {
  }

  lemma LastOf(db: seq<Record>, uri: Str, doc: Doc)
    ensures Accumulate(db, [uri], doc) == Fold(Scan(db, uri), doc)
  {
    assert [uri][1..] == [];
    assert Accumulate(db, [], Fold(Scan(db, uri), doc)) == Fold(Scan(db, uri), doc);
  }

  // ---- the prefix database ----

  class PrefixDB {
    var db: seq<Record>
    var dependencies: set<Str>
    var usagefilter: set<Str>
    var updated: set<Str>

    constructor ()
      ensures db == [] && dependencies == {} && updated == {}
    {
      db, dependencies, usagefilter, updated := [], {}, {}, {};
    }

    // Adding to the Bloom filter may turn on other members too.
    method AddUsage(p: Str)
      modifies this`usagefilter
      ensures old(usagefilter) + {p} <= usagefilter
    {
      var others: set<Str> := *;
      usagefilter := usagefilter + {p} + others;
    }

    // The iterator over the range of the metadata below a prefix.
    method GetPrefix(prefix: Str) returns (pairs: seq<Record>)
      ensures pairs == Scan(db, prefix)
    {
      hide META, InRange, PrefixRange;
      var range := MetaPrefix(prefix);
      pairs := [];
      var i := 0;
      while i < |db|
        invariant 0 <= i <= |db| && pairs + Scan(db[i..], prefix) == Scan(db, prefix)
      {
        RangeExact(prefix + META, db[i].uri);
        assert db[i..][0] == db[i] && db[i..][1..] == db[i + 1..];
        if InRange(range, db[i].uri) {
          pairs := pairs + [db[i]];
        }
        i := i + 1;
      }
    }

    // The pairs of one prefix go into the document.
    method Accumulated(prefix: Str, doc0: Doc) returns (doc: Doc)
      modifies this`usagefilter
      ensures old(usagefilter) + {prefix} <= usagefilter
      ensures doc == Fold(Scan(db, prefix), doc0)
    {
      AddUsage(prefix);
      var kvp := GetPrefix(prefix);
      doc := doc0;
      var i := 0;
      while i < |kvp|
        invariant 0 <= i <= |kvp| && Fold(kvp[i..], doc) == Fold(kvp, doc0)
      {
        assert kvp[i..][0] == kvp[i] && kvp[i..][1..] == kvp[i + 1..];
        doc := doc[kvp[i].key := kvp[i].value];
        i := i + 1;
      }
    }

    // The prefixes are visited slash by slash; the URI joins the filter and the dependencies.
    method Lookup(uri: Str) returns (doc: Doc)
      modifies this`usagefilter, this`dependencies
      ensures doc == LookupDoc(db, uri)
      ensures old(usagefilter) + PrefixSet(uri) <= usagefilter
      ensures dependencies == old(dependencies) + {uri}
    {
      hide META, SLASH;
      doc := map[];
      var start := 0;
      var index := IndexSlash(uri[start..]);
      while index > -1
        invariant 0 <= start <= |uri| && index == IndexSlash(uri[start..])
        invariant Accumulate(db, Prefixes(uri, start), doc) == LookupDoc(db, uri)
        invariant old(usagefilter) <= usagefilter && dependencies == old(dependencies)
        invariant forall p :: p in Prefixes(uri, 0) ==> p in Prefixes(uri, start) || p in usagefilter
        decreases |uri| - start
      {
        NextPrefix(uri, start, index);
        var p, rest := uri[..start + index], Prefixes(uri, start + index + 1);
        assert ([p] + rest)[1..] == rest;
        doc := Accumulated(p, doc);
        start := start + index + 1;
        index := IndexSlash(uri[start..]);
      }
      NextPrefix(uri, start, index);
      LastOf(db, uri, doc);
      doc := Accumulated(uri, doc);
      dependencies := dependencies + {uri};
    }

    // The looked-up URIs below a prefix, by the range of the prefix.
    method GetDependencies(pfx: Str) returns (deps: set<Str>)
      ensures deps == Dependents(dependencies, pfx)
      ensures forall d :: d in deps <==> d in dependencies && pfx <= d
    {
      hide InRange, PrefixRange, Lists;
      var range := BytesPrefix(pfx);
      var keys := Ascend(dependencies);
      deps := {};
      var i := 0;
      while i < |keys|
        invariant 0 <= i <= |keys| && deps == Dependents(Members(keys[..i]), pfx)
      {
        MembersSnoc(keys, i);
        RangeExact(pfx, keys[i]);
        if InRange(range, keys[i]) {
          deps := deps + {keys[i]};
        }
        i := i + 1;
      }
      assert keys[..i] == keys;
      ListsAll(keys, dependencies);
    }

    /**
     All records in one transaction.  puts is the number of writes that succeed, commits whether the
     commit does; a failure discards the writes, but not the marks already made.
     */
    method InsertRecords(records: seq<Record>, puts: nat, commits: bool) returns (ok: bool)
      modifies this`db, this`updated
      ensures ok == (commits && puts >= |records|)
      ensures db == if ok then PutAll(old(db), records) else old(db)
      ensures updated == old(updated) +
              MarkedAll(dependencies, usagefilter, if puts < |records| then records[..puts] else records)
    {
      hide Stripped, Dependents;
      var tx := db;
      var i := 0;
      while i < |records|
        invariant 0 <= i <= |records| && i <= puts
        invariant tx == PutAll(db, records[..i]) && db == old(db)
        invariant updated == old(updated) + MarkedAll(dependencies, usagefilter, records[..i])
      {
        var rec := records[i];
        assert records[..i + 1] == records[..i] + [rec];
        PutAllSnoc(db, records[..i], rec);
        MarkedSnoc(dependencies, usagefilter, records[..i], rec);
        if i == puts {
          return false;
        }
        tx := Put(tx, rec);
        if Stripped(rec.uri) in usagefilter {
          var deps := GetDependencies(Stripped(rec.uri));
          updated := updated + deps;
        }
        i := i + 1;
      }
      assert records[..i] == records;
      if commits {
        db := tx;
      }
      return commits;
    }

    // The lookup of a dirty URI, with the URI.
    method FreshLookup(u: Str) returns (doc: Doc)
      modifies this`usagefilter, this`dependencies
      ensures doc == FreshDoc(db, u)
      ensures old(usagefilter) <= usagefilter && dependencies == old(dependencies) + {u}
    {
      hide LookupDoc, PrefixSet, ORIGINALURI;
      doc := Lookup(u);
      doc := doc[ORIGINALURI := u];
    }

    // A fresh document, with its URI, for every member of the dirty set, which is emptied.
    method GetUpdatedDocuments() returns (docs: seq<Doc>, ghost order: seq<Str>)
      modifies this`usagefilter, this`dependencies, this`updated
      ensures updated == {} && dependencies == old(dependencies) + old(updated)
      ensures old(usagefilter) <= usagefilter
      ensures Lists(order, old(updated)) && docs == Fresh(db, order)
    {
      hide LookupDoc, Lists, PrefixSet, FreshDoc;
      var touse := Ascend(updated);
      updated := {};
      docs, order := [], touse;
      var i := 0;
      while i < |touse|
        invariant 0 <= i <= |touse| && updated == {}
        invariant dependencies == old(dependencies) + Members(touse[..i]) && old(usagefilter) <= usagefilter
        invariant docs == Fresh(db, touse[..i])
      {
        var doc := FreshLookup(touse[i]);
        FreshSnoc(db, touse[..i], touse[i]);
        MembersSnoc(touse, i);
        docs := docs + [doc];
        i := i + 1;
      }
      assert touse[..i] == touse;
      ListsAll(touse, old(updated));
    }
  }

  // The members of the tree, each once; their order does not matter here.
  method Ascend(us: set<Str>) returns (items: seq<Str>)
    ensures Lists(items, us)
  {
    hide Lists;
    items := [];
    var rest, done: set<Str> := us, {};
    EmptyLists();
    while rest != {}
      invariant rest + done == us && rest !! done && Lists(items, done)
      decreases |rest|
    {
      var u :| u in rest;
      ListsSnoc(items, done, u);
      Moved(rest, done, u);
      items := items + [u];
      rest, done := rest - {u}, done + {u};
    }
    assert done == us;
  }

  function Members(us: seq<Str>): set<Str> {
    set u | u in us
  }

  lemma MembersSnoc(us: seq<Str>, i: nat)
    requires i < |us|
    ensures us[..i + 1] == us[..i] + [us[i]] && Members(us[..i + 1]) == Members(us[..i]) + {us[i]}
  {
  }

  // ---- the document store ----

  // One element of a batch: set these keys in every document with this original URI.
  datatype Update = Update(uri: Str, doc: Doc)

  function SetAll(docs: map<Str, Doc>, u: Update): map<Str, Doc> {
    map id | id in docs ::
      if ORIGINALURI in docs[id] && docs[id][ORIGINALURI] == u.uri then docs[id] + u.doc else docs[id]
  }

  function RunBatch(docs: map<Str, Doc>, us: seq<Update>): map<Str, Doc>
    decreases |us|
  {
    if us == [] then docs else RunBatch(SetAll(docs, us[0]), us[1..])
  }

  // The update that the refresh loop makes for a dirty URI.
  function UpdateOf(db: seq<Record>, uri: Str): Update {
    Update(uri, FreshDoc(db, uri) - {NAME, UNIT, URI})
  }

  function Batch(db: seq<Record>, order: seq<Str>): seq<Update> {
    if order == [] then [] else [UpdateOf(db, order[0])] + Batch(db, order[1..])
  }

  lemma {:induction false} BatchSnoc(db: seq<Record>, order: seq<Str>, u: Str)
    ensures Batch(db, order + [u]) == Batch(db, order) + [UpdateOf(db, u)]
  {
    hide UpdateOf;
    if order == [] {
      assert order + [u] == [u] && [u][1..] == [];
    } else {
      assert (order + [u])[0] == order[0] && (order + [u])[1..] == order[1..] + [u];
      BatchSnoc(db, order[1..], u);
    }
  }

  // Documents and URIs belong to the same streams, and every document names its URI.
  predicate Matched(docs: map<Str, Doc>, uris: map<Str, Str>) {
    && docs.Keys == uris.Keys
    && forall id :: id in docs ==> ORIGINALURI in docs[id] && docs[id][ORIGINALURI] == uris[id]
  }

  lemma SetAllMerges(docs: map<Str, Doc>, uris: map<Str, Str>, db: seq<Record>, uri: Str)
    requires Matched(docs, uris)
    ensures var docs' := SetAll(docs, UpdateOf(db, uri));
            && Matched(docs', uris)
            && forall id :: id in docs ==>
                 docs'[id] == if uris[id] == uri then Merged(docs[id], LookupDoc(db, uri), uri) else docs[id]
  {
    hide LookupDoc;
    assert ORIGINALURI != NAME && ORIGINALURI != UNIT && ORIGINALURI != URI;
  }

  /** A batch with at most one update for each URI merges each document with the lookup of its URI. */
  lemma {:induction false} BatchMerges(docs: map<Str, Doc>, uris: map<Str, Str>, db: seq<Record>, order: seq<Str>)
    requires Matched(docs, uris)
    requires forall i, j :: 0 <= i < j < |order| ==> order[i] != order[j]
    ensures var docs' := RunBatch(docs, Batch(db, order));
            && Matched(docs', uris)
            && forall id :: id in docs ==>
                 docs'[id] == if uris[id] in order then Merged(docs[id], LookupDoc(db, uris[id]), uris[id])
                              else docs[id]
    decreases |order|
  {
    hide LookupDoc, Merged, UpdateOf, SetAll, ORIGINALURI;
    if order != [] {
      var u, rest := order[0], order[1..];
      SetAllMerges(docs, uris, db, u);
      BatchMerges(SetAll(docs, UpdateOf(db, u)), uris, db, rest);
      assert u !in rest;
    }
  }

  class MongoStore {
    const pfxdb: PrefixDB
    var documents: map<Str, Doc>
    var uuidtouri: map<Str, Str>

    constructor (p: PrefixDB)
      ensures pfxdb == p && documents == map[] && uuidtouri == map[] && Valid()
    {
      pfxdb, documents, uuidtouri := p, map[], map[];
    }

    predicate Valid()
      reads this
    {
      Matched(documents, uuidtouri)
    }

    function View(): State
      reads this, pfxdb
    {
      State(pfxdb.db, pfxdb.dependencies, pfxdb.usagefilter, pfxdb.updated, documents, uuidtouri)
    }

    // The lookup of a new stream, with the keys of its own.
    method FullDocument(uri: Str, rewritten: Str, name: Str, unit: Str, uuid: Str) returns (doc: Doc)
      modifies pfxdb`usagefilter, pfxdb`dependencies
      ensures doc == NewDoc(LookupDoc(pfxdb.db, uri), uri, rewritten, name, unit, uuid)
      ensures pfxdb.dependencies == old(pfxdb.dependencies) + {uri}
      ensures old(pfxdb.usagefilter) + PrefixSet(uri) <= pfxdb.usagefilter
    {
      hide LookupDoc, NAME, UNIT, URI, ORIGINALURI, UUID, PrefixSet;
      doc := pfxdb.Lookup(uri);
      doc := doc[NAME := name];
      doc := doc[UNIT := unit];
      doc := doc[ORIGINALURI := uri];
      doc := doc[URI := rewritten];
      doc := doc[UUID := uuid];
    }

    method InitializeURI(uri: Str, rewritten: Str, name: Str, unit: Str, uuid: Str)
      requires Valid()
      modifies this, pfxdb`usagefilter, pfxdb`dependencies
      ensures Valid() && Initializes(old(View()), uri, rewritten, name, unit, uuid, View())
      ensures uuid in documents && var d := documents[uuid];
              && NAME in d && d[NAME] == name && UNIT in d && d[UNIT] == unit
              && URI in d && d[URI] == rewritten && ORIGINALURI in d && d[ORIGINALURI] == uri
              && UUID in d && d[UUID] == uuid
    {
      hide LookupDoc, Prefixes, NAME, UNIT, URI, ORIGINALURI, UUID, PrefixSet, NewDoc;
      var doc := FullDocument(uri, rewritten, name, unit, uuid);
      NewDocIdentified(LookupDoc(old(View()).db, uri), uri, rewritten, name, unit, uuid);
      NewDocAgrees(LookupDoc(old(View()).db, uri), uri, rewritten, name, unit, uuid);
      documents := documents[uuid := doc];
      uuidtouri := uuidtouri[uuid := uri];
    }

    // UUIDFromURI finds a stream with this URI.
    predicate Known(uri: Str)
      reads this
    {
      uri in uuidtouri.Values
    }

    // The first half of a turn of the ticker loop; a URI without a stream is skipped.
    method Updates() returns (updates: seq<Update>, ghost kept: seq<Str>)
      modifies pfxdb`usagefilter, pfxdb`dependencies, pfxdb`updated
      ensures Drained(old(View()), View())
      ensures updates == Batch(pfxdb.db, kept)
      ensures Lists(kept, set u | u in old(pfxdb.updated) && u in uuidtouri.Values)
    {
      hide LookupDoc, ORIGINALURI, NAME, UNIT, URI, Prefixes, Lists;
      var docs, order := pfxdb.GetUpdatedDocuments();
      FreshAt(pfxdb.db, order, 0);
      updates, kept := [], [];
      EmptyLists();
      assert (set u | u in order[..0] && Known(u)) == {};
      var i := 0;
      while i < |docs|
        invariant 0 <= i <= |docs| == |order| && Drained(old(View()), View())
        invariant updates == Batch(pfxdb.db, kept)
        invariant Lists(kept, set u | u in order[..i] && Known(u))
      {
        FreshAt(pfxdb.db, order, i);
        var doc := docs[i];
        var uri := doc[ORIGINALURI];
        ListsNext(order, old(pfxdb.updated), i);
        ghost var before := set u | u in order[..i] && Known(u);
        if Known(uri) {
          doc := doc - {NAME};
          doc := doc - {UNIT};
          doc := doc - {URI};
          assert doc == FreshDoc(pfxdb.db, uri) - {NAME, UNIT, URI};
          BatchSnoc(pfxdb.db, kept, uri);
          ListsSnoc(kept, before, uri);
          updates, kept := updates + [Update(uri, doc)], kept + [uri];
          assert (set u | u in order[..i + 1] && Known(u)) == before + {uri};
        } else {
          assert (set u | u in order[..i + 1] && Known(u)) == before;
        }
        i := i + 1;
      }
      assert order[..i] == order;
      ListsAll(order, old(pfxdb.updated));
      assert (set u | u in order && Known(u)) == (set u | u in old(pfxdb.updated) && u in uuidtouri.Values);
    }

    // The second half: the updates run one after the other, until one of them fails.
    method RunAll(updates: seq<Update>, ran: nat)
      modifies this`documents
      ensures documents == RunBatch(old(documents), if ran < |updates| then updates[..ran] else updates)
    {
      hide SetAll;
      var some := if ran < |updates| then updates[..ran] else updates;
      var b := 0;
      while b < |some|
        invariant 0 <= b <= |some|
        invariant RunBatch(documents, some[b..]) == RunBatch(old(documents), some)
      {
        assert some[b..][0] == some[b] && some[b..][1..] == some[b + 1..];
        documents := SetAll(documents, some[b]);
        b := b + 1;
      }
    }

    /**
     One turn of the ticker loop.  ran is the number of updates of the batch that succeed; the marks are
     gone whether or not they all do.
     */
    method Refresh(ran: nat) returns (done: bool)
      requires Valid()
      modifies this`documents, pfxdb`usagefilter, pfxdb`dependencies, pfxdb`updated
      ensures Valid() && PartlyRefreshes(old(View()), View())
      ensures done ==> Refreshes(old(View()), View())
      ensures ran >= |old(pfxdb.updated)| ==> done
    {
      hide Matched, Drained, PartlyRefreshes, Refreshes, Lists;
      ghost var s := View();
      var updates, kept := Updates();
      ghost var s0 := View();
      RunAll(updates, ran);
      TurnIs(s, s0, kept, ran, View());
      return ran >= |updates|;
    }
  }

  // A turn merges the documents of the updates that ran, and of no others.
  lemma TurnIs(s: State, s0: State, kept: seq<Str>, ran: nat, s': State)
    requires Matched(s.docs, s.uris) && Drained(s, s0)
    requires Lists(kept, set u | u in s.updated && u in s.uris.Values)
    requires var us := Batch(s.db, kept);
             s' == s0.(docs := RunBatch(s.docs, if ran < |us| then us[..ran] else us))
    ensures Matched(s'.docs, s'.uris) && PartlyRefreshes(s, s')
    ensures |Batch(s.db, kept)| <= |s.updated|
    ensures ran >= |Batch(s.db, kept)| ==> Refreshes(s, s')
  {
    hide LookupDoc, ORIGINALURI, Merged, UpdateOf, SetAll;
    BatchTake(s.db, kept, ran);
    ListsSize(kept, s.updated);
    BatchMerges(s.docs, s.uris, s.db, if ran < |kept| then kept[..ran] else kept);
    assert forall id :: id in s.uris ==> s.uris[id] in s.uris.Values;
  }

  lemma {:induction false} BatchTake(db: seq<Record>, order: seq<Str>, n: nat)
    ensures |Batch(db, order)| == |order|
    ensures n <= |order| ==> Batch(db, order)[..n] == Batch(db, order[..n])
  {
    hide UpdateOf;
    if order != [] {
      BatchTake(db, order[1..], if n > 0 then n - 1 else 0);
      if 0 < n <= |order| {
        assert order[..n][0] == order[0] && order[..n][1..] == order[1..][..n - 1];
      }
    }
  }

  lemma {:induction false} ListsSize(order: seq<Str>, us: set<Str>)
    requires forall i, j :: 0 <= i < j < |order| ==> order[i] != order[j]
    requires forall u :: u in order ==> u in us
    ensures |order| <= |us|
  {
    if order != [] {
      var u := order[0];
      ListsSize(order[1..], us - {u});
    }
  }

  // The dirty set has been taken and looked up, nothing else has changed.
  predicate Drained(s: State, s': State) {
    && s'.db == s.db && s'.updated == {} && s'.docs == s.docs && s'.uris == s.uris
    && s'.deps == s.deps + s.updated && s.filter <= s'.filter
  }
}
