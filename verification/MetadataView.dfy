/**
 The stored metadata documents as an incrementally maintained view (archiver/metadata_store.go:50-79
 and 188-208 over scraper/prefixdb.go): inserting a record marks documents dirty by way of a usage
 filter and a dependency index, a refresh merges fresh lookups into the dirty ones.  Lookups,
 inserts and refreshes are single steps here; ViewRaces takes them apart.
 */
module MetadataView {
  import opened Bytes
  import opened PrefixDb

  // "name", "unit", "uri", "originaluri", "uuid"
  const NAME: Str := [110, 97, 109, 101]
  const UNIT: Str := [117, 110, 105, 116]
  const URI: Str := [117, 114, 105]
  const ORIGINALURI: Str := [111, 114, 105, 103, 105, 110, 97, 108, 117, 114, 105]
  const UUID: Str := [117, 117, 105, 100]

  lemma KeysSpelled()
    ensures NAME == Ascii("name") && UNIT == Ascii("unit") && URI == Ascii("uri")
    ensures ORIGINALURI == Ascii("originaluri") && UUID == Ascii("uuid")
  {
  }

  predicate Reserved(k: Str) {
    k == NAME || k == UNIT || k == URI || k == ORIGINALURI || k == UUID
  }

  // The prefix database, the index of looked-up URIs, the usage filter, the dirty set, and the
  // stored documents with their original URIs, both by uuid.
  datatype State = State(db: seq<Record>, deps: set<Str>, filter: set<Str>, updated: set<Str>,
                         docs: map<Str, Doc>, uris: map<Str, Str>)

  // ---- the steps ----

  // GetDependencies: the looked-up URIs that start with a prefix, byte by byte.
  function Dependents(deps: set<Str>, p: Str): set<Str> {
    set d | d in deps && p <= d
  }

  // The URIs that a record dirties, if its prefix may have been used.
  function Marked(deps: set<Str>, filter: set<Str>, rec: Record): set<Str> {
    if Stripped(rec.uri) in filter then Dependents(deps, Stripped(rec.uri)) else {}
  }

  function Inserted(s: State, rec: Record): State {
    s.(db := Put(s.db, rec), updated := s.updated + Marked(s.deps, s.filter, rec))
  }

  function InsertedAll(s: State, recs: seq<Record>): State
    decreases |recs|
  {
    if recs == [] then s else InsertedAll(Inserted(s, recs[0]), recs[1..])
  }

  function PrefixSet(uri: Str): set<Str> {
    set p | p in Prefixes(uri, 0)
  }

  // The document of a newly archived stream.
  function NewDoc(l: Doc, uri: Str, rewritten: Str, name: Str, unit: Str, uuid: Str): Doc {
    l[NAME := name][UNIT := unit][ORIGINALURI := uri][URI := rewritten][UUID := uuid]
  }

  // InitializeURI; adding to the filter may turn on more than the prefixes of the URI.
  ghost predicate Initializes(s: State, uri: Str, rewritten: Str, name: Str, unit: Str, uuid: Str, s': State) {
    && s'.db == s.db && s'.updated == s.updated
    && s'.deps == s.deps + {uri} && s.filter + PrefixSet(uri) <= s'.filter
    && s'.docs == s.docs[uuid := NewDoc(LookupDoc(s.db, uri), uri, rewritten, name, unit, uuid)]
    && s'.uris == s.uris[uuid := uri]
  }

  // A document after "$set" of a fresh lookup, which carries its original URI and lacks name, unit and uri.
  function Merged(d: Doc, l: Doc, uri: Str): Doc {
    d + (l[ORIGINALURI := uri] - {NAME, UNIT, URI})
  }

  // One tick of the refresh loop: every dirty URI that has a document is looked up and merged.
  ghost predicate Refreshes(s: State, s': State) {
    && s'.db == s.db && s'.updated == {} && s'.uris == s.uris
    && s'.deps == s.deps + s.updated && s.filter <= s'.filter
    && s'.docs.Keys == s.docs.Keys
    && forall id :: id in s.docs && id in s.uris ==>
         s'.docs[id] == if s.uris[id] in s.updated then Merged(s.docs[id], LookupDoc(s.db, s.uris[id]), s.uris[id])
                        else s.docs[id]
  }

  // A tick whose batch fails part of the way: some of the dirty documents are merged, none stays dirty.
  ghost predicate PartlyRefreshes(s: State, s': State) {
    && s'.db == s.db && s'.updated == {} && s'.uris == s.uris
    && s'.deps == s.deps + s.updated && s.filter <= s'.filter
    && s'.docs.Keys == s.docs.Keys
    && forall id :: id in s.docs && id in s.uris ==>
         s'.docs[id] == s.docs[id] ||
         (s.uris[id] in s.updated &&
          s'.docs[id] == Merged(s.docs[id], LookupDoc(s.db, s.uris[id]), s.uris[id]))
  }

  // ---- the invariant ----

  // The stored document and the lookup say the same about every inherited key.
  ghost predicate Agrees(d: Doc, l: Doc) {
    forall k :: !Reserved(k) ==> (k in d <==> k in l) && (k in d ==> d[k] == l[k])
  }

  // No inherited key is in the stored document that the lookup no longer has.
  ghost predicate Covered(d: Doc, l: Doc) {
    forall k :: !Reserved(k) && k in d ==> k in l
  }

  ghost predicate DocOk(s: State, id: Str) {
    id in s.uris && id in s.docs &&
    var d, uri := s.docs[id], s.uris[id];
    && ORIGINALURI in d && d[ORIGINALURI] == uri && UUID in d
    && uri in s.deps && PrefixSet(uri) <= s.filter
    && Covered(d, LookupDoc(s.db, uri))
    && (uri in s.updated || Agrees(d, LookupDoc(s.db, uri)))
  }

  // The inherited view is up to date or marked dirty, for every initialised stream.
  ghost predicate ViewOk(s: State) {
    && Sorted(s.db) && Named(s.db)
    && s.docs.Keys == s.uris.Keys
    && forall id :: id in s.docs ==> DocOk(s, id)
  }

  predicate Fitting(rec: Record) {
    rec.key == KeyOf(rec.uri)
  }

  // ---- inserts ----

  // The record is filed, or carries a key that documents do not inherit.
  ghost predicate Placed(rec: Record) {
    Filed(rec.uri) || Reserved(rec.key)
  }

  // A record with a reserved key changes no lookup as far as documents inherit it.
  lemma ReservedKeepsDoc(s: State, rec: Record, id: Str)
    requires ViewOk(s) && Fitting(rec) && Reserved(rec.key) && id in s.docs
    ensures DocOk(Inserted(s, rec), id)
  {
    hide LookupDoc, Stripped, KeyOf, Prefixes, Put, Reserved, Sorted;
    assert DocOk(s, id);
    var l, l' := LookupDoc(s.db, s.uris[id]), LookupDoc(Put(s.db, rec), s.uris[id]);
    forall k | !Reserved(k)
      ensures Same(l', l, k)
    {
      PutOther(s.db, rec, s.uris[id], k);
    }
    assert Covered(s.docs[id], l');
    assert Agrees(s.docs[id], l) ==> Agrees(s.docs[id], l');
  }

  lemma InsertKeepsDoc(s: State, rec: Record, id: Str)
    requires ViewOk(s) && Fitting(rec) && Filed(rec.uri) && id in s.docs
    ensures DocOk(Inserted(s, rec), id)
  {
    hide LookupDoc, Stripped, Filed, KeyOf, Prefixes, Put, Reserved, Sorted;
    assert DocOk(s, id);
    var uri, p := s.uris[id], Stripped(rec.uri);
    PutKeepsKeys(s.db, rec, uri);
    if Above(p, uri) {
      PrefixesAre(uri, 0, p);
    } else {
      PutUnseen(s.db, rec, uri);
    }
  }

  /** Inserting a filed record, or one with a reserved key, keeps every document up to date or marked. */
  lemma InsertKeepsView(s: State, rec: Record)
    requires ViewOk(s) && Fitting(rec) && Placed(rec)
    ensures ViewOk(Inserted(s, rec))
  {
    hide LookupDoc, Stripped, Filed, KeyOf, Prefixes, Put, Sorted, DocOk, Reserved;
    PutExact(s.db, rec);
    forall id | id in s.docs
      ensures DocOk(Inserted(s, rec), id)
    {
      if Reserved(rec.key) {
        ReservedKeepsDoc(s, rec, id);
      } else {
        InsertKeepsDoc(s, rec, id);
      }
    }
  }

  // A state with one document, for a stream at p, and an empty store.
  function OneStream(p: Str): State {
    var id: Str := [];
    State([], {p}, PrefixSet(p), {}, map[id := NewDoc(map[], p, [], [], [], id)], map[id := p])
  }

  lemma OneStreamOk(p: Str)
    ensures ViewOk(OneStream(p)) && LookupDoc([], p) == map[]
  {
    hide Prefixes, Reserved;
    EmptyLookup(Prefixes(p, 0));
    var s := OneStream(p);
    assert DocOk(s, []) by {
      NewDocAgrees(map[], p, [], [], [], []);
    }
  }

  lemma {:induction false} EmptyLookup(ps: seq<Str>)
    ensures Accumulate([], ps, map[]) == map[]
  {
    if ps != [] {
      EmptyLookup(ps[1..]);
    }
  }

  lemma NewDocAgrees(l: Doc, uri: Str, rewritten: Str, name: Str, unit: Str, uuid: Str)
    ensures var d := NewDoc(l, uri, rewritten, name, unit, uuid);
            && Agrees(d, l) && Covered(d, l)
            && ORIGINALURI in d && d[ORIGINALURI] == uri && UUID in d && d[UUID] == uuid
  {
    assert URI != ORIGINALURI && URI != UUID && ORIGINALURI != UUID;
  }

  /**
   The condition is exact: an insert keeps the view in every state if and only if the record is
   filed, "/!meta" occurring at most once and not at the start, or has a reserved key.
   */
  lemma InsertExact(rec: Record)
    requires Fitting(rec)
    ensures (forall s: State :: ViewOk(s) ==> ViewOk(Inserted(s, rec))) <==> Filed(rec.uri) || Reserved(rec.key)
  {
    hide ViewOk, Filed, Inserted, KeyOf, LookupDoc, Stripped, Reserved;
    if Placed(rec) {
      forall s: State | ViewOk(s)
        ensures ViewOk(Inserted(s, rec))
      {
        InsertKeepsView(s, rec);
      }
    } else {
      var p := NotFiledBelow(rec.uri);
      OneStreamOk(p);
      UnfiledBreaks(rec, p);
    }
  }

  lemma UnfiledBreaks(rec: Record, p: Str)
    requires !Reserved(rec.key) && p + META <= rec.uri && |p| < |Stripped(rec.uri)|
    ensures !ViewOk(Inserted(OneStream(p), rec))
  {
    hide META, Stripped, LookupDoc, Prefixes, Sorted, Named, NAME, UNIT, URI, ORIGINALURI, UUID;
    var id: Str := [];
    var s := OneStream(p);
    var s' := Inserted(s, rec);
    assert s'.db == [rec];
    PrefixCarries(s'.db, p, rec.key);
    assert Above(p, p);
    LongestPrefixWins(s'.db, p, rec.key);
    assert rec.key in LookupDoc(s'.db, p);
    assert rec.key !in s'.docs[id];
    assert Stripped(rec.uri) !in s.filter by {
      PrefixesAre(p, 0, Stripped(rec.uri));
    }
    assert s'.updated == {};
    assert !DocOk(s', id);
  }

  // ---- initialisation and refresh ----

  /** A new stream enters with an up-to-date document, and the others stay as they are. */
  lemma InitializeKeepsView(s: State, uri: Str, rewritten: Str, name: Str, unit: Str, uuid: Str, s': State)
    requires ViewOk(s) && Initializes(s, uri, rewritten, name, unit, uuid, s')
    ensures ViewOk(s')
  {
    hide LookupDoc, Prefixes, Sorted, Named, NAME, UNIT, URI, ORIGINALURI, UUID, NewDoc;
    forall id | id in s'.docs
      ensures DocOk(s', id)
    {
      if id == uuid {
        NewDocAgrees(LookupDoc(s.db, uri), uri, rewritten, name, unit, uuid);
      } else {
        assert DocOk(s, id);
      }
    }
  }

  lemma NoUuidKey(db: seq<Record>, uri: Str)
    requires forall e :: e in db ==> e.key != UUID
    ensures UUID !in LookupDoc(db, uri)
  {
    hide META, LookupDoc, UUID;
    LongestPrefixWins(db, uri, UUID);
    if p :| Above(p, uri) && UUID in PrefixDoc(db, p) {
      PrefixCarries(db, p, UUID);
    }
  }

  /**
   Merging is recomputing: since lookups only ever gain keys, the document after the merge agrees
   with the fresh lookup on every inherited key.  Name, unit, uri and original uri are kept.
   */
  lemma MergeRecomputes(d: Doc, l: Doc, uri: Str)
    requires Covered(d, l)
    requires ORIGINALURI in d && d[ORIGINALURI] == uri
    ensures var m := Merged(d, l, uri);
            && Agrees(m, l)
            && forall k :: k in {NAME, UNIT, URI, ORIGINALURI} ==> (k in m <==> k in d) && (k in d ==> m[k] == d[k])
  {
    assert ORIGINALURI != NAME && ORIGINALURI != UNIT && ORIGINALURI != URI;
  }

  /** The uuid of a document survives a merge exactly when the metadata does not carry another one. */
  lemma MergeKeepsUuid(d: Doc, l: Doc, uri: Str)
    requires UUID in d
    ensures UUID in Merged(d, l, uri)
    ensures Merged(d, l, uri)[UUID] == d[UUID] <==> UUID !in l || l[UUID] == d[UUID]
  {
    assert UUID != ORIGINALURI && UUID != NAME && UUID != UNIT && UUID != URI;
  }

  // A step between the documents of a stream that keeps the reserved keys, the uuid perhaps excepted.
  ghost predicate KeepsReserved(d: Doc, d': Doc, uuidToo: bool) {
    forall k :: Reserved(k) && (k == UUID ==> uuidToo) ==> (k in d <==> k in d') && (k in d ==> d'[k] == d[k])
  }

  // The refresh of this document brings in no other uuid.
  ghost predicate UuidStays(s: State, id: Str)
    requires id in s.docs && id in s.uris && UUID in s.docs[id]
  {
    var l := LookupDoc(s.db, s.uris[id]);
    s.uris[id] in s.updated && UUID in l ==> l[UUID] == s.docs[id][UUID]
  }

  lemma RefreshDoc(s: State, s': State, id: Str)
    requires ViewOk(s) && PartlyRefreshes(s, s') && id in s.docs
    ensures UUID in s.docs[id] && UUID in s'.docs[id] && KeepsReserved(s.docs[id], s'.docs[id], false)
    ensures Refreshes(s, s') ==>
              DocOk(s', id) && Agrees(s'.docs[id], LookupDoc(s.db, s.uris[id])) &&
              (s'.docs[id][UUID] == s.docs[id][UUID] <==> UuidStays(s, id))
    ensures DocOk(s', id) <==> Agrees(s'.docs[id], LookupDoc(s.db, s.uris[id]))
  {
    hide LookupDoc, Prefixes, Sorted, Named, NAME, UNIT, URI, ORIGINALURI, UUID, Merged;
    assert DocOk(s, id);
    var d, uri := s.docs[id], s.uris[id];
    var l := LookupDoc(s.db, uri);
    if s'.docs[id] != d || uri in s.updated {
      MergeRecomputes(d, l, uri);
      MergeKeepsUuid(d, l, uri);
    }
  }

  /**
   After a refresh every stored document agrees with a fresh lookup, nothing is dirty, and no reserved key
   of any document has changed but the uuid, which changes exactly when the metadata carries another one.
   */
  lemma RefreshRecomputes(s: State, s': State)
    requires ViewOk(s) && Refreshes(s, s')
    ensures ViewOk(s') && s'.updated == {}
    ensures forall id :: id in s.docs ==>
              id in s'.docs && Agrees(s'.docs[id], LookupDoc(s'.db, s'.uris[id])) &&
              KeepsReserved(s.docs[id], s'.docs[id], false)
    ensures forall id :: id in s.docs ==>
              UUID in s.docs[id] && UUID in s'.docs[id] &&
              (s'.docs[id][UUID] == s.docs[id][UUID] <==> UuidStays(s, id))
  {
    hide LookupDoc, Prefixes, Sorted, Named, Reserved, Agrees, DocOk, KeepsReserved, UuidStays, UUID;
    forall id | id in s.docs
      ensures DocOk(s', id) && Agrees(s'.docs[id], LookupDoc(s'.db, s'.uris[id]))
      ensures KeepsReserved(s.docs[id], s'.docs[id], false)
      ensures UUID in s.docs[id] && UUID in s'.docs[id]
      ensures s'.docs[id][UUID] == s.docs[id][UUID] <==> UuidStays(s, id)
    {
      RefreshDoc(s, s', id);
    }
  }

  /** In a store without a record of that key a refresh changes no uuid either. */
  lemma RefreshKeepsUuids(s: State, s': State)
    requires ViewOk(s) && Refreshes(s, s') && forall e :: e in s.db ==> e.key != UUID
    ensures forall id :: id in s.docs ==> id in s'.docs && KeepsReserved(s.docs[id], s'.docs[id], true)
  {
    hide LookupDoc, Prefixes, Sorted, Named, Agrees, DocOk, NAME, UNIT, URI, ORIGINALURI, UUID;
    RefreshRecomputes(s, s');
    forall id | id in s.docs
      ensures KeepsReserved(s.docs[id], s'.docs[id], true)
    {
      NoUuidKey(s.db, s.uris[id]);
    }
  }

  // ---- what the view does not survive ----

  // The document lacks what the lookup of its URI has now.
  ghost predicate Stale(s: State, id: Str)
    requires id in s.docs && id in s.uris
  {
    !Agrees(s.docs[id], LookupDoc(s.db, s.uris[id]))
  }

  // The batch of a failed refresh wrote every stale document.
  ghost predicate WroteStale(s: State, s': State) {
    forall id :: id in s.docs && id in s.uris && Stale(s, id) ==> id in s'.docs && s'.docs[id] != s.docs[id]
  }

  /** A refresh whose batch fails part of the way keeps the view exactly when it wrote every stale document. */
  lemma PartlyExact(s: State, s': State)
    requires ViewOk(s) && PartlyRefreshes(s, s')
    ensures ViewOk(s') <==> WroteStale(s, s')
  {
    hide LookupDoc, Prefixes, Sorted, Named, Reserved, Agrees, DocOk, KeepsReserved, UuidStays, UUID;
    forall id | id in s.docs
      ensures DocOk(s', id) <==> (Stale(s, id) ==> s'.docs[id] != s.docs[id])
    {
      RefreshDoc(s, s', id);
      if s'.docs[id] != s.docs[id] {
        PartlyDoc(s, s', id);
      }
    }
  }

  // A document that a failed batch has written agrees with its lookup.
  lemma PartlyDoc(s: State, s': State, id: Str)
    requires ViewOk(s) && PartlyRefreshes(s, s') && id in s.docs && s'.docs[id] != s.docs[id]
    ensures Agrees(s'.docs[id], LookupDoc(s.db, s.uris[id]))
  {
    hide LookupDoc, Prefixes, Sorted, Named, Reserved, Agrees;
    assert DocOk(s, id);
    MergeRecomputes(s.docs[id], LookupDoc(s.db, s.uris[id]), s.uris[id]);
  }

  // A restart: records, dependencies and documents are on disk, the filter and the dirty set are not.
  function Restarted(s: State): State {
    s.(filter := {}, updated := {})
  }

  /** A restart keeps the view exactly when there are no documents yet. */
  lemma RestartExact(s: State)
    requires ViewOk(s)
    ensures ViewOk(Restarted(s)) <==> s.docs == map[]
  {
    hide LookupDoc, Sorted, Named, Reserved, Agrees, UUID, ORIGINALURI;
    if id :| id in s.docs {
      var uri := s.uris[id];
      PrefixesAre(uri, 0, uri);
      assert uri in PrefixSet(uri);
      assert !DocOk(Restarted(s), id);
    }
  }

  // ---- runs ----

  datatype Event =
    | Insert(rec: Record)
    | Initialize(uri: Str, rewritten: Str, name: Str, unit: Str, uuid: Str)
    | Refresh
    | FailedRefresh
    | Restart

  ghost predicate Steps(s: State, e: Event, s': State) {
    match e
    case Insert(rec) => Fitting(rec) && s' == Inserted(s, rec)
    case Initialize(uri, rw, name, unit, uuid) => Initializes(s, uri, rw, name, unit, uuid, s')
    case Refresh => Refreshes(s, s')
    case FailedRefresh => PartlyRefreshes(s, s')
    case Restart => s' == Restarted(s)
  }

  ghost predicate IsRun(states: seq<State>, events: seq<Event>) {
    && |states| == |events| + 1
    && states[0].db == [] && states[0].docs == map[] && states[0].uris == map[]
    && forall i :: 0 <= i < |events| ==> Steps(states[i], events[i], states[i + 1])
  }

  // None of the steps that lose marks: an insert of a record that is not placed, a refresh that fails before
  // a stale document, a restart with documents.
  ghost predicate Harmless(s: State, e: Event, s': State) {
    match e
    case Insert(rec) => Placed(rec)
    case Initialize(_, _, _, _, _) => true
    case Refresh => true
    case FailedRefresh => WroteStale(s, s')
    case Restart => s.docs == map[]
  }

  lemma StepKeepsView(s: State, e: Event, s': State)
    requires ViewOk(s) && Steps(s, e, s')
    ensures Harmless(s, e, s') ==> ViewOk(s')
    ensures !e.Insert? ==> (ViewOk(s') <==> Harmless(s, e, s'))
  {
    hide Inserted, Initializes, Refreshes, PartlyRefreshes, Placed, DocOk, Stale;
    match e
    case Insert(rec) =>
      if Placed(rec) {
        InsertKeepsView(s, rec);
      }
    case Initialize(uri, rw, name, unit, uuid) => InitializeKeepsView(s, uri, rw, name, unit, uuid, s');
    case Refresh => RefreshRecomputes(s, s');
    case FailedRefresh => PartlyExact(s, s');
    case Restart => RestartExact(s);
  }

  /**
   In every state of every run, each initialised stream is up to date or marked dirty, as long as no step
   before has lost marks.
   */
  lemma {:induction false} RunKeepsView(states: seq<State>, events: seq<Event>, n: nat)
    requires IsRun(states, events) && n < |states|
    requires forall i :: 0 <= i < n ==> Harmless(states[i], events[i], states[i + 1])
    ensures ViewOk(states[n])
  {
    hide ViewOk, Harmless, Steps;
    if n == 0 {
      EmptyViewOk(states[0]);
    } else {
      RunKeepsView(states, events, n - 1);
      assert Steps(states[n - 1], events[n - 1], states[n]);
      StepKeepsView(states[n - 1], events[n - 1], states[n]);
    }
  }

  lemma EmptyViewOk(s: State)
    requires s.db == [] && s.docs == map[] && s.uris == map[]
    ensures ViewOk(s)
  {
  }

  // ---- whose document it is ----

  // Name, unit, uri and original uri are these.
  predicate Identified(d: Doc, uri: Str, rewritten: Str, name: Str, unit: Str) {
    && NAME in d && d[NAME] == name && UNIT in d && d[UNIT] == unit
    && URI in d && d[URI] == rewritten && ORIGINALURI in d && d[ORIGINALURI] == uri
  }

  // Event m is the last one of the first n that initialises the stream.
  predicate LastInit(events: seq<Event>, n: nat, id: Str, m: int) {
    && 0 <= m < n <= |events| && events[m].Initialize? && events[m].uuid == id
    && forall l :: m < l < n ==> !(events[l].Initialize? && events[l].uuid == id)
  }

  lemma NewDocIdentified(l: Doc, uri: Str, rewritten: Str, name: Str, unit: Str, uuid: Str)
    ensures Identified(NewDoc(l, uri, rewritten, name, unit, uuid), uri, rewritten, name, unit)
  {
    assert NAME != UNIT && NAME != URI && NAME != ORIGINALURI && NAME != UUID;
    assert UNIT != URI && UNIT != ORIGINALURI && UNIT != UUID;
    assert URI != ORIGINALURI && URI != UUID && ORIGINALURI != UUID;
  }

  lemma MergedIdentified(d: Doc, l: Doc, uri: Str, rewritten: Str, name: Str, unit: Str)
    requires Identified(d, uri, rewritten, name, unit)
    ensures Identified(Merged(d, l, uri), uri, rewritten, name, unit)
  {
    assert NAME != UNIT && NAME != URI && NAME != ORIGINALURI;
    assert UNIT != URI && UNIT != ORIGINALURI && URI != ORIGINALURI;
  }

  // A stream keeps its URI and what identifies it through a step that does not initialise it.
  lemma StepIdentified(s: State, e: Event, s': State, id: Str, uri: Str, rewritten: Str, name: Str, unit: Str)
    requires Steps(s, e, s') && !(e.Initialize? && e.uuid == id)
    requires id in s.docs && id in s.uris && s.uris[id] == uri && Identified(s.docs[id], uri, rewritten, name, unit)
    ensures id in s'.docs && id in s'.uris && s'.uris[id] == uri
    ensures Identified(s'.docs[id], uri, rewritten, name, unit)
  {
    hide LookupDoc, Merged, NewDoc, Identified, Prefixes;
    MergedIdentified(s.docs[id], LookupDoc(s.db, uri), uri, rewritten, name, unit);
  }

  /**
   In every state of every run, marks lost or not: the streams with a document are those initialised so far,
   and their names, units, uris and original uris are those of their last initialisation.
   */
  lemma {:induction false} RunIdentifies(states: seq<State>, events: seq<Event>, n: nat, id: Str)
    requires IsRun(states, events) && n < |states|
    ensures id in states[n].docs <==> exists m :: LastInit(events, n, id, m)
    ensures forall m :: LastInit(events, n, id, m) ==>
              var e := events[m];
              && id in states[n].docs && id in states[n].uris && states[n].uris[id] == e.uri
              && Identified(states[n].docs[id], e.uri, e.rewritten, e.name, e.unit)
  {
    hide Steps, Identified;
    if n > 0 {
      RunIdentifies(states, events, n - 1, id);
      var s, e, s' := states[n - 1], events[n - 1], states[n];
      assert Steps(s, e, s');
      if e.Initialize? && e.uuid == id {
        InitIdentified(s, e, s');
        assert LastInit(events, n, id, n - 1);
      } else {
        forall m
          ensures LastInit(events, n, id, m) <==> LastInit(events, n - 1, id, m)
        {
          LastInitStep(events, n, id, m);
        }
        if id in s.docs {
          var m :| LastInit(events, n - 1, id, m);
          var f := events[m];
          StepIdentified(s, e, s', id, f.uri, f.rewritten, f.name, f.unit);
          OneLastInit(events, n, id, m);
        } else {
          NoneAppears(s, e, s', id);
        }
      }
    }
  }

  lemma LastInitStep(events: seq<Event>, n: nat, id: Str, m: int)
    requires 0 < n <= |events| && !(events[n - 1].Initialize? && events[n - 1].uuid == id)
    ensures LastInit(events, n, id, m) <==> LastInit(events, n - 1, id, m)
  {
  }

  lemma OneLastInit(events: seq<Event>, n: nat, id: Str, m: int)
    requires LastInit(events, n, id, m)
    ensures forall l :: LastInit(events, n, id, l) ==> l == m
  {
  }

  lemma InitIdentified(s: State, e: Event, s': State)
    requires Steps(s, e, s') && e.Initialize?
    ensures e.uuid in s'.docs && e.uuid in s'.uris && s'.uris[e.uuid] == e.uri
    ensures Identified(s'.docs[e.uuid], e.uri, e.rewritten, e.name, e.unit)
  {
    hide NewDoc, Identified, LookupDoc, Prefixes;
    NewDocIdentified(LookupDoc(s.db, e.uri), e.uri, e.rewritten, e.name, e.unit, e.uuid);
  }

  lemma NoneAppears(s: State, e: Event, s': State, id: Str)
    requires Steps(s, e, s') && !(e.Initialize? && e.uuid == id) && id !in s.docs
    ensures id !in s'.docs
  {
    hide LookupDoc, Merged, NewDoc, Prefixes;
    assert id in s'.docs ==> id in s'.docs.Keys;
  }
}
