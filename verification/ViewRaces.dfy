/**
 The metadata view with its operations taken apart into the steps that can interleave: tests of the
 usage filter, marks, commits, reads of single prefixes, registrations, writes of documents
 (scraper/prefixdb.go:78-224, archiver/metadata_store.go:50-79 and 188-208).  Three choices of
 order decide whether the view stays right.
 */
module ViewRaces {
  import opened Wrappers
  import opened Bytes
  import opened PrefixDb
  import opened MetadataView

  /**
   commitFirst: an insert commits before it tests and marks, rather than after.
   registerFirst: a lookup registers its URI before it reads, rather than some time later.
   initMarks: initialising a stream ends with marking it dirty.
   The program has none of them.
   */
  datatype Order = Order(commitFirst: bool, registerFirst: bool, initMarks: bool)

  // What was read at each prefix of a URI.
  type Snap = map<Str, Doc>

  // An insert in flight: what it writes at each prefix, and the prefixes still to test and mark.
  datatype Insertion = Insertion(writes: Snap, todo: seq<Str>, marking: bool, committed: bool)

  // A lookup in flight: the prefixes still to read, whether the first of them is in the filter yet.
  datatype Look = Look(uri: Str, left: seq<Str>, added: bool, seen: Snap)

  // A stream being initialised: its lookup, and whether the document is stored yet.
  datatype Starter = Starter(look: Look, stored: bool)

  datatype World = World(db: Snap, deps: set<Str>, filter: set<Str>, updated: set<Str>,
                         registering: set<Str>, stored: map<Str, Snap>,
                         inserts: map<nat, Insertion>, starting: map<Str, Starter>,
                         active: bool, todo: set<Str>, current: Option<Look>, got: map<Str, Snap>)

  const EMPTY := World(map[], {}, {}, {}, {}, map[], map[], map[], false, {}, None, map[])

  function At(db: Snap, p: Str): Doc {
    if p in db then db[p] else map[]
  }

  // ---- the steps ----

  datatype Event =
    | BeginInsert(id: nat, writes: Snap, order: seq<Str>)
    | Test(id: nat)
    | Mark(id: nat)
    | Commit(id: nat)
    | EndInsert(id: nat)
    | BeginInit(uri: Str)
    | InitUse(uri: Str, others: set<Str>)
    | InitRead(uri: Str)
    | InitStore(uri: Str)
    | EndInit(uri: Str)
    | Register(uri: Str)
    | Take
    | BeginLook(uri: Str)
    | LookUse(others: set<Str>)
    | LookRead
    | EndLook
    | Write(uri: Str)
    | Skip(uri: Str)
    | EndRefresh

  function NewLook(uri: Str): Look {
    Look(uri, Prefixes(uri, 0), false, map[])
  }

  predicate CanUse(l: Look) {
    l.left != [] && !l.added
  }

  predicate CanRead(l: Look) {
    l.left != [] && l.added
  }

  function Read(l: Look, db: Snap): Look
    requires CanRead(l)
  {
    Look(l.uri, l.left[1..], false, l.seen[l.left[0] := At(db, l.left[0])])
  }

  // The URI that the last read of a lookup leaves to be registered.
  function Registers(o: Order, l: Look): set<Str> {
    if o.registerFirst || |l.left| != 1 then {} else {l.uri}
  }

  // The steps of an insert.
  function InsertNext(o: Order, s: World, e: Event): Option<World> {
    match e
    case BeginInsert(id, writes, order) =>
      if id in s.inserts || writes.Keys != (set p | p in order) then None
      else Some(s.(inserts := s.inserts[id := Insertion(writes, order, false, false)]))
    case Test(id) =>
      if id !in s.inserts then None else
      var i := s.inserts[id];
      if i.todo == [] || i.marking || (o.commitFirst && !i.committed) then None
      else if i.todo[0] in s.filter then Some(s.(inserts := s.inserts[id := i.(marking := true)]))
      else Some(s.(inserts := s.inserts[id := i.(todo := i.todo[1..])]))
    case Mark(id) =>
      if id !in s.inserts then None else
      var i := s.inserts[id];
      if i.todo == [] || !i.marking then None
      else Some(s.(updated := s.updated + Dependents(s.deps, i.todo[0]),
                   inserts := s.inserts[id := i.(todo := i.todo[1..], marking := false)]))
    case Commit(id) =>
      if id !in s.inserts then None else
      var i := s.inserts[id];
      if i.committed || (!o.commitFirst && i.todo != []) then None
      else Some(s.(db := s.db + i.writes, inserts := s.inserts[id := i.(committed := true)]))
    case EndInsert(id) =>
      if id in s.inserts && s.inserts[id].committed && s.inserts[id].todo == []
      then Some(s.(inserts := s.inserts - {id})) else None
    case _ => None
  }

  // The steps of InitializeURI, and the late registration.
  function InitNext(o: Order, s: World, e: Event): Option<World> {
    match e
    case BeginInit(u) =>
      if u in s.starting then None
      else Some(s.(starting := s.starting[u := Starter(NewLook(u), false)],
                   deps := if o.registerFirst then s.deps + {u} else s.deps))
    case InitUse(u, others) =>
      if u !in s.starting || !CanUse(s.starting[u].look) then None else
      var l := s.starting[u].look;
      Some(s.(filter := s.filter + {l.left[0]} + others,
              starting := s.starting[u := Starter(l.(added := true), false)]))
    case InitRead(u) =>
      if u !in s.starting || !CanRead(s.starting[u].look) then None
      else Some(s.(starting := s.starting[u := Starter(Read(s.starting[u].look, s.db), false)],
                   registering := s.registering + Registers(o, s.starting[u].look)))
    case InitStore(u) =>
      if u !in s.starting || s.starting[u].stored || s.starting[u].look.left != [] then None else
      var l := s.starting[u].look;
      Some(s.(stored := s.stored[u := l.seen], starting := s.starting[u := Starter(l, true)]))
    case EndInit(u) =>
      if u !in s.starting || !s.starting[u].stored then None
      else Some(s.(starting := s.starting - {u}, updated := if o.initMarks then s.updated + {u} else s.updated))
    case Register(u) =>
      if u !in s.registering then None
      else Some(s.(deps := s.deps + {u}, registering := s.registering - {u}))
    case _ => None
  }

  // The steps of the refresh loop.
  function RefreshNext(o: Order, s: World, e: Event): Option<World> {
    match e
    case Take =>
      if s.active then None else Some(s.(active := true, todo := s.updated, updated := {}))
    case BeginLook(u) =>
      if s.current.Some? || u !in s.todo then None
      else Some(s.(todo := s.todo - {u}, current := Some(NewLook(u)),
                   deps := if o.registerFirst then s.deps + {u} else s.deps))
    case LookUse(others) =>
      if s.current.None? || !CanUse(s.current.value) then None else
      var l := s.current.value;
      Some(s.(filter := s.filter + {l.left[0]} + others, current := Some(l.(added := true))))
    case LookRead =>
      if s.current.None? || !CanRead(s.current.value) then None
      else Some(s.(current := Some(Read(s.current.value, s.db)),
                   registering := s.registering + Registers(o, s.current.value)))
    case EndLook =>
      if s.current.None? || s.current.value.left != [] then None else
      var l := s.current.value;
      Some(s.(got := s.got[l.uri := l.seen], current := None))
    case Write(u) =>
      if u !in s.got || u !in s.stored then None
      else Some(s.(stored := s.stored[u := s.got[u]], got := s.got - {u}))
    case Skip(u) =>
      if u !in s.got || u in s.stored then None else Some(s.(got := s.got - {u}))
    case EndRefresh =>
      if s.active && s.todo == {} && s.current.None? && s.got == map[] then Some(s.(active := false)) else None
    case _ => None
  }

  function Next(o: Order, s: World, e: Event): Option<World> {
    if e.BeginInsert? || e.Test? || e.Mark? || e.Commit? || e.EndInsert? then InsertNext(o, s, e)
    else if e.BeginInit? || e.InitUse? || e.InitRead? || e.InitStore? || e.EndInit? || e.Register? then
      InitNext(o, s, e)
    else RefreshNext(o, s, e)
  }

  // The world after a sequence of events, if they can happen one after the other.
  function After(o: Order, events: seq<Event>): Option<World> {
    if events == [] then Some(EMPTY) else
    var s := After(o, events[..|events| - 1]);
    if s.None? then None else Next(o, s.value, events[|events| - 1])
  }

  // Nothing is in flight.
  predicate Quiet(s: World) {
    s.inserts == map[] && s.starting == map[] && !s.active && s.registering == {}
  }

  predicate UpToDate(s: World) {
    forall u :: u in s.stored ==>
      u in s.updated || forall p :: p in Prefixes(u, 0) ==> p in s.stored[u] && s.stored[u][p] == At(s.db, p)
  }

  // Whenever nothing is in flight, every document is up to date or marked.
  ghost predicate Safe(o: Order) {
    forall events :: var s := After(o, events); s.Some? && Quiet(s.value) ==> UpToDate(s.value)
  }

  // ---- the invariant of the safe order ----

  // An insert that has written at q has yet to test and mark it.
  predicate Pending(s: World, q: Str) {
    exists id :: id in s.inserts && s.inserts[id].committed && q in s.inserts[id].todo
  }

  predicate Accounted(s: World, u: Str, q: Str) {
    u in s.updated || Pending(s, q)
  }

  // What was read for u is what there is now, or u is or will be marked.
  predicate SnapOk(s: World, u: Str, snap: Snap) {
    forall q :: q in snap ==> snap[q] == At(s.db, q) || Accounted(s, u, q)
  }

  predicate Visible(s: World, u: Str, snap: Snap) {
    u in s.deps && forall q :: q in snap ==> q in s.filter && q <= u
  }

  predicate LookOk(s: World, l: Look) {
    && Visible(s, l.uri, l.seen)
    && l.seen.Keys + (set q | q in l.left) == PrefixSet(l.uri)
    && (l.added ==> l.left != [] && l.left[0] in s.filter)
  }

  predicate Rereads(s: World, u: Str) {
    || u in s.todo || (s.current.Some? && s.current.value.uri == u) || u in s.got
    || (u in s.starting && s.starting[u].stored)
  }

  predicate StoredOk(s: World, u: Str) {
    u in s.stored && Visible(s, u, s.stored[u]) && s.stored[u].Keys == PrefixSet(u) &&
    (Rereads(s, u) || SnapOk(s, u, s.stored[u]))
  }

  predicate GotOk(s: World, u: Str) {
    u in s.got && Visible(s, u, s.got[u]) && s.got[u].Keys == PrefixSet(u) && SnapOk(s, u, s.got[u])
  }

  predicate StarterOk(s: World, u: Str) {
    u in s.starting && s.starting[u].look.uri == u && LookOk(s, s.starting[u].look)
    && (s.starting[u].stored ==> s.starting[u].look.left == [])
  }

  predicate InsertOk(i: Insertion) {
    !i.committed ==> !i.marking && forall p :: p in i.writes ==> p in i.todo
  }

  ghost predicate WorldOk(s: World) {
    && (forall u :: u in s.stored ==> StoredOk(s, u))
    && (forall u :: u in s.got ==> GotOk(s, u))
    && (forall u :: u in s.starting ==> StarterOk(s, u))
    && InsertsOk(s.inserts)
    && (s.current.Some? ==> LookOk(s, s.current.value) && SnapOk(s, s.current.value.uri, s.current.value.seen))
    && (!s.active ==> s.todo == {} && s.current.None? && s.got == map[])
  }

  const SAFE := Order(true, true, true)

  // The step changes nothing that was read without accounting for it.
  ghost predicate Keeps(s: World, s': World) {
    && s.deps <= s'.deps && s.filter <= s'.filter
    && forall u, q :: u in s.deps && q in s.filter && q <= u ==>
         && (At(s'.db, q) == At(s.db, q) || Accounted(s', u, q))
         && (Accounted(s, u, q) ==> Accounted(s', u, q))
  }

  lemma SnapKept(s: World, s': World, u: Str, snap: Snap)
    requires Keeps(s, s') && Visible(s, u, snap)
    ensures Visible(s', u, snap)
    ensures SnapOk(s, u, snap) ==> SnapOk(s', u, snap)
  {
    hide Accounted, At;
  }

  lemma LookKept(s: World, s': World, l: Look)
    requires Keeps(s, s') && LookOk(s, l)
    ensures LookOk(s', l) && (SnapOk(s, l.uri, l.seen) ==> SnapOk(s', l.uri, l.seen))
  {
    hide Accounted, At, SnapOk, PrefixSet;
    SnapKept(s, s', l.uri, l.seen);
  }

  // A step that touches neither documents nor lookups.
  lemma FrameOk(s: World, s': World)
    requires WorldOk(s) && Keeps(s, s')
    requires s'.stored == s.stored && s'.got == s.got && s'.starting == s.starting && s'.current == s.current
    requires s'.active == s.active && s'.todo == s.todo
    requires InsertsOk(s'.inserts)
    ensures WorldOk(s')
  {
    hide SnapOk, Visible, Keeps, LookOk, PrefixSet, InsertsOk;
    forall u | u in s'.stored
      ensures StoredOk(s', u)
    {
      assert StoredOk(s, u);
      SnapKept(s, s', u, s.stored[u]);
    }
    forall u | u in s'.got
      ensures GotOk(s', u)
    {
      assert GotOk(s, u);
      SnapKept(s, s', u, s.got[u]);
    }
    forall u | u in s'.starting
      ensures StarterOk(s', u)
    {
      assert StarterOk(s, u);
      LookKept(s, s', s.starting[u].look);
    }
    if s'.current.Some? {
      LookKept(s, s', s.current.value);
    }
  }

  lemma PendingKept(s: World, s': World, q: Str)
    requires forall id :: id in s.inserts && s.inserts[id].committed && q in s.inserts[id].todo ==>
               id in s'.inserts && s'.inserts[id].committed && q in s'.inserts[id].todo
    ensures Pending(s, q) ==> Pending(s', q)
  {
  }

  ghost predicate InsertsOk(inserts: map<nat, Insertion>) {
    forall id :: id in inserts ==> InsertOk(inserts[id])
  }

  // What Keeps asks of one URI and one prefix of it.
  predicate KeepsAt(s: World, s': World, u: Str, q: Str) {
    && (At(s'.db, q) == At(s.db, q) || Accounted(s', u, q))
    && (Accounted(s, u, q) ==> Accounted(s', u, q))
  }

  lemma TestKeeps(o: Order, s: World, id: nat, s': World, u: Str, q: Str)
    requires InsertNext(o, s, Test(id)) == Some(s') && q in s.filter
    ensures KeepsAt(s, s', u, q)
  {
    hide At, Pending;
    var i := s.inserts[id];
    var i' := if i.todo[0] in s.filter then i.(marking := true) else i.(todo := i.todo[1..]);
    assert s' == s.(inserts := s.inserts[id := i']);
    if q in i.todo {
      assert q == i.todo[0] || q in i.todo[1..];
      assert q in i'.todo;
    }
    PendingKept(s, s', q);
  }

  lemma MarkKeeps(o: Order, s: World, id: nat, s': World, u: Str, q: Str)
    requires InsertNext(o, s, Mark(id)) == Some(s') && u in s.deps && q <= u
    ensures KeepsAt(s, s', u, q)
  {
    if q != s.inserts[id].todo[0] {
      PendingKept(s, s', q);
    }
  }

  lemma CommitKeeps(s: World, id: nat, s': World, u: Str, q: Str)
    requires InsertNext(SAFE, s, Commit(id)) == Some(s') && InsertOk(s.inserts[id])
    ensures KeepsAt(s, s', u, q)
  {
    PendingKept(s, s', q);
    var i := s'.inserts[id];
    if q in i.writes {
      assert i.committed && q in i.todo;
    }
  }

  /** An insert accounts for whatever it changes: what was read stays fresh, or is or will be marked. */
  lemma InsertKeeps(s: World, e: Event, s': World)
    requires InsertsOk(s.inserts) && InsertNext(SAFE, s, e) == Some(s')
    ensures Keeps(s, s') && InsertsOk(s'.inserts)
  {
    hide KeepsAt, Dependents, At;
    forall u, q | u in s.deps && q in s.filter && q <= u
      ensures KeepsAt(s, s', u, q)
    {
      InsertKeepsAt(s, e, s', u, q);
    }
    KeepsEverywhere(s, s');
  }

  lemma InsertKeepsAt(s: World, e: Event, s': World, u: Str, q: Str)
    requires InsertsOk(s.inserts) && InsertNext(SAFE, s, e) == Some(s') && u in s.deps && q in s.filter && q <= u
    ensures KeepsAt(s, s', u, q)
  {
    hide KeepsAt, Dependents, At;
    match e
    case BeginInsert(_, _, _) => StillPending(s, s', u, q);
    case Test(id) => TestKeeps(SAFE, s, id, s', u, q);
    case Mark(id) => MarkKeeps(SAFE, s, id, s', u, q);
    case Commit(id) => CommitKeeps(s, id, s', u, q);
    case EndInsert(_) => StillPending(s, s', u, q);
  }

  lemma StillPending(s: World, s': World, u: Str, q: Str)
    requires s'.db == s.db && s'.updated == s.updated
    requires forall id :: id in s.inserts && s.inserts[id].todo != [] ==>
               id in s'.inserts && s'.inserts[id] == s.inserts[id]
    ensures KeepsAt(s, s', u, q)
  {
    PendingKept(s, s', q);
  }

  lemma KeepsEverywhere(s: World, s': World)
    requires s.deps <= s'.deps && s.filter <= s'.filter
    requires forall u, q :: u in s.deps && q in s.filter && q <= u ==> KeepsAt(s, s', u, q)
    ensures Keeps(s, s')
  {
    hide At, Accounted;
  }

  // A step that writes nothing to the store and takes no mark away.
  lemma CalmKeeps(s: World, s': World)
    requires s'.db == s.db && s'.inserts == s.inserts && s.updated <= s'.updated
    requires s.deps <= s'.deps && s.filter <= s'.filter
    ensures Keeps(s, s')
  {
  }

  // The parts of the invariant that a step does not touch.
  lemma StoredKept(s: World, s': World, u: Str)
    requires Keeps(s, s') && StoredOk(s, u)
    requires u in s'.stored && s'.stored[u] == s.stored[u]
    requires Rereads(s, u) ==> Rereads(s', u) || u in s'.updated
    ensures StoredOk(s', u)
  {
    hide Visible, Keeps, PrefixSet, Rereads;
    SnapKept(s, s', u, s.stored[u]);
  }

  lemma GotKept(s: World, s': World, u: Str)
    requires Keeps(s, s') && GotOk(s, u)
    requires u in s'.got && s'.got[u] == s.got[u]
    ensures GotOk(s', u)
  {
    hide SnapOk, Visible, Keeps, PrefixSet;
    SnapKept(s, s', u, s.got[u]);
  }

  lemma StarterKept(s: World, s': World, u: Str)
    requires Keeps(s, s') && StarterOk(s, u)
    requires u in s'.starting && s'.starting[u] == s.starting[u]
    ensures StarterOk(s', u)
  {
    hide LookOk, Keeps;
    LookKept(s, s', s.starting[u].look);
  }

  lemma NewLookOk(s: World, u: Str)
    requires u in s.deps
    ensures LookOk(s, NewLook(u)) && SnapOk(s, u, NewLook(u).seen)
  {
    hide Prefixes;
  }

  lemma UseOk(s: World, s': World, l: Look)
    requires LookOk(s, l) && CanUse(l) && Keeps(s, s') && l.left[0] in s'.filter
    ensures LookOk(s', l.(added := true))
    ensures SnapOk(s, l.uri, l.seen) ==> SnapOk(s', l.uri, l.seen)
  {
    hide PrefixSet, Keeps, Accounted;
    LookKept(s, s', l);
  }

  lemma ReadOk(s: World, l: Look)
    requires LookOk(s, l) && CanRead(l)
    ensures LookOk(s, Read(l, s.db))
    ensures SnapOk(s, l.uri, l.seen) ==> SnapOk(s, l.uri, Read(l, s.db).seen)
  {
    hide At, Accounted, Prefixes;
    var p, l' := l.left[0], Read(l, s.db);
    assert l.left == [p] + l.left[1..];
    assert p in PrefixSet(l.uri);
    PrefixesAre(l.uri, 0, p);
    assert l'.seen.Keys + (set q | q in l'.left) == l.seen.Keys + (set q | q in l.left);
  }

  // A step of InitializeURI changes one starter, and the store of documents for its URI.
  lemma InitOk(s: World, e: Event, s': World)
    requires WorldOk(s) && InitNext(SAFE, s, e) == Some(s')
    ensures WorldOk(s')
  {
    hide StoredOk, GotOk, StarterOk, LookOk, SnapOk, Keeps, InsertsOk, NewLook, Visible, PrefixSet, Read,
         CanRead, CanUse;
    CalmKeeps(s, s');
    if e.Register? {
      FrameOk(s, s');
    } else {
      var u := e.uri;
      assert u in s.starting ==> StarterOk(s, u);
      forall v | v in s'.starting
        ensures StarterOk(s', v)
      {
        if v == u {
          StarterStep(s, e, s');
        } else {
          StarterKept(s, s', v);
        }
      }
      forall v | v in s'.stored
        ensures StoredOk(s', v)
      {
        if v == u && e.InitStore? {
          StoreStep(s, u, s');
        } else {
          StillReread(s, e, s', v);
          StoredKept(s, s', v);
        }
      }
      forall v | v in s'.got
        ensures GotOk(s', v)
      {
        GotKept(s, s', v);
      }
      if s'.current.Some? {
        LookKept(s, s', s.current.value);
      }
    }
  }

  lemma StillReread(s: World, e: Event, s': World, v: Str)
    requires InitNext(SAFE, s, e) == Some(s') && (forall u :: u in s.starting ==> StarterOk(s, u))
    ensures Rereads(s, v) ==> Rereads(s', v) || v in s'.updated
  {
    hide LookOk, PrefixSet, Read, NewLook;
    assert v in s.starting ==> StarterOk(s, v);
  }

  lemma StarterStep(s: World, e: Event, s': World)
    requires InitNext(SAFE, s, e) == Some(s') && !e.Register? && !e.EndInit? && Keeps(s, s')
    requires e.uri in s.starting ==> StarterOk(s, e.uri)
    ensures StarterOk(s', e.uri)
  {
    hide SnapOk, Keeps, PrefixSet, LookOk, CanRead, CanUse;
    match e
    case BeginInit(u) => NewLookOk(s', u);
    case InitUse(u, _) => UseOk(s, s', s.starting[u].look);
    case InitRead(u) =>
      ReadOk(s, s.starting[u].look);
      LookKept(s, s', Read(s.starting[u].look, s.db));
    case InitStore(u) => LookKept(s, s', s.starting[u].look);
  }

  lemma StoreStep(s: World, u: Str, s': World)
    requires InitNext(SAFE, s, InitStore(u)) == Some(s') && StarterOk(s, u)
    ensures StoredOk(s', u)
  {
    hide SnapOk, Prefixes;
  }

  // Taking the dirty set turns its marks into documents to read again.
  lemma TakeOk(s: World, s': World)
    requires WorldOk(s) && RefreshNext(SAFE, s, Take) == Some(s')
    ensures WorldOk(s')
  {
    hide PrefixSet, At, InsertsOk;
    PendingSame(s, s');
    forall u | u in s'.stored
      ensures StoredOk(s', u)
    {
      assert StoredOk(s, u);
    }
    forall u | u in s'.starting
      ensures StarterOk(s', u)
    {
      assert StarterOk(s, u);
    }
  }

  lemma PendingSame(s: World, s': World)
    requires s'.inserts == s.inserts
    ensures forall q :: Pending(s', q) <==> Pending(s, q)
  {
  }

  // Every other step of the refresh loop changes one lookup, or one document it has read for.
  lemma RefreshOk(s: World, e: Event, s': World)
    requires WorldOk(s) && RefreshNext(SAFE, s, e) == Some(s')
    ensures WorldOk(s')
  {
    hide StoredOk, GotOk, StarterOk, LookOk, SnapOk, Keeps, InsertsOk, NewLook, Visible, PrefixSet, Read,
         CanRead, CanUse;
    if e.Take? {
      TakeOk(s, s');
    } else {
      CalmKeeps(s, s');
      forall u | u in s'.stored
        ensures StoredOk(s', u)
      {
        if e.Write? && u == e.uri {
          assert GotOk(s, u);
          WriteStep(s, u, s');
        } else {
          StillLooked(s, e, s', u);
          StoredKept(s, s', u);
        }
      }
      forall u | u in s'.got
        ensures GotOk(s', u)
      {
        if e.EndLook? && u == s.current.value.uri {
          GotStep(s, s');
        } else {
          GotKept(s, s', u);
        }
      }
      forall u | u in s'.starting
        ensures StarterOk(s', u)
      {
        StarterKept(s, s', u);
      }
      if s'.current.Some? {
        CurrentStep(s, e, s');
      }
    }
  }

  lemma StillLooked(s: World, e: Event, s': World, u: Str)
    requires RefreshNext(SAFE, s, e) == Some(s') && !e.Take? && u in s.stored && !(e.Write? && u == e.uri)
    ensures Rereads(s, u) ==> Rereads(s', u)
  {
  }

  lemma WriteStep(s: World, u: Str, s': World)
    requires RefreshNext(SAFE, s, Write(u)) == Some(s') && GotOk(s, u) && Keeps(s, s')
    ensures StoredOk(s', u)
  {
    hide SnapOk, Visible, PrefixSet, Keeps, Rereads;
    SnapKept(s, s', u, s.got[u]);
  }

  lemma GotStep(s: World, s': World)
    requires RefreshNext(SAFE, s, EndLook) == Some(s') && Keeps(s, s')
    requires LookOk(s, s.current.value) && SnapOk(s, s.current.value.uri, s.current.value.seen)
    ensures GotOk(s', s.current.value.uri)
  {
    hide SnapOk, Visible, PrefixSet, Keeps;
    SnapKept(s, s', s.current.value.uri, s.current.value.seen);
    assert (set q: Str | q in []) == {};
  }

  lemma CurrentStep(s: World, e: Event, s': World)
    requires RefreshNext(SAFE, s, e) == Some(s') && !e.Take? && Keeps(s, s') && s'.current.Some?
    requires s.current.Some? ==> LookOk(s, s.current.value) && SnapOk(s, s.current.value.uri, s.current.value.seen)
    ensures LookOk(s', s'.current.value) && SnapOk(s', s'.current.value.uri, s'.current.value.seen)
  {
    hide SnapOk, Keeps, PrefixSet, LookOk, CanRead, CanUse;
    if e.BeginLook? {
      NewLookOk(s', e.uri);
    } else if e.LookUse? {
      UseOk(s, s', s.current.value);
    } else if e.LookRead? {
      ReadOk(s, s.current.value);
      LookKept(s, s', Read(s.current.value, s.db));
    } else {
      LookKept(s, s', s.current.value);
    }
  }

  lemma NextOk(s: World, e: Event, s': World)
    requires WorldOk(s) && Next(SAFE, s, e) == Some(s')
    ensures WorldOk(s')
  {
    hide WorldOk, InsertNext, InitNext, RefreshNext;
    if e.BeginInsert? || e.Test? || e.Mark? || e.Commit? || e.EndInsert? {
      InsertFrame(s, e, s');
    } else if e.BeginInit? || e.InitUse? || e.InitRead? || e.InitStore? || e.EndInit? || e.Register? {
      InitOk(s, e, s');
    } else {
      RefreshOk(s, e, s');
    }
  }

  lemma InsertFrame(s: World, e: Event, s': World)
    requires WorldOk(s) && InsertNext(SAFE, s, e) == Some(s')
    ensures WorldOk(s')
  {
    hide StoredOk, GotOk, StarterOk, LookOk, SnapOk, Keeps, InsertsOk, Dependents;
    InsertKeeps(s, e, s');
    FrameOk(s, s');
  }

  /** The invariant holds in every reachable world of the safe order. */
  lemma {:induction false} ReachableOk(events: seq<Event>)
    requires After(SAFE, events).Some?
    ensures WorldOk(After(SAFE, events).value)
  {
    hide Next;
    if events != [] {
      ReachableOk(events[..|events| - 1]);
      NextOk(After(SAFE, events[..|events| - 1]).value, events[|events| - 1], After(SAFE, events).value);
    }
  }

  lemma QuietFresh(s: World)
    requires WorldOk(s) && Quiet(s)
    ensures UpToDate(s)
  {
    hide Visible, At;
    forall u | u in s.stored && u !in s.updated
      ensures forall p :: p in Prefixes(u, 0) ==> p in s.stored[u] && s.stored[u][p] == At(s.db, p)
    {
      assert StoredOk(s, u);
      forall p | p in Prefixes(u, 0)
        ensures p in s.stored[u] && s.stored[u][p] == At(s.db, p)
      {
        assert p in PrefixSet(u);
      }
    }
  }

  /** Committing before marking, registering before reading and marking after initialising are enough. */
  lemma SafeOrder()
    ensures Safe(SAFE)
  {
    hide After, WorldOk, UpToDate, Quiet;
    forall events | After(SAFE, events).Some? && Quiet(After(SAFE, events).value)
      ensures UpToDate(After(SAFE, events).value)
    {
      ReachableOk(events);
      QuietFresh(After(SAFE, events).value);
    }
  }

  // ---- the hazards ----

  // A URI of one element, and a document to write there.
  const A: Str := [97]
  const NEWS: Doc := map[A := A]

  // One more event.
  lemma Go(o: Order, events: seq<Event>, s: World, e: Event) returns (events': seq<Event>, s': World)
    requires After(o, events) == Some(s) && Next(o, s, e).Some?
    ensures events' == events + [e] && s' == Next(o, s, e).value && After(o, events') == Some(s')
  {
    hide Next;
    events', s' := events + [e], Next(o, s, e).value;
    assert events'[..|events'| - 1] == events;
  }

  lemma OnePrefix()
    ensures Prefixes(A, 0) == [A] && A[..|A|] == A
  {
    assert Prefixes(A, 1) == [A] && A[0] != SLASH;
  }

  lemma Unlucky(o: Order, events: seq<Event>, s: World)
    requires After(o, events) == Some(s) && Quiet(s) && !UpToDate(s)
    ensures !Safe(o)
  {
  }

  // A look of one prefix, before, between and after its two steps.
  function LookBegun(): Look { Look(A, [A], false, map[]) }

  function LookUsed(): Look { Look(A, [A], true, map[]) }

  function Looked(db: Snap): Look { Look(A, [], false, map[A := At(db, A)]) }

  lemma ReadIs(db: Snap)
    ensures Read(LookUsed(), db) == Looked(db)
  {
    hide At;
    assert [A][1..] == [];
    assert map[][A := At(db, A)] == map[A := At(db, A)];
  }

  // The stream at A starts to be initialised, up to the point where its document would be stored.
  lemma Started(o: Order, events: seq<Event>, s: World) returns (events': seq<Event>, s': World)
    requires After(o, events) == Some(s) && s.starting == map[]
    ensures After(o, events') == Some(s')
    ensures s' == s.(starting := map[A := Starter(Looked(s.db), false)], filter := s.filter + {A},
                     deps := if o.registerFirst then s.deps + {A} else s.deps,
                     registering := if o.registerFirst then s.registering else s.registering + {A})
  {
    hide After, At, InsertNext, RefreshNext;
    OnePrefix();
    var es, t := Go(o, events, s, BeginInit(A));
    assert t.starting == map[A := Starter(LookBegun(), false)];
    es, t := Go(o, es, t, InitUse(A, {}));
    assert t.starting == map[A := Starter(LookUsed(), false)] && t.filter == s.filter + {A};
    ReadIs(s.db);
    es, t := Go(o, es, t, InitRead(A));
    assert t.starting == map[A := Starter(Looked(s.db), false)];
    return es, t;
  }

  // The initialisation goes on, with what was read earlier.
  lemma Finished(o: Order, events: seq<Event>, s: World, was: Snap) returns (events': seq<Event>, s': World)
    requires After(o, events) == Some(s) && s.starting == map[A := Starter(Looked(was), false)]
    ensures After(o, events') == Some(s')
    ensures s' == s.(starting := map[], stored := s.stored[A := map[A := At(was, A)]],
                     updated := if o.initMarks then s.updated + {A} else s.updated)
  {
    hide After, At, InsertNext, RefreshNext;
    var es, t := Go(o, events, s, InitStore(A));
    assert t.starting[A] == Starter(Looked(was), true);
    es, t := Go(o, es, t, EndInit(A));
    assert t.starting == map[];
    return es, t;
  }

  // A turn of the refresh loop takes the mark of A and looks A up.
  lemma LookedUp(o: Order, events: seq<Event>, s: World) returns (events': seq<Event>, s': World)
    requires After(o, events) == Some(s)
    requires !s.active && s.current == None && s.got == map[] && s.updated == {A}
    ensures After(o, events') == Some(s')
    ensures s' == s.(updated := {}, filter := s.filter + {A}, active := true, todo := {},
                     got := map[A := map[A := At(s.db, A)]],
                     deps := if o.registerFirst then s.deps + {A} else s.deps,
                     registering := if o.registerFirst then s.registering else s.registering + {A})
  {
    hide After, At, InsertNext, InitNext;
    OnePrefix();
    ReadIs(s.db);
    var es, t := Go(o, events, s, Take);
    es, t := Go(o, es, t, BeginLook(A));
    assert t.todo == {} && t.current == Some(LookBegun());
    es, t := Go(o, es, t, LookUse({}));
    assert t.current == Some(LookUsed()) && t.filter == s.filter + {A};
    es, t := Go(o, es, t, LookRead);
    assert t.current == Some(Looked(s.db));
    es, t := Go(o, es, t, EndLook);
    assert t.got == map[A := map[A := At(s.db, A)]];
    return es, t;
  }

  // A whole turn of the refresh loop for A; there may be no document to write yet.
  lemma Refreshed(o: Order, events: seq<Event>, s: World) returns (events': seq<Event>, s': World)
    requires After(o, events) == Some(s)
    requires !s.active && s.todo == {} && s.current == None && s.got == map[] && s.updated == {A}
    ensures After(o, events') == Some(s')
    ensures s' == s.(updated := {}, filter := s.filter + {A},
                     stored := if A in s.stored then s.stored[A := map[A := At(s.db, A)]] else s.stored,
                     deps := if o.registerFirst then s.deps + {A} else s.deps,
                     registering := if o.registerFirst then s.registering else s.registering + {A})
  {
    hide After, At, InsertNext, InitNext;
    var es, t := LookedUp(o, events, s);
    if A in s.stored {
      es, t := Go(o, es, t, Write(A));
    } else {
      es, t := Go(o, es, t, Skip(A));
    }
    assert t.got == map[];
    es, t := Go(o, es, t, EndRefresh);
    return es, t;
  }

  // The insert that puts NEWS at A.
  function Putting(todo: seq<Str>, committed: bool): Insertion {
    Insertion(map[A := NEWS], todo, false, committed)
  }

  lemma Begins(o: Order, events: seq<Event>, s: World) returns (events': seq<Event>, s': World)
    requires After(o, events) == Some(s) && s.inserts == map[]
    ensures After(o, events') == Some(s') && s' == s.(inserts := map[0 := Putting([A], false)])
  {
    hide After, InitNext, RefreshNext;
    assert (set p | p in [A]) == {A};
    events', s' := Go(o, events, s, BeginInsert(0, map[A := NEWS], [A]));
    assert s'.inserts == map[0 := Putting([A], false)];
  }

  lemma Commits(o: Order, events: seq<Event>, s: World, todo: seq<Str>) returns (events': seq<Event>, s': World)
    requires After(o, events) == Some(s) && s.inserts == map[0 := Putting(todo, false)]
    requires o.commitFirst || todo == []
    ensures After(o, events') == Some(s')
    ensures s' == s.(db := s.db + map[A := NEWS], inserts := map[0 := Putting(todo, true)])
  {
    hide After, InitNext, RefreshNext;
    events', s' := Go(o, events, s, Commit(0));
    assert s'.inserts == map[0 := Putting(todo, true)];
  }

  lemma Ends(o: Order, events: seq<Event>, s: World) returns (events': seq<Event>, s': World)
    requires After(o, events) == Some(s) && s.inserts == map[0 := Putting([], true)]
    ensures After(o, events') == Some(s') && s' == s.(inserts := map[])
  {
    hide After, InitNext, RefreshNext;
    events', s' := Go(o, events, s, EndInsert(0));
    assert s'.inserts == map[];
  }

  // A test that succeeds and the mark after it.
  lemma Marks(o: Order, events: seq<Event>, s: World, committed: bool) returns (events': seq<Event>, s': World)
    requires After(o, events) == Some(s) && s.inserts == map[0 := Putting([A], committed)] && A in s.filter
    requires o.commitFirst ==> committed
    ensures After(o, events') == Some(s')
    ensures s' == s.(inserts := map[0 := Putting([], committed)], updated := s.updated + Dependents(s.deps, A))
  {
    hide After, Dependents, InitNext, RefreshNext;
    var es, t := Go(o, events, s, Test(0));
    assert t.inserts == map[0 := Putting([A], committed).(marking := true)];
    es, t := Go(o, es, t, Mark(0));
    assert [A][1..] == [];
    assert t.inserts == map[0 := Putting([], committed)];
    return es, t;
  }

  // A test before A is in the filter.
  lemma Misses(o: Order, events: seq<Event>, s: World) returns (events': seq<Event>, s': World)
    requires After(o, events) == Some(s) && s.inserts == map[0 := Putting([A], false)] && A !in s.filter &&
             !o.commitFirst
    ensures After(o, events') == Some(s') && s' == s.(inserts := map[0 := Putting([], false)])
  {
    hide After, InitNext, RefreshNext;
    events', s' := Go(o, events, s, Test(0));
    assert [A][1..] == [];
    assert s'.inserts == map[0 := Putting([], false)];
  }

  // A whole insert at A, in either order, once A is in the filter.
  lemma Insert(o: Order, events: seq<Event>, s: World) returns (events': seq<Event>, s': World)
    requires After(o, events) == Some(s) && s.inserts == map[] && A in s.filter
    ensures After(o, events') == Some(s')
    ensures s' == s.(db := s.db + map[A := NEWS], updated := s.updated + Dependents(s.deps, A))
  {
    hide After, At, Dependents, Putting, Next;
    var es, t := Begins(o, events, s);
    if o.commitFirst {
      es, t := Commits(o, es, t, [A]);
      es, t := Marks(o, es, t, true);
    } else {
      es, t := Marks(o, es, t, false);
      es, t := Commits(o, es, t, []);
    }
    es, t := Ends(o, es, t);
    return es, t;
  }

  lemma Registered(o: Order, events: seq<Event>, s: World) returns (events': seq<Event>, s': World)
    requires After(o, events) == Some(s) && s.registering <= {A}
    ensures After(o, events') == Some(s')
    ensures s' == s.(deps := s.deps + s.registering, registering := {})
  {
    hide After, InsertNext, RefreshNext;
    if A in s.registering {
      events', s' := Go(o, events, s, Register(A));
    } else {
      events', s' := events, s;
    }
  }

  // What an insert leaves at A differs from what was read there before it.
  lemma NewsIsNews()
    ensures At(map[A := NEWS], A) == NEWS && At(map[], A) == map[] && NEWS != map[]
  {
    assert A in NEWS;
  }

  /** Marking before committing: a document that is read between the two is stale and not marked. */
  lemma CommitHazard(o: Order)
    requires !o.commitFirst
    ensures !Safe(o)
  {
    hide After, At, Putting, Next, Safe;
    AfterNothing(o);
    var es, t := Begins(o, [], EMPTY);
    es, t := Misses(o, es, t);
    es, t := Started(o, es, t);
    es, t := Finished(o, es, t, map[]);
    if o.initMarks {
      es, t := Refreshed(o, es, t);
    }
    es, t := Commits(o, es, t, []);
    es, t := Ends(o, es, t);
    es, t := Registered(o, es, t);
    Stale(o, es, t);
  }

  lemma Stale(o: Order, events: seq<Event>, s: World)
    requires After(o, events) == Some(s) && Quiet(s) && A !in s.updated
    requires A in s.stored && s.stored[A] == map[A := At(map[], A)] && s.db == map[A := NEWS]
    ensures !Safe(o)
  {
    hide After;
    OnePrefix();
    NewsIsNews();
    assert A in Prefixes(A, 0);
    Unlucky(o, events, s);
  }

  /** Registering after reading: an insert in between does not find the document to mark. */
  lemma RegisterHazard(o: Order)
    requires !o.registerFirst
    ensures !Safe(o)
  {
    hide After, At, Next, Safe;
    AfterNothing(o);
    var es, t := Started(o, [], EMPTY);
    es, t := Finished(o, es, t, map[]);
    if o.initMarks {
      es, t := Refreshed(o, es, t);
    }
    es, t := Insert(o, es, t);
    assert Dependents({}, A) == {};
    es, t := Registered(o, es, t);
    Stale(o, es, t);
  }

  lemma AfterNothing(o: Order)
    ensures After(o, []) == Some(EMPTY)
  {
  }

  /** Storing a document unmarked: a refresh between its lookup and its storing uses up the mark. */
  lemma InitHazard(o: Order)
    requires !o.initMarks
    ensures !Safe(o)
  {
    hide After, At, Next, Safe;
    AfterNothing(o);
    var es, t := Started(o, [], EMPTY);
    es, t := Registered(o, es, t);
    es, t := Insert(o, es, t);
    assert Dependents({A}, A) == {A};
    es, t := Refreshed(o, es, t);
    es, t := Finished(o, es, t, map[]);
    es, t := Registered(o, es, t);
    Stale(o, es, t);
  }

  /** The three choices are exactly what it takes, one by one. */
  lemma SafeExact(o: Order)
    ensures Safe(o) <==> o.commitFirst && o.registerFirst && o.initMarks
  {
    hide Safe;
    if !o.commitFirst {
      CommitHazard(o);
    } else if !o.registerFirst {
      RegisterHazard(o);
    } else if !o.initMarks {
      InitHazard(o);
    } else {
      SafeOrder();
    }
  }

  // ---- what a snapshot stands for ----

  // The document that a lookup makes of what it read.
  function DocOf(snap: Snap, ps: seq<Str>, doc: Doc): Doc {
    if ps == [] then doc else DocOf(snap, ps[1..], doc + At(snap, ps[0]))
  }

  /** A snapshot that is fresh at every prefix makes the document of a lookup done now. */
  lemma {:induction false} FreshIsLookup(snap: Snap, db: seq<Record>, ps: seq<Str>, doc: Doc)
    requires forall p :: p in ps ==> p in snap && snap[p] == PrefixDoc(db, p)
    ensures DocOf(snap, ps, doc) == Accumulate(db, ps, doc)
  {
    if ps != [] {
      FoldOver(Scan(db, ps[0]), doc);
      assert ps[0] in ps;
      FreshIsLookup(snap, db, ps[1..], doc + snap[ps[0]]);
    }
  }
}
