/**
 Runs of the metadata view in which inserts stay apart from lookups.  Whatever the order of the steps, the
 program's own included (see ViewRaces), such a run keeps every document up to date or marked: no insert
 is in flight while a stream is initialised, the refresh loop turns, or a URI is still to be registered.
 Inserts may overlap each other, and so may initialisations and refreshes.
 */
module ViewApart {
  import opened Wrappers
  import opened Bytes
  import opened PrefixDb
  import opened ViewRaces
  import MetadataView

  predicate Apart(s: World) {
    s.inserts != map[] ==> s.starting == map[] && !s.active && s.registering == {}
  }

  // ---- the invariant ----

  // What was read is what there is now.
  predicate Fresh(s: World, snap: Snap) {
    forall q :: q in snap ==> snap[q] == At(s.db, q)
  }

  predicate InFilter(s: World, u: Str, snap: Snap) {
    forall q :: q in snap ==> q in s.filter && q <= u
  }

  // The URI is registered, or will be.
  predicate Listed(s: World, u: Str) {
    u in s.deps + s.registering
  }

  predicate LookFits(o: Order, s: World, l: Look) {
    && InFilter(s, l.uri, l.seen) && Fresh(s, l.seen)
    && l.seen.Keys + (set q | q in l.left) == MetadataView.PrefixSet(l.uri)
    && (l.added ==> l.left != [] && l.left[0] in s.filter)
    && (o.registerFirst || l.left == [] ==> Listed(s, l.uri))
  }

  // The snapshot of a whole lookup.
  predicate Whole(s: World, u: Str, snap: Snap) {
    InFilter(s, u, snap) && snap.Keys == MetadataView.PrefixSet(u) && Listed(s, u)
  }

  // The refresh loop is going to write the document of u, or to skip it.
  predicate Again(s: World, u: Str) {
    u in s.todo || (s.current.Some? && s.current.value.uri == u) || u in s.got
  }

  predicate StoredFits(s: World, u: Str) {
    u in s.stored && Whole(s, u, s.stored[u]) && (Again(s, u) || SnapOk(s, u, s.stored[u]))
  }

  predicate GotFits(s: World, u: Str) {
    u in s.got && Whole(s, u, s.got[u]) && Fresh(s, s.got[u])
  }

  predicate StarterFits(o: Order, s: World, u: Str) {
    && u in s.starting && s.starting[u].look.uri == u && LookFits(o, s, s.starting[u].look)
    && (s.starting[u].stored ==> s.starting[u].look.left == [])
  }

  // Everything that an insert at q affects is marked.
  predicate AllMarked(s: World, q: Str) {
    forall u :: u in s.deps && q in s.filter && q <= u ==> u in s.updated
  }

  predicate InsertFits(s: World, i: Insertion) {
    forall q :: q in i.writes ==> q in i.todo || AllMarked(s, q)
  }

  ghost predicate AllFit(s: World) {
    forall id :: id in s.inserts ==> InsertFits(s, s.inserts[id])
  }

  ghost predicate WorldFits(o: Order, s: World) {
    && (forall u :: u in s.stored ==> StoredFits(s, u))
    && (forall u :: u in s.got ==> GotFits(s, u))
    && (forall u :: u in s.starting ==> StarterFits(o, s, u))
    && AllFit(s)
    && (s.current.Some? ==> LookFits(o, s, s.current.value))
    && (!s.active ==> s.todo == {} && s.current.None? && s.got == map[])
  }

  // ---- the steps of inserts, with nothing else in flight ----

  // What is marked stays marked, and so do the other inserts.
  lemma InsertStays(s: World, s': World, i: Insertion)
    requires InsertFits(s, i) && s'.deps == s.deps && s'.filter == s.filter && s.updated <= s'.updated
    ensures InsertFits(s', i)
  {
    assert forall q :: AllMarked(s, q) ==> AllMarked(s', q);
  }

  // An insert that has dealt with its first prefix, everything there being marked.
  lemma InsertMoves(s: World, i: Insertion)
    requires InsertFits(s, i) && i.todo != [] && AllMarked(s, i.todo[0])
    ensures InsertFits(s, i.(todo := i.todo[1..], marking := false))
  {
    hide AllMarked;
    assert i.todo == [i.todo[0]] + i.todo[1..];
  }

  lemma SameFits(s: World, i: Insertion, i': Insertion)
    requires InsertFits(s, i) && i'.writes == i.writes && i'.todo == i.todo
    ensures InsertFits(s, i')
  {
    hide AllMarked;
  }

  lemma NewFits(s: World, i: Insertion)
    requires i.writes.Keys == set p | p in i.todo
    ensures InsertFits(s, i)
  {
    hide AllMarked;
  }

  // A step of one insert, which fits after it as it did before, leaves the others as they fit.
  lemma OneInsert(s: World, s': World, id: nat)
    requires AllFit(s) && s'.deps == s.deps && s'.filter == s.filter && s.updated <= s'.updated
    requires s'.inserts.Keys == s.inserts.Keys + {id}
    requires forall j :: j in s.inserts && j != id ==> s'.inserts[j] == s.inserts[j]
    requires id in s.inserts && InsertFits(s', s.inserts[id]) ==> InsertFits(s', s'.inserts[id])
    requires id !in s.inserts ==> InsertFits(s', s'.inserts[id])
    ensures AllFit(s')
  {
    hide InsertFits;
    forall j | j in s'.inserts
      ensures InsertFits(s', s'.inserts[j])
    {
      if j in s.inserts {
        InsertStays(s, s', s.inserts[j]);
      }
    }
  }

  lemma BeginFits(o: Order, s: World, id: nat, writes: Snap, order: seq<Str>, s': World)
    requires InsertNext(o, s, BeginInsert(id, writes, order)) == Some(s') && AllFit(s)
    ensures AllFit(s')
  {
    hide InsertFits, AllFit;
    NewFits(s', s'.inserts[id]);
    OneInsert(s, s', id);
  }

  lemma TestFits(o: Order, s: World, id: nat, s': World)
    requires InsertNext(o, s, Test(id)) == Some(s') && AllFit(s)
    ensures AllFit(s')
  {
    hide InsertFits, AllFit;
    var i := s.inserts[id];
    if InsertFits(s', i) {
      if i.todo[0] in s.filter {
        SameFits(s', i, s'.inserts[id]);
      } else {
        InsertMoves(s', i);
      }
    }
    OneInsert(s, s', id);
  }

  lemma MarkFits(o: Order, s: World, id: nat, s': World)
    requires InsertNext(o, s, Mark(id)) == Some(s') && AllFit(s)
    ensures AllFit(s')
  {
    hide InsertFits, AllFit;
    if InsertFits(s', s.inserts[id]) {
      InsertMoves(s', s.inserts[id]);
    }
    OneInsert(s, s', id);
  }

  lemma CommitFits(o: Order, s: World, id: nat, s': World)
    requires InsertNext(o, s, Commit(id)) == Some(s') && AllFit(s)
    ensures AllFit(s')
  {
    hide InsertFits, AllFit;
    if InsertFits(s', s.inserts[id]) {
      SameFits(s', s.inserts[id], s'.inserts[id]);
    }
    OneInsert(s, s', id);
  }

  lemma EndFits(o: Order, s: World, id: nat, s': World)
    requires InsertNext(o, s, EndInsert(id)) == Some(s') && AllFit(s)
    ensures AllFit(s')
  {
    hide InsertFits;
    forall j | j in s'.inserts
      ensures InsertFits(s', s'.inserts[j])
    {
      InsertStays(s, s', s.inserts[j]);
    }
  }

  lemma InsertsFit(o: Order, s: World, e: Event, s': World)
    requires InsertNext(o, s, e) == Some(s') && AllFit(s)
    ensures AllFit(s')
  {
    hide AllFit;
    match e
    case BeginInsert(id, writes, order) => BeginFits(o, s, id, writes, order, s');
    case Test(id) => TestFits(o, s, id, s');
    case Mark(id) => MarkFits(o, s, id, s');
    case Commit(id) => CommitFits(o, s, id, s');
    case EndInsert(id) => EndFits(o, s, id, s');
  }

  lemma CommitKeepsApart(o: Order, s: World, id: nat, s': World, u: Str, q: Str)
    requires InsertNext(o, s, Commit(id)) == Some(s') && InsertFits(s, s.inserts[id])
    requires u in s.deps && q in s.filter && q <= u
    ensures KeepsAt(s, s', u, q)
  {
    PendingKept(s, s', q);
    var i := s'.inserts[id];
    if q in i.writes {
      assert i.committed && (q in i.todo || AllMarked(s, q));
    }
  }

  lemma InsertKeepsApart(o: Order, s: World, e: Event, s': World, u: Str, q: Str)
    requires InsertNext(o, s, e) == Some(s') && u in s.deps && q in s.filter && q <= u
    requires AllFit(s)
    ensures KeepsAt(s, s', u, q)
  {
    hide KeepsAt, MetadataView.Dependents, At, InsertFits;
    match e
    case BeginInsert(_, _, _) => StillPending(s, s', u, q);
    case Test(id) => TestKeeps(o, s, id, s', u, q);
    case Mark(id) => MarkKeeps(o, s, id, s', u, q);
    case Commit(id) => CommitKeepsApart(o, s, id, s', u, q);
    case EndInsert(_) => StillPending(s, s', u, q);
  }

  lemma InsertStep(o: Order, s: World, e: Event, s': World)
    requires WorldFits(o, s) && Apart(s) && Apart(s') && InsertNext(o, s, e) == Some(s')
    ensures WorldFits(o, s')
  {
    hide KeepsAt, MetadataView.Dependents, MetadataView.PrefixSet, At, InsertFits, AllMarked, LookFits;
    InsertFrameIs(o, s, e, s');
    InsertsFit(o, s, e, s');
    forall u | u in s'.stored
      ensures StoredFits(s', u)
    {
      assert StoredFits(s, u);
      forall q | q in s.stored[u]
        ensures KeepsAt(s, s', u, q)
      {
        InsertKeepsApart(o, s, e, s', u, q);
      }
      SnapKeptAt(s, s', u, s.stored[u]);
    }
  }

  lemma SnapKeptAt(s: World, s': World, u: Str, snap: Snap)
    requires SnapOk(s, u, snap) && forall q :: q in snap ==> KeepsAt(s, s', u, q)
    ensures SnapOk(s', u, snap)
  {
    hide Accounted, At;
  }

  lemma InsertFrameIs(o: Order, s: World, e: Event, s': World)
    requires WorldFits(o, s) && Apart(s) && Apart(s') && InsertNext(o, s, e) == Some(s')
    ensures s'.stored == s.stored && s'.filter == s.filter && s'.deps == s.deps && s'.registering == s.registering
    ensures s.registering == {} && s'.starting == s.starting == map[]
    ensures !s.active && !s'.active && s'.todo == s.todo == {} && s'.current == s.current == None
    ensures s'.got == s.got == map[]
  {
    hide StoredFits, InsertFits, AllMarked, MetadataView.Dependents;
  }

  // ---- the steps of lookups, with no insert in flight ----

  // Nothing is lost that a lookup relies on.
  predicate Grows(s: World, s': World) {
    s'.db == s.db && s.filter <= s'.filter && s.deps + s.registering <= s'.deps + s'.registering
  }

  lemma LookGrows(o: Order, s: World, s': World, l: Look)
    requires Grows(s, s') && LookFits(o, s, l)
    ensures LookFits(o, s', l)
  {
    hide MetadataView.PrefixSet, At;
  }

  lemma WholeGrows(s: World, s': World, u: Str, snap: Snap)
    requires Grows(s, s') && Whole(s, u, snap)
    ensures Whole(s', u, snap) && (Fresh(s, snap) ==> Fresh(s', snap))
  {
    hide MetadataView.PrefixSet, At;
  }

  lemma NewLookFits(o: Order, s: World, u: Str)
    requires o.registerFirst ==> u in s.deps
    ensures LookFits(o, s, NewLook(u))
  {
    NoneLeftEmpty(u);
    hide Prefixes;
  }

  lemma NoneLeftEmpty(u: Str)
    ensures Prefixes(u, 0) != []
  {
    PrefixesAre(u, 0, u);
  }

  lemma UseFits(o: Order, s: World, l: Look)
    requires LookFits(o, s, l) && CanUse(l) && l.left[0] in s.filter
    ensures LookFits(o, s, l.(added := true))
  {
    hide MetadataView.PrefixSet;
  }

  lemma ReadFits(o: Order, s: World, s': World, l: Look)
    requires LookFits(o, s, l) && CanRead(l) && Grows(s, s')
    requires s'.registering == s.registering + Registers(o, l)
    ensures LookFits(o, s', Read(l, s.db))
  {
    hide At, Prefixes;
    var p, l' := l.left[0], Read(l, s.db);
    assert l.left == [p] + l.left[1..];
    assert p in MetadataView.PrefixSet(l.uri);
    PrefixesAre(l.uri, 0, p);
    assert l'.seen.Keys + (set q | q in l'.left) == l.seen.Keys + (set q | q in l.left);
  }

  lemma LookWhole(o: Order, s: World, l: Look)
    requires LookFits(o, s, l) && l.left == []
    ensures Whole(s, l.uri, l.seen) && Fresh(s, l.seen)
  {
    hide MetadataView.PrefixSet, At;
    assert (set q: Str | q in []) == {};
  }

  lemma FreshSnapOk(s: World, u: Str, snap: Snap)
    requires Fresh(s, snap)
    ensures SnapOk(s, u, snap)
  {
    hide At, Accounted;
  }

  // With no insert in flight a snapshot is fresh, or its URI marked.
  lemma NoInsert(s: World, u: Str, snap: Snap)
    requires s.inserts == map[] && SnapOk(s, u, snap)
    ensures u in s.updated || Fresh(s, snap)
  {
    hide At;
  }

  lemma StoredStays(s: World, s': World, u: Str)
    requires StoredFits(s, u) && Grows(s, s') && s.inserts == map[]
    requires u in s'.stored && s'.stored[u] == s.stored[u]
    requires Again(s, u) || u in s.updated ==> Again(s', u) || u in s'.updated
    ensures StoredFits(s', u)
  {
    hide Whole, At, Again;
    WholeGrows(s, s', u, s.stored[u]);
    if !Again(s, u) {
      NoInsert(s, u, s.stored[u]);
    }
    if Fresh(s, s.stored[u]) {
      WholeGrows(s, s', u, s.stored[u]);
      FreshSnapOk(s', u, s.stored[u]);
    }
  }

  lemma StarterStepFits(o: Order, s: World, e: Event, s': World)
    requires InitNext(o, s, e) == Some(s') && !e.Register? && !e.EndInit? && Grows(s, s')
    requires e.uri in s.starting ==> StarterFits(o, s, e.uri)
    ensures StarterFits(o, s', e.uri)
  {
    hide LookFits, Grows, CanRead, CanUse;
    match e
    case BeginInit(u) => NewLookFits(o, s', u);
    case InitUse(u, _) =>
      LookGrows(o, s, s', s.starting[u].look);
      UseFits(o, s', s.starting[u].look);
    case InitRead(u) => ReadFits(o, s, s', s.starting[u].look);
    case InitStore(u) => LookGrows(o, s, s', s.starting[u].look);
  }

  lemma InitGrows(o: Order, s: World, e: Event, s': World)
    requires InitNext(o, s, e) == Some(s')
    ensures Grows(s, s') && s'.inserts == s.inserts && s.updated <= s'.updated
    ensures s'.todo == s.todo && s'.current == s.current && s'.got == s.got && s'.active == s.active
    ensures forall u :: u in s'.stored && !(e.InitStore? && u == e.uri) ==>
              u in s.stored && s'.stored[u] == s.stored[u]
    ensures forall u :: u in s'.starting && (e.Register? || u != e.uri) ==>
              u in s.starting && s'.starting[u] == s.starting[u]
    ensures e.EndInit? ==> e.uri !in s'.starting
  {
    hide Read, NewLook;
  }

  lemma InitStep(o: Order, s: World, e: Event, s': World)
    requires WorldFits(o, s) && Apart(s) && Apart(s') && InitNext(o, s, e) == Some(s')
    ensures WorldFits(o, s')
  {
    hide StoredFits, GotFits, StarterFits, LookFits, InsertFits, Grows, Whole, Fresh, SnapOk;
    InitGrows(o, s, e, s');
    NoInsertInits(o, s, e, s');
    forall u | u in s'.starting
      ensures StarterFits(o, s', u)
    {
      if !e.Register? && u == e.uri {
        StarterStepFits(o, s, e, s');
      } else {
        assert StarterFits(o, s, u);
        StarterGrows(o, s, s', u);
      }
    }
    forall u | u in s'.stored
      ensures StoredFits(s', u)
    {
      if e.InitStore? && u == e.uri {
        InitStoreFits(o, s, u, s');
      } else {
        StoredStays(s, s', u);
      }
    }
    forall u | u in s'.got
      ensures GotFits(s', u)
    {
      assert GotFits(s, u);
      GotGrows(s, s', u);
    }
    if s'.current.Some? {
      LookGrows(o, s, s', s.current.value);
    }
  }

  lemma StarterGrows(o: Order, s: World, s': World, u: Str)
    requires StarterFits(o, s, u) && Grows(s, s') && u in s'.starting && s'.starting[u] == s.starting[u]
    ensures StarterFits(o, s', u)
  {
    hide LookFits, Grows;
    LookGrows(o, s, s', s.starting[u].look);
  }

  lemma GotGrows(s: World, s': World, u: Str)
    requires GotFits(s, u) && Grows(s, s') && u in s'.got && s'.got[u] == s.got[u]
    ensures GotFits(s', u)
  {
    hide Whole, Fresh, Grows;
    WholeGrows(s, s', u, s.got[u]);
  }

  lemma NoInsertInits(o: Order, s: World, e: Event, s': World)
    requires Apart(s) && Apart(s') && InitNext(o, s, e) == Some(s')
    ensures s.inserts == map[] && s'.inserts == map[]
  {
    if e.BeginInit? {
      assert e.uri in s'.starting;
    }
  }

  lemma InitStoreFits(o: Order, s: World, u: Str, s': World)
    requires InitNext(o, s, InitStore(u)) == Some(s') && StarterFits(o, s, u)
    ensures StoredFits(s', u)
  {
    hide LookFits, Whole, Fresh;
    var l := s.starting[u].look;
    LookGrows(o, s, s', l);
    LookWhole(o, s', l);
    FreshSnapOk(s', u, l.seen);
  }

  lemma RefreshGrows(o: Order, s: World, e: Event, s': World)
    requires RefreshNext(o, s, e) == Some(s') && (!s.active ==> s.todo == {})
    ensures Grows(s, s') && s'.inserts == s.inserts && s'.starting == s.starting
    ensures forall u :: u in s'.stored && !(e.Write? && u == e.uri) ==>
              u in s.stored && s'.stored[u] == s.stored[u]
    ensures forall u :: u in s.stored && !(e.Write? && u == e.uri) && (Again(s, u) || u in s.updated) ==>
              Again(s', u) || u in s'.updated
    ensures forall u :: u in s'.got && !(e.EndLook? && u == s.current.value.uri) ==>
              u in s.got && s'.got[u] == s.got[u]
  {
    hide Prefixes, At;
  }

  lemma NoInsertRefreshes(o: Order, s: World, e: Event, s': World)
    requires WorldFits(o, s) && Apart(s) && Apart(s') && RefreshNext(o, s, e) == Some(s')
    ensures s.inserts == map[] && s'.inserts == map[]
    ensures !s'.active ==> s'.todo == {} && s'.current.None? && s'.got == map[]
  {
    hide StoredFits, StarterFits, LookFits, InsertFits, GotFits, Read, NewLook;
  }

  lemma RefreshStep(o: Order, s: World, e: Event, s': World)
    requires WorldFits(o, s) && Apart(s) && Apart(s') && RefreshNext(o, s, e) == Some(s')
    ensures WorldFits(o, s')
  {
    hide StoredFits, GotFits, StarterFits, LookFits, InsertFits, Grows, Whole, Fresh, SnapOk;
    RefreshGrows(o, s, e, s');
    NoInsertRefreshes(o, s, e, s');
    forall u | u in s'.stored
      ensures StoredFits(s', u)
    {
      if e.Write? && u == e.uri {
        WriteFits(o, s, u, s');
      } else {
        StoredStays(s, s', u);
      }
    }
    forall u | u in s'.got
      ensures GotFits(s', u)
    {
      if e.EndLook? && u == s.current.value.uri {
        EndLookFits(o, s, s');
      } else {
        GotGrows(s, s', u);
      }
    }
    forall u | u in s'.starting
      ensures StarterFits(o, s', u)
    {
      StarterGrows(o, s, s', u);
    }
    if s'.current.Some? {
      CurrentFits(o, s, e, s');
    }
  }

  lemma WriteFits(o: Order, s: World, u: Str, s': World)
    requires RefreshNext(o, s, Write(u)) == Some(s') && GotFits(s, u) && Grows(s, s')
    ensures StoredFits(s', u)
  {
    hide Whole, Fresh, Grows, Again;
    WholeGrows(s, s', u, s.got[u]);
    FreshSnapOk(s', u, s.got[u]);
  }

  lemma EndLookFits(o: Order, s: World, s': World)
    requires RefreshNext(o, s, EndLook) == Some(s') && LookFits(o, s, s.current.value) && Grows(s, s')
    ensures GotFits(s', s.current.value.uri)
  {
    hide LookFits, Whole, Fresh, Grows;
    LookGrows(o, s, s', s.current.value);
    LookWhole(o, s', s.current.value);
  }

  lemma CurrentFits(o: Order, s: World, e: Event, s': World)
    requires RefreshNext(o, s, e) == Some(s') && Grows(s, s') && s'.current.Some?
    requires s.current.Some? ==> LookFits(o, s, s.current.value)
    ensures LookFits(o, s', s'.current.value)
  {
    hide LookFits, Grows, CanRead, CanUse;
    if e.BeginLook? {
      NewLookFits(o, s', e.uri);
    } else if e.LookUse? {
      LookGrows(o, s, s', s.current.value);
      UseFits(o, s', s.current.value);
    } else if e.LookRead? {
      ReadFits(o, s, s', s.current.value);
    } else {
      LookGrows(o, s, s', s.current.value);
    }
  }

  // ---- runs ----

  lemma NextFits(o: Order, s: World, e: Event, s': World)
    requires WorldFits(o, s) && Apart(s) && Apart(s') && Next(o, s, e) == Some(s')
    ensures WorldFits(o, s')
  {
    hide WorldFits, InsertNext, InitNext, RefreshNext, Apart;
    if e.BeginInsert? || e.Test? || e.Mark? || e.Commit? || e.EndInsert? {
      InsertStep(o, s, e, s');
    } else if e.BeginInit? || e.InitUse? || e.InitRead? || e.InitStore? || e.EndInit? || e.Register? {
      InitStep(o, s, e, s');
    } else {
      RefreshStep(o, s, e, s');
    }
  }

  // In no state of the run is an insert in flight beside a lookup.
  predicate RunsApart(o: Order, events: seq<Event>) {
    forall n :: 0 <= n <= |events| ==> After(o, events[..n]).Some? && Apart(After(o, events[..n]).value)
  }

  lemma {:induction false} RunFits(o: Order, events: seq<Event>, n: nat)
    requires RunsApart(o, events) && n <= |events|
    ensures WorldFits(o, After(o, events[..n]).value)
  {
    hide Next, WorldFits, Apart;
    if n == 0 {
      assert events[..0] == [];
      EmptyFits(o);
    } else {
      RunFits(o, events, n - 1);
      assert events[..n][..n - 1] == events[..n - 1];
      NextFits(o, After(o, events[..n - 1]).value, events[n - 1], After(o, events[..n]).value);
    }
  }

  lemma EmptyFits(o: Order)
    ensures WorldFits(o, EMPTY)
  {
  }

  lemma QuietUpToDate(o: Order, s: World)
    requires WorldFits(o, s) && Quiet(s)
    ensures UpToDate(s)
  {
    hide At;
    forall u | u in s.stored && u !in s.updated
      ensures forall p :: p in Prefixes(u, 0) ==> p in s.stored[u] && s.stored[u][p] == At(s.db, p)
    {
      assert StoredFits(s, u);
      NoInsert(s, u, s.stored[u]);
      assert forall p :: p in Prefixes(u, 0) ==> p in MetadataView.PrefixSet(u);
    }
  }

  /**
   A run in which no insert is in flight beside a lookup is safe, whatever the order of the steps: when
   nothing is in flight every document is up to date or marked.
   */
  lemma ApartSafe(o: Order, events: seq<Event>)
    requires RunsApart(o, events) && After(o, events).Some? && Quiet(After(o, events).value)
    ensures UpToDate(After(o, events).value)
  {
    hide WorldFits, Quiet, UpToDate;
    RunFits(o, events, |events|);
    assert events[..|events|] == events;
    QuietUpToDate(o, After(o, events).value);
  }
}
