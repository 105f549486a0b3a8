/**
 The buffer between the reader and the committers of a stream (archiver/stream.go:45-107 and 131-256),
 as steps that interleave.  In the program reader and committer each work on a copy of the record list of
 a URI and write the copy back; the intent is one list for both, of which a commit drops what it wrote.
 */
module StreamBuffer {
  import opened Wrappers
  import opened Bytes

  datatype Reading = Reading(time: int, value: int)

  // The reader: nothing in hand, or a copy of the list of a URI and the readings appended to it.
  datatype Reader = Idle | Holding(uri: Str, was: seq<Reading>, more: seq<Reading>)

  // A committer: asleep, with a snapshot to write, or with one that has been written.
  datatype Committer = Asleep | Snapshot(ts: seq<Reading>) | Written(ts: seq<Reading>)

  // committers has an entry for each URI whose initialisation succeeded.  accepted and stored are the
  // readings written back to the buffer, and those in the database.
  datatype State = State(buffer: map<Str, seq<Reading>>, reader: Reader, committers: map<Str, Committer>,
                         accepted: map<Str, seq<Reading>>, stored: map<Str, seq<Reading>>)

  const EMPTY := State(map[], Idle, map[], map[], map[])

  datatype Event =
    | Initialize(uri: Str, ok: bool)
    | Grab(uri: Str)
    | Append(reading: Reading)
    | Drop
    | PutBack
    | Snap(uri: Str)
    | GiveUp(uri: Str)
    | Fail(uri: Str)
    | Store(uri: Str)
    | Trim(uri: Str)

  function Of(m: map<Str, seq<Reading>>, u: Str): seq<Reading> {
    if u in m then m[u] else []
  }

  // The reader is between reading and writing back the list of u.
  predicate InReader(s: State, u: Str) {
    s.reader.Holding? && s.reader.uri == u
  }

  predicate InCommitter(s: State, u: Str) {
    u in s.committers && !s.committers[u].Asleep?
  }

  predicate Overlapping(s: State, u: Str) {
    InReader(s, u) && InCommitter(s, u)
  }

  /**
   Copied is the program: both sides write back copies.  Excluded is the same with sections that keep each
   other out.  Shared is one list: the reader appends to it, a commit drops the part it has written.
   */
  datatype Mode = Copied | Excluded | Shared

  function Next(mode: Mode, s: State, e: Event): Option<State> {
    match e
    case Initialize(u, ok) =>
      if u in s.buffer || s.reader.Holding? then None
      else Some(s.(buffer := s.buffer[u := []], committers := if ok then s.committers[u := Asleep] else s.committers))
    case Grab(u) =>
      if u !in s.buffer || s.reader.Holding? || (mode.Excluded? && InCommitter(s, u)) then None
      else Some(s.(reader := Holding(u, s.buffer[u], [])))
    case Append(x) =>
      if !s.reader.Holding? then None
      else if mode.Shared? then Some(Accept(s, s.reader.uri, Of(s.buffer, s.reader.uri) + [x], [x]))
      else Some(s.(reader := s.reader.(more := s.reader.more + [x])))
    case Drop =>
      if !s.reader.Holding? then None else Some(s.(reader := Idle))
    case PutBack =>
      if !s.reader.Holding? then None
      else if mode.Shared? then Some(s.(reader := Idle))
      else Some(Accept(s, s.reader.uri, s.reader.was + s.reader.more, s.reader.more).(reader := Idle))
    case Snap(u) =>
      if u !in s.committers || u !in s.buffer || InCommitter(s, u) || (mode.Excluded? && InReader(s, u)) then None
      else Some(s.(committers := s.committers[u := Snapshot(s.buffer[u])]))
    case GiveUp(u) =>
      if u !in s.committers || s.committers[u] != Snapshot([]) then None
      else Some(s.(committers := s.committers[u := Asleep]))
    case Fail(u) =>
      if u !in s.committers || !s.committers[u].Snapshot? || s.committers[u].ts == [] then None
      else Some(s.(committers := s.committers[u := Asleep]))
    case Store(u) =>
      if u !in s.committers || !s.committers[u].Snapshot? || s.committers[u].ts == [] then None else
      var ts := s.committers[u].ts;
      Some(s.(committers := s.committers[u := Written(ts)], stored := s.stored[u := Of(s.stored, u) + ts]))
    case Trim(u) =>
      if u !in s.committers || !s.committers[u].Written? then None else
      var ts := s.committers[u].ts;
      var list := if mode.Shared? then Of(s.buffer, u) else ts;
      Some(s.(committers := s.committers[u := Asleep], buffer := s.buffer[u := Dropped(list, |ts|)]))
  }

  // The list of u becomes this one, by which these readings are accepted.
  function Accept(s: State, u: Str, list: seq<Reading>, more: seq<Reading>): State {
    s.(buffer := s.buffer[u := list], accepted := s.accepted[u := Of(s.accepted, u) + more])
  }

  // The list without its first n readings; a shorter one loses all it has.
  function Dropped(list: seq<Reading>, n: nat): seq<Reading> {
    if n <= |list| then list[n..] else []
  }

  function After(mode: Mode, events: seq<Event>): Option<State> {
    if events == [] then Some(EMPTY) else
    var s := After(mode, events[..|events| - 1]);
    if s.None? then None else Next(mode, s.value, events[|events| - 1])
  }

  // Readings of u that are in the database but have not been taken out of the buffer yet.
  function Committed(s: State, u: Str): nat {
    if u in s.committers && s.committers[u].Written? then |s.committers[u].ts| else 0
  }

  /** What was accepted is what is stored and then what is buffered, in order. */
  predicate Conserved(s: State, u: Str) {
    Committed(s, u) <= |Of(s.buffer, u)| &&
    Of(s.accepted, u) == Of(s.stored, u) + Of(s.buffer, u)[Committed(s, u)..]
  }

  // The URI that a step is about.
  function Subject(s: State, e: Event): Option<Str> {
    match e
    case Append(_) | Drop | PutBack => if s.reader.Holding? then Some(s.reader.uri) else None
    case Initialize(u, _) => Some(u)
    case Grab(u) => Some(u)
    case Snap(u) => Some(u)
    case GiveUp(u) => Some(u)
    case Fail(u) => Some(u)
    case Store(u) => Some(u)
    case Trim(u) => Some(u)
  }

  /** No step touches the buffer, the database or the committer of another URI. */
  lemma OthersUntouched(mode: Mode, s: State, e: Event, s': State, v: Str)
    requires Next(mode, s, e) == Some(s') && Subject(s, e) != Some(v)
    ensures Of(s'.buffer, v) == Of(s.buffer, v) && Of(s'.accepted, v) == Of(s.accepted, v)
    ensures Of(s'.stored, v) == Of(s.stored, v)
    ensures v in s'.buffer <==> v in s.buffer
    ensures v in s'.accepted <==> v in s.accepted
    ensures v in s'.stored <==> v in s.stored
    ensures v in s'.committers <==> v in s.committers
    ensures v in s.committers ==> s'.committers[v] == s.committers[v]
    ensures InReader(s', v) <==> InReader(s, v)
    ensures InReader(s, v) ==> s'.reader.was == s.reader.was
  {
  }

  // ---- what is accepted ----

  // The URI whose section the reader is in, and what it has appended in it so far.
  function InHand(events: seq<Event>): (Option<Str>, seq<Reading>) {
    if events == [] then (None, []) else
    var held := InHand(events[..|events| - 1]);
    match events[|events| - 1]
    case Grab(u) => (Some(u), [])
    case Append(x) => (held.0, held.1 + [x])
    case Drop | PutBack => (None, [])
    case _ => held
  }

  // The readings appended for u in a run: at once to a shared list, else with the section that is put back.
  function PutIn(mode: Mode, events: seq<Event>, u: Str): seq<Reading> {
    if events == [] then [] else
    var front := events[..|events| - 1];
    var held, e := InHand(front), events[|events| - 1];
    if held.0 != Some(u) then PutIn(mode, front, u)
    else if mode.Shared? && e.Append? then PutIn(mode, front, u) + [e.reading]
    else if !mode.Shared? && e.PutBack? then PutIn(mode, front, u) + held.1
    else PutIn(mode, front, u)
  }

  // The reader of the state is in the section that the events say.
  predicate Holds(mode: Mode, s: State, held: (Option<Str>, seq<Reading>)) {
    match s.reader
    case Idle => held.0.None?
    case Holding(u, _, more) => held.0 == Some(u) && (!mode.Shared? ==> more == held.1)
  }

  lemma AcceptedStep(mode: Mode, s: State, e: Event, s': State, held: (Option<Str>, seq<Reading>), u: Str)
    requires Next(mode, s, e) == Some(s') && Holds(mode, s, held)
    ensures Of(s'.accepted, u) ==
            if held.0 != Some(u) then Of(s.accepted, u)
            else if mode.Shared? && e.Append? then Of(s.accepted, u) + [e.reading]
            else if !mode.Shared? && e.PutBack? then Of(s.accepted, u) + held.1
            else Of(s.accepted, u)
  {
    match e
    case Append(_) =>
    case PutBack =>
    case _ => AcceptedSame(mode, s, e, s');
  }

  lemma AcceptedSame(mode: Mode, s: State, e: Event, s': State)
    requires Next(mode, s, e) == Some(s') && !e.Append? && !e.PutBack?
    ensures s'.accepted == s.accepted
  {
  }

  lemma HoldsStep(mode: Mode, s: State, e: Event, s': State, held: (Option<Str>, seq<Reading>))
    requires Next(mode, s, e) == Some(s') && Holds(mode, s, held)
    ensures Holds(mode, s', match e
                            case Grab(v) => (Some(v), [])
                            case Append(x) => (held.0, held.1 + [x])
                            case Drop | PutBack => (None, [])
                            case _ => held)
  {
  }

  /** In every run the accepted readings of a URI are those that the events of the run put in, in order. */
  lemma {:induction false} AcceptedIs(mode: Mode, events: seq<Event>, u: Str)
    requires After(mode, events).Some?
    ensures Of(After(mode, events).value.accepted, u) == PutIn(mode, events, u)
    ensures Holds(mode, After(mode, events).value, InHand(events))
  {
    hide Next, Holds;
    if events == [] {
      StartsIdle(mode);
    } else {
      var front, e := events[..|events| - 1], events[|events| - 1];
      AcceptedIs(mode, front, u);
      AcceptedStep(mode, After(mode, front).value, e, After(mode, events).value, InHand(front), u);
      HoldsStep(mode, After(mode, front).value, e, After(mode, events).value, InHand(front));
    }
  }

  lemma StartsIdle(mode: Mode)
    ensures Holds(mode, EMPTY, (None, []))
  {
  }

  lemma CommittersStep(mode: Mode, s: State, e: Event, s': State, u: Str)
    requires Next(mode, s, e) == Some(s')
    ensures u in s'.committers <==> u in s.committers || e == Initialize(u, true)
  {
  }

  /** A URI has a committer exactly when its initialisation succeeded. */
  lemma {:induction false} CommittersAre(mode: Mode, events: seq<Event>, u: Str)
    requires After(mode, events).Some?
    ensures u in After(mode, events).value.committers <==> Initialize(u, true) in events
  {
    hide Next;
    if events != [] {
      var front, e := events[..|events| - 1], events[|events| - 1];
      CommittersAre(mode, front, u);
      CommittersStep(mode, After(mode, front).value, e, After(mode, events).value, u);
      assert events == front + [e];
    }
  }

  // ---- one step ----

  /** A write-back finds the list as its copy was taken; in one shared list there is nothing to find. */
  predicate Current(mode: Mode, s: State, e: Event, u: Str) {
    mode.Shared? ||
    ((e.PutBack? && InReader(s, u) ==> s.reader.was == Of(s.buffer, u)) &&
     (e == Trim(u) && InCommitter(s, u) ==> s.committers[u].ts == Of(s.buffer, u)))
  }

  // The readings of u are conserved, and what is being committed is the beginning of its list.
  predicate Sane(s: State, u: Str) {
    && Conserved(s, u)
    && (InCommitter(s, u) ==> s.committers[u].ts <= Of(s.buffer, u))
    && (Committed(s, u) == 0 ==> !(InCommitter(s, u) && s.committers[u].Written?))
    && ((u in s.committers || InReader(s, u) || u in s.accepted || u in s.stored) ==> u in s.buffer)
  }

  lemma StepSane(mode: Mode, s: State, e: Event, s': State, u: Str)
    requires Next(mode, s, e) == Some(s') && Sane(s, u) && Current(mode, s, e, u)
    ensures Sane(s', u)
  {
    hide Sane, Current, Next;
    if Subject(s, e) != Some(u) {
      OthersSane(mode, s, e, s', u);
    } else if e.PutBack? {
      PutBackSane(mode, s, s', u);
    } else if e.Append? {
      AppendSane(mode, s, e.reading, s', u);
    } else if e.Store? || e.Trim? {
      CommitterSane(mode, s, e, s', u);
    } else if e.Initialize? {
      InitializeSane(mode, s, e.ok, s', u);
    } else {
      RestSane(mode, s, e, s', u);
    }
  }

  lemma InitializeSane(mode: Mode, s: State, ok: bool, s': State, u: Str)
    requires Next(mode, s, Initialize(u, ok)) == Some(s') && Sane(s, u)
    ensures Sane(s', u)
  {
    var none: seq<Reading> := [];
    assert none[0..] == none;
  }

  lemma OthersSane(mode: Mode, s: State, e: Event, s': State, v: Str)
    requires Next(mode, s, e) == Some(s') && Subject(s, e) != Some(v) && Sane(s, v)
    ensures Sane(s', v)
  {
    hide Next, Subject;
    OthersUntouched(mode, s, e, s', v);
  }

  // More readings at the end of the list of u, and as many accepted.
  lemma AcceptSane(s: State, s': State, u: Str, more: seq<Reading>)
    requires Sane(s, u) && u in s.buffer && s'.stored == s.stored && s'.committers == s.committers
    requires s'.buffer == s.buffer[u := s.buffer[u] + more] && Of(s'.accepted, u) == Of(s.accepted, u) + more
    ensures Sane(s', u)
  {
    var b, n, st := s.buffer[u], Committed(s, u), Of(s.stored, u);
    assert (b + more)[n..] == b[n..] + more;
    assert st + (b[n..] + more) == (st + b[n..]) + more;
  }

  lemma PutBackSane(mode: Mode, s: State, s': State, u: Str)
    requires Next(mode, s, PutBack) == Some(s') && Sane(s, u) && Current(mode, s, PutBack, u) && InReader(s, u)
    ensures Sane(s', u)
  {
    if !mode.Shared? {
      AcceptSane(s, s', u, s.reader.more);
    }
  }

  lemma AppendSane(mode: Mode, s: State, x: Reading, s': State, u: Str)
    requires Next(mode, s, Append(x)) == Some(s') && Sane(s, u) && InReader(s, u)
    ensures Sane(s', u)
  {
    if mode.Shared? {
      AcceptSane(s, s', u, [x]);
    }
  }

  lemma CommitterSane(mode: Mode, s: State, e: Event, s': State, u: Str)
    requires e == Store(u) || e == Trim(u)
    requires Next(mode, s, e) == Some(s') && Sane(s, u) && Current(mode, s, e, u)
    ensures Sane(s', u)
  {
    var b, ts, st := Of(s.buffer, u), s.committers[u].ts, Of(s.stored, u);
    assert b[0..] == b && ts + b[|ts|..] == b && b[|ts|..][0..] == b[|ts|..];
    assert st + (ts + b[|ts|..]) == (st + ts) + b[|ts|..];
  }

  // The steps that change neither the list nor the database.
  lemma RestSane(mode: Mode, s: State, e: Event, s': State, u: Str)
    requires Next(mode, s, e) == Some(s') && Sane(s, u) && Subject(s, e) == Some(u)
    requires e.Grab? || e.Drop? || e.Snap? || e.GiveUp? || e.Fail?
    ensures Sane(s', u)
  {
    hide Sane;
    RestIs(mode, s, e, s', u);
    UnchangedSane(s, s', u);
  }

  lemma RestIs(mode: Mode, s: State, e: Event, s': State, u: Str)
    requires Next(mode, s, e) == Some(s') && Subject(s, e) == Some(u)
    requires e.Grab? || e.Drop? || e.Snap? || e.GiveUp? || e.Fail?
    ensures s'.buffer == s.buffer && s'.accepted == s.accepted && s'.stored == s.stored
    ensures Committed(s', u) == Committed(s, u) && (u in s'.committers <==> u in s.committers)
    ensures InCommitter(s', u) ==> (InCommitter(s, u) && s'.committers[u] == s.committers[u]) ||
                                   s'.committers[u] == Snapshot(Of(s.buffer, u))
    ensures InReader(s', u) ==> u in s.buffer || InReader(s, u)
  {
  }

  lemma UnchangedSane(s: State, s': State, u: Str)
    requires Sane(s, u) && s'.buffer == s.buffer && s'.accepted == s.accepted && s'.stored == s.stored
    requires Committed(s', u) == Committed(s, u) && (u in s'.committers <==> u in s.committers)
    requires InCommitter(s', u) ==> (InCommitter(s, u) && s'.committers[u] == s.committers[u]) ||
                                    s'.committers[u] == Snapshot(Of(s.buffer, u))
    requires InReader(s', u) ==> u in s.buffer || InReader(s, u)
    ensures Sane(s', u)
  {
  }

  // ---- one shared list ----

  lemma {:induction false} SharedSane(events: seq<Event>, u: Str)
    requires After(Shared, events).Some?
    ensures Sane(After(Shared, events).value, u)
  {
    hide Sane, Next;
    if events == [] {
      EmptySane(u);
    } else {
      var front := events[..|events| - 1];
      SharedSane(front, u);
      StepSane(Shared, After(Shared, front).value, events[|events| - 1], After(Shared, events).value, u);
    }
  }

  lemma EmptySane(u: Str)
    ensures Sane(EMPTY, u)
  {
  }

  /**
   With one shared list every interleaving conserves the readings of every URI, appends between the
   snapshot and the trim included: a trim drops the committed readings and keeps what came after them.
   */
  lemma SharedConserves(events: seq<Event>, u: Str)
    requires After(Shared, events).Some?
    ensures Conserved(After(Shared, events).value, u)
  {
    SharedSane(events, u);
  }

  // ---- copies ----

  // The list has not changed since the reader took its copy, or it has been emptied.
  predicate Tracked(s: State, u: Str) {
    InReader(s, u) ==> s.reader.was == Of(s.buffer, u) || Of(s.buffer, u) == []
  }

  /** A step of the program conserves the readings of u exactly when its write-back is current. */
  lemma StepExact(s: State, e: Event, s': State, u: Str)
    requires Next(Copied, s, e) == Some(s') && Sane(s, u) && Tracked(s, u)
    ensures Conserved(s', u) <==> Current(Copied, s, e, u)
    ensures Conserved(s', u) ==> Sane(s', u) && Tracked(s', u)
  {
    if Current(Copied, s, e, u) {
      StepSane(Copied, s, e, s', u);
      StepTracked(s, e, s', u);
    } else {
      StaleStep(s, e, s', u);
    }
  }

  lemma StepTracked(s: State, e: Event, s': State, u: Str)
    requires Next(Copied, s, e) == Some(s') && Tracked(s, u)
    ensures Tracked(s', u)
  {
  }

  lemma StaleStep(s: State, e: Event, s': State, u: Str)
    requires Next(Copied, s, e) == Some(s') && Sane(s, u) && Tracked(s, u) && !Current(Copied, s, e, u)
    ensures !Conserved(s', u)
  {
    if e.PutBack? {
      assert Committed(s, u) == 0 && Of(s.buffer, u) == [];
    }
  }

  // The state of the program after n events.
  function At(events: seq<Event>, n: nat): Option<State>
    requires n <= |events|
  {
    After(Copied, events[..n])
  }

  predicate ConservedAt(events: seq<Event>, u: Str, n: nat)
    requires n <= |events|
  {
    At(events, n).Some? && Conserved(At(events, n).value, u)
  }

  predicate CurrentAt(events: seq<Event>, u: Str, n: nat)
    requires n < |events|
  {
    At(events, n).Some? && Current(Copied, At(events, n).value, events[n], u)
  }

  lemma {:induction false} Prefixes(events: seq<Event>, n: nat)
    requires After(Copied, events).Some? && n <= |events|
    ensures At(events, n).Some?
    ensures n < |events| ==> At(events, n + 1) == Next(Copied, At(events, n).value, events[n])
    decreases |events| - n
  {
    hide Next;
    if n == |events| {
      assert events[..n] == events;
    } else {
      if n + 1 < |events| {
        Prefixes(events, n + 1);
      } else {
        assert events[..n + 1] == events;
      }
      var p := events[..n + 1];
      assert p[..|p| - 1] == events[..n];
    }
  }

  lemma {:induction false} PrefixExact(events: seq<Event>, u: Str, n: nat)
    requires After(Copied, events).Some? && n <= |events|
    ensures (forall m :: 0 <= m <= n ==> ConservedAt(events, u, m)) <==>
            (forall m :: 0 <= m < n ==> CurrentAt(events, u, m))
    ensures At(events, n).Some?
    ensures (forall m :: 0 <= m <= n ==> ConservedAt(events, u, m)) ==>
              Sane(At(events, n).value, u) && Tracked(At(events, n).value, u)
  {
    hide Next, Sane, Tracked, Conserved, Current, At;
    if n == 0 {
      StartsSane(events, u);
    } else {
      PrefixExact(events, u, n - 1);
      Prefixes(events, n - 1);
      Prefixes(events, n);
      if forall m :: 0 <= m <= n - 1 ==> ConservedAt(events, u, m) {
        StepExact(At(events, n - 1).value, events[n - 1], At(events, n).value, u);
        assert ConservedAt(events, u, n) <==> CurrentAt(events, u, n - 1);
      }
    }
  }

  lemma StartsSane(events: seq<Event>, u: Str)
    ensures At(events, 0) == Some(EMPTY) && Sane(EMPTY, u) && Tracked(EMPTY, u) && ConservedAt(events, u, 0)
  {
    assert events[..0] == [];
  }

  /**
   In any run of the program the readings of u are conserved throughout if and only if every write-back of
   its list finds the list as the copy was taken.
   */
  lemma CopiesExact(events: seq<Event>, u: Str)
    requires After(Copied, events).Some?
    ensures (forall n :: 0 <= n <= |events| ==> ConservedAt(events, u, n)) <==>
            forall n :: 0 <= n < |events| ==> CurrentAt(events, u, n)
  {
    PrefixExact(events, u, |events|);
  }

  // ---- sections that do not overlap ----

  // Sections do not overlap, and each has the list as it is in the buffer.
  predicate Disciplined(s: State, u: Str) {
    && !Overlapping(s, u)
    && (InReader(s, u) ==> s.reader.was == Of(s.buffer, u))
    && (InCommitter(s, u) ==> s.committers[u].ts == Of(s.buffer, u))
  }

  lemma StepDisciplined(mode: Mode, s: State, e: Event, s': State, u: Str)
    requires !mode.Shared? && Next(mode, s, e) == Some(s') && Disciplined(s, u) && Sane(s, u)
    ensures Current(mode, s, e, u)
    ensures mode.Excluded? ==> !Overlapping(s', u)
    ensures !Overlapping(s', u) ==> Disciplined(s', u)
  {
    hide Next, Sane;
    if Subject(s, e) != Some(u) {
      OthersUntouched(mode, s, e, s', u);
    } else {
      SubjectDisciplined(mode, s, e, s', u);
    }
  }

  lemma SubjectDisciplined(mode: Mode, s: State, e: Event, s': State, u: Str)
    requires !mode.Shared? && Next(mode, s, e) == Some(s') && Disciplined(s, u) && Sane(s, u)
    requires Subject(s, e) == Some(u)
    ensures Current(mode, s, e, u)
    ensures mode.Excluded? ==> !Overlapping(s', u)
    ensures !Overlapping(s', u) ==> Disciplined(s', u)
  {
    hide Conserved;
  }

  lemma {:induction false} PrefixDisciplined(events: seq<Event>, u: Str, n: nat)
    requires After(Copied, events).Some? && n <= |events|
    requires forall m :: 0 <= m <= n ==> At(events, m).Some? && !Overlapping(At(events, m).value, u)
    ensures At(events, n).Some? && Disciplined(At(events, n).value, u) && Sane(At(events, n).value, u)
    ensures forall m :: 0 <= m < n ==> CurrentAt(events, u, m)
  {
    hide Next, Sane, Disciplined, Overlapping, Current, At;
    if n == 0 {
      StartsSane(events, u);
      StartsDisciplined(u);
    } else {
      PrefixDisciplined(events, u, n - 1);
      Prefixes(events, n - 1);
      var s, s' := At(events, n - 1).value, At(events, n).value;
      StepDisciplined(Copied, s, events[n - 1], s', u);
      StepSane(Copied, s, events[n - 1], s', u);
    }
  }

  lemma StartsDisciplined(u: Str)
    ensures Disciplined(EMPTY, u)
  {
  }

  /** A run of the program in which the sections of reader and committer on u never overlap conserves u. */
  lemma ApartConserves(events: seq<Event>, u: Str)
    requires After(Copied, events).Some?
    requires forall n :: 0 <= n <= |events| ==> At(events, n).Some? && !Overlapping(At(events, n).value, u)
    ensures forall n :: 0 <= n <= |events| ==> ConservedAt(events, u, n)
  {
    hide At, ConservedAt, CurrentAt, Overlapping;
    PrefixDisciplined(events, u, |events|);
    CopiesExact(events, u);
  }

  /** When the sections are made to exclude each other, every interleaving conserves every URI. */
  lemma {:induction false} RunConserves(events: seq<Event>, u: Str)
    requires After(Excluded, events).Some?
    ensures Conserved(After(Excluded, events).value, u) && Disciplined(After(Excluded, events).value, u)
    ensures Sane(After(Excluded, events).value, u)
  {
    hide Sane, Disciplined, Next;
    if events == [] {
      StartsSane(events, u);
      StartsDisciplined(u);
      SaneConserved(EMPTY, u);
    } else {
      var front := events[..|events| - 1];
      RunConserves(front, u);
      var s, e, s' := After(Excluded, front).value, events[|events| - 1], After(Excluded, events).value;
      StepDisciplined(Excluded, s, e, s', u);
      StepSane(Excluded, s, e, s', u);
      SaneConserved(s', u);
    }
  }

  lemma SaneConserved(s: State, u: Str)
    requires Sane(s, u)
    ensures Conserved(s, u)
  {
  }

  // ---- overlapping sections ----

  // Both sides at rest, and every accepted reading of u stored or buffered.
  predicate Settled(s: State, u: Str) {
    && s.reader.Idle? && u in s.buffer && u in s.committers && s.committers[u].Asleep?
    && Of(s.accepted, u) == Of(s.stored, u) + s.buffer[u]
  }

  lemma Go(events: seq<Event>, s: State, e: Event) returns (events': seq<Event>, s': State)
    requires After(Copied, events) == Some(s) && Next(Copied, s, e).Some?
    ensures events' == events + [e] && s' == Next(Copied, s, e).value && After(Copied, events') == Some(s')
  {
    hide Next;
    events', s' := events + [e], Next(Copied, s, e).value;
    assert events'[..|events'| - 1] == events;
  }

  // A whole section of the reader, for one reading.
  lemma Reads(events: seq<Event>, s: State, u: Str, r: Reading) returns (events': seq<Event>, s': State)
    requires After(Copied, events) == Some(s) && s.reader.Idle? && u in s.buffer
    ensures After(Copied, events') == Some(s')
    ensures s' == s.(buffer := s.buffer[u := s.buffer[u] + [r]], accepted := s.accepted[u := Of(s.accepted, u) + [r]])
  {
    var es, t := Go(events, s, Grab(u));
    es, t := Go(es, t, Append(r));
    assert t.reader == Holding(u, s.buffer[u], [r]);
    es, t := Go(es, t, PutBack);
    return es, t;
  }

  // The rest of a section of a committer.
  lemma Commits(events: seq<Event>, s: State, u: Str) returns (events': seq<Event>, s': State)
    requires After(Copied, events) == Some(s) && u in s.committers && s.committers[u].Snapshot? &&
             s.committers[u].ts != []
    ensures After(Copied, events') == Some(s')
    ensures s' == s.(committers := s.committers[u := Asleep], buffer := s.buffer[u := []],
                     stored := s.stored[u := Of(s.stored, u) + s.committers[u].ts])
  {
    var ts := s.committers[u].ts;
    var es, t := Go(events, s, Store(u));
    assert ts[|ts|..] == [];
    es, t := Go(es, t, Trim(u));
    assert t.committers == s.committers[u := Asleep];
    return es, t;
  }

  /** A reading that is written back while a non-empty snapshot is being committed is lost. */
  lemma WriteBackIsLost(events: seq<Event>, s: State, u: Str, r: Reading) returns (events': seq<Event>, s': State)
    requires After(Copied, events) == Some(s) && Settled(s, u) && s.buffer[u] != []
    ensures After(Copied, events') == Some(s') && s'.reader.Idle? && !InCommitter(s', u)
    ensures Of(s'.accepted, u) == Of(s.accepted, u) + [r]
    ensures Of(s'.stored, u) == Of(s.accepted, u) && Of(s'.buffer, u) == []
  {
    var es, t := Go(events, s, Snap(u));
    es, t := Reads(es, t, u, r);
    es, t := Commits(es, t, u);
    return es, t;
  }

  /** A copy that is written back after a commit it was taken before brings the whole snapshot back. */
  lemma WriteBackRepeats(events: seq<Event>, s: State, u: Str, r: Reading) returns (events': seq<Event>, s': State)
    requires After(Copied, events) == Some(s) && Settled(s, u) && s.buffer[u] != []
    ensures After(Copied, events') == Some(s') && s'.reader.Idle? && !InCommitter(s', u)
    ensures Of(s'.accepted, u) == Of(s.accepted, u) + [r]
    ensures Of(s'.stored, u) == Of(s.accepted, u) && Of(s'.buffer, u) == s.buffer[u] + [r]
  {
    var es, t := Go(events, s, Grab(u));
    es, t := Go(es, t, Append(r));
    assert t.reader == Holding(u, s.buffer[u], [r]);
    es, t := Go(es, t, Snap(u));
    es, t := Commits(es, t, u);
    es, t := Go(es, t, PutBack);
    return es, t;
  }

  // One reading of a new stream, settled in the buffer.
  lemma OneBuffered(u: Str, r: Reading) returns (events: seq<Event>, s: State)
    ensures After(Copied, events) == Some(s) && Settled(s, u) && s.buffer[u] == [r]
  {
    assert After(Copied, []) == Some(EMPTY);
    var es, t := Go([], EMPTY, Initialize(u, true));
    es, t := Go(es, t, Grab(u));
    es, t := Go(es, t, Append(r));
    assert [] + [r] == [r];
    es, t := Go(es, t, PutBack);
    return es, t;
  }

  ghost predicate Conserves(mode: Mode) {
    forall events, u :: After(mode, events).Some? ==> Conserved(After(mode, events).value, u)
  }

  /** Keeping the sections apart, or sharing one list, is what it takes to conserve readings in every run. */
  lemma ConservesExact(mode: Mode)
    ensures Conserves(mode) <==> mode != Copied
  {
    hide Conserved;
    match mode
    case Excluded =>
      forall events, u | After(mode, events).Some?
        ensures Conserved(After(mode, events).value, u)
      {
        RunConserves(events, u);
      }
    case Shared =>
      forall events, u | After(mode, events).Some?
        ensures Conserved(After(mode, events).value, u)
      {
        SharedConserves(events, u);
      }
    case Copied =>
      var u: Str, r := [], Reading(0, 0);
      var es, s := OneBuffered(u, r);
      var es', s' := WriteBackIsLost(es, s, u, r);
      NotConserved(s', u);
  }

  lemma NotConserved(s: State, u: Str)
    requires |Of(s.accepted, u)| > |Of(s.stored, u)| && Of(s.buffer, u) == []
    ensures !Conserved(s, u)
  {
  }
}
