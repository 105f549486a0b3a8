/**
 Queries and replies matched by a nonce (client/client.go:83-284, archiver/archiver.go:157-279): how the
 archiver assembles a reply, how the client takes it apart, and the steps of callers, archiver and
 dispatcher as they interleave.
 */
module QueryProtocol {
  import opened Wrappers

  // ---- replies ----

  // What a query evaluates to: an error, or four lists of results, each possibly empty.
  datatype Answer =
    | Failure(text: string)
    | Results(md: seq<int>, ts: seq<int>, stats: seq<int>, changed: seq<int>)

  datatype Payload =
    | ErrorPO(nonce: int, text: string)
    | MetadataPO(nonce: int, md: seq<int>)
    | TimeseriesPO(nonce: int, ts: seq<int>, stats: seq<int>)
    | ChangedPO(nonce: int, changed: seq<int>)

  type Message = seq<Payload>

  function Reply(nonce: int, a: Answer): Message {
    match a
    case Failure(text) => [ErrorPO(nonce, text)]
    case Results(md, ts, stats, changed) =>
      var reply :=
        (if |md| > 0 then [MetadataPO(nonce, md)] else []) +
        (if |ts| + |stats| > 0 then [TimeseriesPO(nonce, ts, stats)] else []) +
        (if |changed| > 0 then [ChangedPO(nonce, changed)] else []);
      if reply == [] then [MetadataPO(nonce, md)] else reply
  }

  // listenQueries, from the evaluated query on.
  method AssembleReply(nonce: int, a: Answer) returns (reply: Message)
    ensures reply == Reply(nonce, a)
  {
    if a.Failure? {
      return [ErrorPO(nonce, a.text)];
    }
    reply := [];
    if |a.md| > 0 {
      reply := reply + [MetadataPO(nonce, a.md)];
    }
    if |a.ts| + |a.stats| > 0 {
      reply := reply + [TimeseriesPO(nonce, a.ts, a.stats)];
    }
    if |a.changed| > 0 {
      reply := reply + [ChangedPO(nonce, a.changed)];
    }
    if |reply| == 0 {
      reply := reply + [MetadataPO(nonce, a.md)];
    }
  }

  // The first payload of a kind: 0 error, 1 metadata, 2 timeseries, 3 changed ranges.
  predicate OfKind(p: Payload, kind: int) {
    match p
    case ErrorPO(_, _) => kind == 0
    case MetadataPO(_, _) => kind == 1
    case TimeseriesPO(_, _, _) => kind == 2
    case ChangedPO(_, _) => kind == 3
  }

  function GetOne(m: Message, kind: int): (p: Option<Payload>)
    ensures p.Some? ==> p.value in m && OfKind(p.value, kind)
    ensures p.None? ==> forall q :: q in m ==> !OfKind(q, kind)
  {
    if m == [] then None else if OfKind(m[0], kind) then Some(m[0]) else GetOne(m[1..], kind)
  }

  // getNonce: the nonce of the first kind of payload that the message has.
  function NonceOf(m: Message): Option<int> {
    if GetOne(m, 0).Some? then Some(GetOne(m, 0).value.nonce)
    else if GetOne(m, 1).Some? then Some(GetOne(m, 1).value.nonce)
    else if GetOne(m, 2).Some? then Some(GetOne(m, 2).value.nonce)
    else if GetOne(m, 3).Some? then Some(GetOne(m, 3).value.nonce)
    else None
  }

  // What Query hands back.
  datatype Result = Result(md: seq<int>, ts: seq<int>, stats: seq<int>, changed: seq<int>, err: Option<string>)

  // A payload of a kind that carries the nonce.
  function Found(nonce: int, m: Message, kind: int): (p: Option<Payload>)
    ensures p.Some? ==> OfKind(p.value, kind)
  {
    var p := GetOne(m, kind);
    if p.Some? && p.value.nonce == nonce then p else None
  }

  // One turn of the loop in Query: None if nothing in the message is for this nonce.
  function Decoded(nonce: int, m: Message): Option<Result> {
    var e, md, ts, ch := Found(nonce, m, 0), Found(nonce, m, 1), Found(nonce, m, 2), Found(nonce, m, 3);
    if e.Some? then Some(Result([], [], [], [], Some(e.value.text)))
    else if md.None? && ts.None? && ch.None? then None
    else Some(Result(if md.Some? then md.value.md else [], if ts.Some? then ts.value.ts else [],
                     if ts.Some? then ts.value.stats else [], if ch.Some? then ch.value.changed else [], None))
  }

  // The answer as the caller is meant to get it.
  function Delivered(a: Answer): Result {
    match a
    case Failure(text) => Result([], [], [], [], Some(text))
    case Results(md, ts, stats, changed) => Result(md, ts, stats, changed, None)
  }

  /** A reply has a nonce, the one it was assembled with, on every payload. */
  lemma ReplyNonce(nonce: int, a: Answer)
    ensures NonceOf(Reply(nonce, a)) == Some(nonce)
    ensures forall p :: p in Reply(nonce, a) ==> p.nonce == nonce
  {
    var r := Reply(nonce, a);
    assert r[0] in r;
  }

  lemma OnlyOfKind(m: Message, p: Payload, kind: int)
    requires p in m && OfKind(p, kind) && forall q :: q in m && OfKind(q, kind) ==> q == p
    ensures GetOne(m, kind) == Some(p)
  {
    hide OfKind;
  }

  // There is a metadata payload for metadata, and for want of any other payload.
  predicate HasMetadata(a: Answer)
    requires a.Results?
  {
    |a.md| > 0 || (|a.ts| + |a.stats| == 0 && |a.changed| == 0)
  }

  lemma ReplyMembers(nonce: int, a: Answer, p: Payload)
    requires a.Results?
    ensures p in Reply(nonce, a) <==>
            || (HasMetadata(a) && p == MetadataPO(nonce, a.md))
            || (|a.ts| + |a.stats| > 0 && p == TimeseriesPO(nonce, a.ts, a.stats))
            || (|a.changed| > 0 && p == ChangedPO(nonce, a.changed))
  {
  }

  // The payloads of a reply with results, kind by kind.
  lemma ReplyHas(nonce: int, a: Answer)
    requires a.Results?
    ensures var r := Reply(nonce, a);
            && GetOne(r, 0) == None
            && GetOne(r, 1) == (if HasMetadata(a) then Some(MetadataPO(nonce, a.md)) else None)
            && GetOne(r, 2) == (if |a.ts| + |a.stats| > 0 then Some(TimeseriesPO(nonce, a.ts, a.stats)) else None)
            && GetOne(r, 3) == (if |a.changed| > 0 then Some(ChangedPO(nonce, a.changed)) else None)
  {
    hide Reply, HasMetadata;
    var r := Reply(nonce, a);
    forall p
      ensures p in r <==>
              || (HasMetadata(a) && p == MetadataPO(nonce, a.md))
              || (|a.ts| + |a.stats| > 0 && p == TimeseriesPO(nonce, a.ts, a.stats))
              || (|a.changed| > 0 && p == ChangedPO(nonce, a.changed))
    {
      ReplyMembers(nonce, a, p);
    }
    if HasMetadata(a) {
      OnlyOfKind(r, MetadataPO(nonce, a.md), 1);
    }
    if |a.ts| + |a.stats| > 0 {
      OnlyOfKind(r, TimeseriesPO(nonce, a.ts, a.stats), 2);
    }
    if |a.changed| > 0 {
      OnlyOfKind(r, ChangedPO(nonce, a.changed), 3);
    }
  }

  /** Taking a reply apart gives back the whole answer, under its nonce and under no other. */
  lemma ReplyRoundTrip(nonce: int, a: Answer, other: int)
    ensures Decoded(nonce, Reply(nonce, a)) == Some(Delivered(a))
    ensures var r := Decoded(nonce, Reply(nonce, a)).value;
            if a.Failure? then r.err == Some(a.text) && r.md == r.ts == r.stats == r.changed == []
            else r.err == None && r.md == a.md && r.ts == a.ts && r.stats == a.stats && r.changed == a.changed
    ensures other != nonce ==> Decoded(other, Reply(nonce, a)) == None
  {
    if a.Results? {
      hide Reply, GetOne;
      ReplyHas(nonce, a);
    } else {
      hide GetOne;
      OnlyOfKind(Reply(nonce, a), ErrorPO(nonce, a.text), 0);
    }
  }

  // ---- the steps ----

  // A query that the archiver has evaluated, with the reply on its way.
  datatype Handled = Handled(nonce: int, query: string, answer: Answer)

  // A call of Query: its reply channel, how many messages went in, and what it returned.
  datatype Call = Call(query: string, nonce: int, channel: Option<Handled>, fed: nat, outcome: Outcome)

  datatype Outcome = Running | NoResponse | NotPublished | Returned(from: Handled, result: Result)

  datatype State = State(calls: map<nat, Call>, waiting: map<int, nat>, asked: set<(int, string)>, sent: set<Handled>)

  const EMPTY := State(map[], map[], {}, {})

  datatype Event =
    | Begin(id: nat, query: string, nonce: int)
    | Publish(id: nat)
    | PublishFails(id: nat)
    | OthersAsk(nonce: int, query: string)
    | Handle(nonce: int, query: string, answer: Answer)
    | Dispatch(reply: Handled)
    | Receive(id: nat)
    | TimeOut(id: nat)

  predicate Used(s: State, nonce: int) {
    || (exists id :: id in s.calls && s.calls[id].nonce == nonce)
    || (exists q :: q in s.asked && q.0 == nonce)
  }

  predicate Runs(s: State, id: nat) {
    id in s.calls && s.calls[id].outcome.Running?
  }

  // The dispatcher puts a reply into the waiting channel if that is empty, and forgets the nonce.
  function Dispatched(s: State, h: Handled): State {
    var nonce := NonceOf(Reply(h.nonce, h.answer));
    if nonce.None? || nonce.value !in s.waiting then s else
    var id := s.waiting[nonce.value];
    if id !in s.calls || s.calls[id].channel.Some? then s
    else
      s.(calls := s.calls[id := s.calls[id].(channel := Some(h), fed := s.calls[id].fed + 1)],
         waiting := s.waiting - {nonce.value})
  }

  // The caller takes the message; one that has nothing for it is dropped and the wait goes on.
  function Received(c: Call): Call
    requires c.channel.Some?
  {
    var h := c.channel.value;
    var r := Decoded(c.nonce, Reply(h.nonce, h.answer));
    if r.Some? then c.(channel := None, outcome := Returned(h, r.value)) else c.(channel := None)
  }

  /**
   One step.  Nonces are drawn at random; distinct says that none is drawn twice.  Replies may be
   delivered in any order, more than once or never, and other clients of the same key share the signal.
   */
  ghost function Next(distinct: bool, s: State, e: Event): Option<State> {
    match e
    case Begin(id, query, nonce) =>
      if id in s.calls || (distinct && Used(s, nonce)) then None
      else Some(s.(calls := s.calls[id := Call(query, nonce, None, 0, Running)], waiting := s.waiting[nonce := id]))
    case Publish(id) =>
      if !Runs(s, id) then None else Some(s.(asked := s.asked + {(s.calls[id].nonce, s.calls[id].query)}))
    case PublishFails(id) =>
      if !Runs(s, id) then None else Some(s.(calls := s.calls[id := s.calls[id].(outcome := NotPublished)]))
    case OthersAsk(nonce, query) =>
      if distinct && Used(s, nonce) then None else Some(s.(asked := s.asked + {(nonce, query)}))
    case Handle(nonce, query, answer) =>
      if (nonce, query) !in s.asked then None else Some(s.(sent := s.sent + {Handled(nonce, query, answer)}))
    case Dispatch(h) =>
      if h !in s.sent then None else Some(Dispatched(s, h))
    case Receive(id) =>
      if !Runs(s, id) || s.calls[id].channel.None? then None
      else Some(s.(calls := s.calls[id := Received(s.calls[id])]))
    case TimeOut(id) =>
      if !Runs(s, id) then None else Some(s.(calls := s.calls[id := s.calls[id].(outcome := NoResponse)]))
  }

  ghost function After(distinct: bool, events: seq<Event>): Option<State> {
    if events == [] then Some(EMPTY) else
    var s := After(distinct, events[..|events| - 1]);
    if s.None? then None else Next(distinct, s.value, events[|events| - 1])
  }

  // ---- what holds in every run ----

  predicate CallOk(s: State, c: Call) {
    && c.fed <= 1
    && (c.channel.Some? ==> c.fed == 1 && c.channel.value in s.sent && c.channel.value.nonce == c.nonce)
    && (c.outcome.Returned? ==>
          c.outcome.from in s.sent && c.outcome.from.nonce == c.nonce &&
          c.outcome.result == Delivered(c.outcome.from.answer))
  }

  // A nonce that is waited for belongs to a call that has had no message yet.
  predicate WaitOk(s: State, nonce: int) {
    nonce in s.waiting && s.waiting[nonce] in s.calls &&
    var c := s.calls[s.waiting[nonce]];
    c.nonce == nonce && c.channel.None? && c.fed == 0
  }

  ghost predicate StateOk(s: State) {
    && (forall id :: id in s.calls ==> CallOk(s, s.calls[id]))
    && (forall nonce :: nonce in s.waiting ==> WaitOk(s, nonce))
    && (forall h :: h in s.sent ==> (h.nonce, h.query) in s.asked)
  }

  lemma DispatchOk(s: State, h: Handled)
    requires StateOk(s) && h in s.sent
    ensures StateOk(Dispatched(s, h))
  {
    hide Reply, NonceOf, Delivered;
    ReplyNonce(h.nonce, h.answer);
    var s' := Dispatched(s, h);
    if h.nonce in s.waiting {
      assert WaitOk(s, h.nonce);
      var id := s.waiting[h.nonce];
      assert CallOk(s, s.calls[id]);
      forall n | n in s'.waiting
        ensures WaitOk(s', n)
      {
        assert WaitOk(s, n);
      }
    }
  }

  lemma ReceiveOk(s: State, c: Call)
    requires CallOk(s, c) && c.channel.Some?
    ensures CallOk(s, Received(c)) && Received(c).outcome.Returned?
  {
    hide Reply, Decoded;
    ReplyRoundTrip(c.nonce, c.channel.value.answer, c.nonce);
  }

  lemma NextOk(distinct: bool, s: State, e: Event, s': State)
    requires StateOk(s) && Next(distinct, s, e) == Some(s')
    ensures StateOk(s')
  {
    hide Reply, NonceOf, Delivered, Decoded, Dispatched, Received, Used;
    if e.Dispatch? {
      DispatchOk(s, e.reply);
    } else {
      if e.Receive? {
        ReceiveOk(s, s.calls[e.id]);
      }
      forall id | id in s'.calls
        ensures CallOk(s', s'.calls[id])
      {
        assert id in s.calls ==> CallOk(s, s.calls[id]);
      }
      forall n | n in s'.waiting
        ensures WaitOk(s', n)
      {
        NextWait(distinct, s, e, s', n);
      }
    }
  }

  lemma NextWait(distinct: bool, s: State, e: Event, s': State, n: int)
    requires StateOk(s) && Next(distinct, s, e) == Some(s') && !e.Dispatch? && n in s'.waiting
    ensures WaitOk(s', n)
  {
    hide Reply, NonceOf, Delivered, Decoded, Dispatched, Used, CallOk;
    assert n in s.waiting ==> WaitOk(s, n);
  }

  lemma {:induction false} RunOk(distinct: bool, events: seq<Event>)
    requires After(distinct, events).Some?
    ensures StateOk(After(distinct, events).value)
  {
    hide StateOk, Next;
    if events == [] {
      EmptyOk();
    } else {
      RunOk(distinct, events[..|events| - 1]);
      var before := After(distinct, events[..|events| - 1]).value;
      NextOk(distinct, before, events[|events| - 1], After(distinct, events).value);
    }
  }

  lemma EmptyOk()
    ensures StateOk(EMPTY)
  {
  }

  /**
   In every run: no call is given more than one message, the dispatcher finds the channel of a waiting
   nonce empty, so that its send never blocks and never drops, and a call that takes its message returns.
   */
  lemma OneMessageEach(distinct: bool, events: seq<Event>)
    requires After(distinct, events).Some?
    ensures var s := After(distinct, events).value;
            && (forall id :: id in s.calls ==> s.calls[id].fed <= 1)
            && (forall n :: n in s.waiting ==> s.waiting[n] in s.calls && s.calls[s.waiting[n]].channel.None?)
            && (forall id :: id in s.calls && s.calls[id].channel.Some? ==> Received(s.calls[id]).outcome.Returned?)
  {
    hide Next, Delivered, Received, Reply;
    RunOk(distinct, events);
    var s := After(distinct, events).value;
    forall id | id in s.calls && s.calls[id].channel.Some?
      ensures Received(s.calls[id]).outcome.Returned?
    {
      ReceiveOk(s, s.calls[id]);
    }
    assert forall n :: n in s.waiting ==> WaitOk(s, n);
    assert forall id :: id in s.calls ==> CallOk(s, s.calls[id]);
  }

  // ---- whose answer it is ----

  // A call returns what the archiver answered to the query that the call published.
  predicate Right(s: State) {
    forall id :: id in s.calls && s.calls[id].outcome.Returned? ==>
      s.calls[id].outcome.from.query == s.calls[id].query
  }

  // What was asked under the nonce of a call is its query.
  ghost predicate Attributed(s: State) {
    forall id, query :: id in s.calls && (s.calls[id].nonce, query) in s.asked ==> query == s.calls[id].query
  }

  ghost predicate OneEach(s: State) {
    forall i, j :: i in s.calls && j in s.calls && s.calls[i].nonce == s.calls[j].nonce ==> i == j
  }

  lemma NextAttributed(s: State, e: Event, s': State)
    requires Attributed(s) && OneEach(s) && Next(true, s, e) == Some(s')
    ensures Attributed(s') && OneEach(s')
  {
    hide Reply, NonceOf, Decoded;
  }

  lemma {:induction false} RunAttributed(events: seq<Event>)
    requires After(true, events).Some?
    ensures Attributed(After(true, events).value) && OneEach(After(true, events).value)
  {
    hide Attributed, OneEach, Next;
    if events == [] {
      EmptyAttributed();
    } else {
      RunAttributed(events[..|events| - 1]);
      NextAttributed(After(true, events[..|events| - 1]).value, events[|events| - 1], After(true, events).value);
    }
  }

  lemma EmptyAttributed()
    ensures Attributed(EMPTY) && OneEach(EMPTY)
  {
  }

  ghost predicate AllRight(distinct: bool) {
    forall events :: After(distinct, events).Some? ==> Right(After(distinct, events).value)
  }

  lemma DistinctRight(events: seq<Event>)
    requires After(true, events).Some?
    ensures Right(After(true, events).value)
  {
    hide Next, Delivered;
    RunOk(true, events);
    RunAttributed(events);
    var s := After(true, events).value;
    forall id | id in s.calls && s.calls[id].outcome.Returned?
      ensures s.calls[id].outcome.from.query == s.calls[id].query
    {
      assert CallOk(s, s.calls[id]);
    }
  }

  lemma Go(events: seq<Event>, s: State, e: Event) returns (events': seq<Event>, s': State)
    requires After(false, events) == Some(s) && Next(false, s, e).Some?
    ensures events' == events + [e] && s' == Next(false, s, e).value && After(false, events') == Some(s')
  {
    hide Next;
    events', s' := events + [e], Next(false, s, e).value;
    assert events'[..|events'| - 1] == events;
  }

  // ---- whose answer it is, run by run ----

  // The event draws a nonce.
  predicate Draws(e: Event, nonce: int) {
    (e.Begin? || e.OthersAsk?) && e.nonce == nonce
  }

  // The query was asked under the nonce in a run, by a call or by another client.
  predicate AskedIn(events: seq<Event>, nonce: int, query: string) {
    exists i :: 0 <= i < |events| && Draws(events[i], nonce) && events[i].query == query
  }

  lemma AskedMore(events: seq<Event>, e: Event, nonce: int, query: string)
    ensures AskedIn(events + [e], nonce, query) <==>
            AskedIn(events, nonce, query) || (Draws(e, nonce) && e.query == query)
  {
    var all := events + [e];
    assert all[|events|] == e;
    if i :| 0 <= i < |events| && Draws(events[i], nonce) && events[i].query == query {
      assert all[i] == events[i];
    }
  }

  // Everything asked in a run was asked by an event of it; so was the query of every call.
  ghost predicate Traced(s: State, events: seq<Event>) {
    && (forall nonce, query :: (nonce, query) in s.asked ==> AskedIn(events, nonce, query))
    && forall id :: id in s.calls ==> AskedIn(events, s.calls[id].nonce, s.calls[id].query)
  }

  lemma NextTraced(s: State, events: seq<Event>, e: Event, s': State)
    requires Traced(s, events) && Next(false, s, e) == Some(s')
    ensures Traced(s', events + [e])
  {
    hide Reply, NonceOf, Decoded, AskedIn;
    forall nonce, query
      ensures AskedIn(events + [e], nonce, query) <==>
              AskedIn(events, nonce, query) || (Draws(e, nonce) && e.query == query)
    {
      AskedMore(events, e, nonce, query);
    }
  }

  lemma {:induction false} RunTraced(events: seq<Event>)
    requires After(false, events).Some?
    ensures Traced(After(false, events).value, events)
  {
    hide Traced, Next;
    if events == [] {
      EmptyTraced();
    } else {
      var front := events[..|events| - 1];
      RunTraced(front);
      NextTraced(After(false, front).value, front, events[|events| - 1], After(false, events).value);
      assert front + [events[|events| - 1]] == events;
    }
  }

  lemma EmptyTraced()
    ensures Traced(EMPTY, [])
  {
  }

  /**
   In any run, whatever nonces are drawn: a call under whose nonce nothing but its own query is asked
   returns the answer to its query.
   */
  lemma OwnNonceRight(events: seq<Event>, id: nat)
    requires After(false, events).Some? && id in After(false, events).value.calls
    requires var c := After(false, events).value.calls[id];
             forall query :: AskedIn(events, c.nonce, query) ==> query == c.query
    ensures var c := After(false, events).value.calls[id];
            c.outcome.Returned? ==>
              c.outcome.from.query == c.query && c.outcome.result == Delivered(c.outcome.from.answer)
  {
    hide Next, Delivered, AskedIn;
    RunOk(false, events);
    RunTraced(events);
    var s := After(false, events).value;
    assert CallOk(s, s.calls[id]);
  }

  // The event neither begins nor publishes a query: what is asked stays as it is.
  predicate Calm(e: Event) {
    !e.Begin? && !e.OthersAsk? && !e.Publish?
  }

  // From here on, with nothing more asked, the call may return the answer to another query.
  ghost predicate MayMislead(events: seq<Event>, id: nat) {
    exists more: seq<Event> ::
      && (forall i :: 0 <= i < |more| ==> Calm(more[i]))
      && After(false, events + more).Some? && id in After(false, events + more).value.calls
      && var c := After(false, events + more).value.calls[id];
         c.outcome.Returned? && c.outcome.from.query != c.query
  }

  lemma {:induction false} CalmKeeps(events: seq<Event>, more: seq<Event>, id: nat)
    requires After(false, events).Some? && id in After(false, events).value.calls
    requires After(false, events + more).Some? && forall i :: 0 <= i < |more| ==> Calm(more[i])
    ensures var s, s' := After(false, events).value, After(false, events + more).value;
            && s'.asked == s.asked && id in s'.calls
            && s'.calls[id].nonce == s.calls[id].nonce && s'.calls[id].query == s.calls[id].query
  {
    hide Next;
    var all := events + more;
    if more == [] {
      assert all == events;
    } else {
      var front := more[..|more| - 1];
      assert all[..|all| - 1] == events + front && all[|all| - 1] == more[|more| - 1];
      CalmKeeps(events, front, id);
      CalmStep(After(false, events + front).value, more[|more| - 1], After(false, all).value, id);
    }
  }

  lemma CalmStep(s: State, e: Event, s': State, id: nat)
    requires Next(false, s, e) == Some(s') && Calm(e) && id in s.calls
    ensures s'.asked == s.asked && id in s'.calls
    ensures s'.calls[id].nonce == s.calls[id].nonce && s'.calls[id].query == s.calls[id].query
  {
    hide Reply, NonceOf, Decoded;
  }

  /**
   A call that waits may come to return the answer to another query if and only if another query has been
   asked under its nonce.
   */
  lemma MisledExact(events: seq<Event>, id: nat)
    requires After(false, events).Some?
    requires var s := After(false, events).value;
             Runs(s, id) && s.calls[id].nonce in s.waiting && s.waiting[s.calls[id].nonce] == id
    ensures var s := After(false, events).value;
            MayMislead(events, id) <==>
            exists query :: query != s.calls[id].query && (s.calls[id].nonce, query) in s.asked
  {
    hide Next, Delivered;
    var s := After(false, events).value;
    var nonce := s.calls[id].nonce;
    if MayMislead(events, id) {
      var more: seq<Event> :|
        && (forall i :: 0 <= i < |more| ==> Calm(more[i]))
        && After(false, events + more).Some? && id in After(false, events + more).value.calls
        && var c := After(false, events + more).value.calls[id];
           c.outcome.Returned? && c.outcome.from.query != c.query;
      CalmKeeps(events, more, id);
      RunOk(false, events + more);
      var s' := After(false, events + more).value;
      assert CallOk(s', s'.calls[id]);
      assert (nonce, s'.calls[id].outcome.from.query) in s.asked;
    }
    if query :| query != s.calls[id].query && (nonce, query) in s.asked {
      Mislead(events, id, query);
    }
  }

  lemma Mislead(events: seq<Event>, id: nat, query: string)
    requires After(false, events).Some?
    requires var s := After(false, events).value;
             && Runs(s, id) && s.calls[id].nonce in s.waiting && s.waiting[s.calls[id].nonce] == id
             && query != s.calls[id].query && (s.calls[id].nonce, query) in s.asked
    ensures MayMislead(events, id)
  {
    hide Reply, Decoded, NonceOf, After;
    RunOk(false, events);
    var s := After(false, events).value;
    var nonce, a := s.calls[id].nonce, Failure("");
    assert WaitOk(s, nonce);
    var h := Handled(nonce, query, a);
    ReplyNonce(nonce, a);
    ReplyRoundTrip(nonce, a, nonce);
    var es, t := Go(events, s, Handle(nonce, query, a));
    es, t := Go(es, t, Dispatch(h));
    es, t := Go(es, t, Receive(id));
    var more := [Handle(nonce, query, a), Dispatch(h), Receive(id)];
    assert es == events + more;
    assert t.calls[id].outcome.from == h;
  }

  // Two clients draw the same nonce, and one of them is handed the answer meant for the other.
  lemma Collision() returns (events: seq<Event>, s: State)
    ensures After(false, events) == Some(s) && !Right(s)
  {
    hide Next;
    var es, t := Asked();
    Mislead(es, 0, "theirs");
    var more: seq<Event> :|
      && After(false, es + more).Some? && 0 in After(false, es + more).value.calls
      && var c := After(false, es + more).value.calls[0];
         c.outcome.Returned? && c.outcome.from.query != c.query;
    return es + more, After(false, es + more).value;
  }

  // A call and another client have asked under the same nonce.
  lemma Asked() returns (events: seq<Event>, s: State)
    ensures After(false, events) == Some(s) && Runs(s, 0) && s.calls[0].query == "mine" && s.calls[0].nonce == 7
    ensures 7 in s.waiting && s.waiting[7] == 0 && (7, "theirs") in s.asked
  {
    assert After(false, []) == Some(EMPTY);
    var es, t := Go([], EMPTY, Begin(0, "mine", 7));
    es, t := Go(es, t, OthersAsk(7, "theirs"));
    return es, t;
  }

  /** Every call gets the answer to its own query exactly because no nonce is drawn twice. */
  lemma AnswersExact(distinct: bool)
    ensures AllRight(distinct) <==> distinct
  {
    hide Right;
    if distinct {
      forall events | After(distinct, events).Some?
        ensures Right(After(distinct, events).value)
      {
        DistinctRight(events);
      }
    } else {
      var events, s := Collision();
      assert !Right(After(false, events).value);
    }
  }
}
