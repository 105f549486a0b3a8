/**
 What a key may read of a stream (dots/range.go:113-178, dots/master.go:64-92): every chain of grants
 leaves the intersection of its windows open, and the ranges of all chains are merged into one set.
 */
module Permissions {
  import opened Wrappers
  import opened Bytes
  import opened Ranges
  import opened RangeMerges
  import opened RangeObjects

  const END_OF_TIME := 0x7fff_ffff_ffff_ffff

  // A time field of an archive URI, archive/start/<t1>/end/<t2>/<uri>.
  datatype Field = Plus | Number(n: int) | Garbled

  // The two time fields of an archival grant, and whether its URI is on the archive namespace.
  datatype ArchiveGrant = ArchiveGrant(onArchive: bool, start: Field, end: Field)

  // parseArchiveURI under a namespace: an open end reaches to the end of time, a garbled one is an error.
  function ParseArchive(onArchive: bool, a: ArchiveGrant): Option<Span> {
    if !onArchive || a.start.Garbled? || a.end.Garbled? then None
    else Some(Span(if a.start.Plus? then 0 else a.start.n, if a.end.Plus? then END_OF_TIME else a.end.n))
  }

  // The intersection of the windows of a chain, whether or not it is empty.
  function Window(chain: seq<Span>): Span
    requires chain != []
  {
    if |chain| == 1 then chain[0] else
    var w, last := Window(chain[..|chain| - 1]), chain[|chain| - 1];
    Span(Max(w.lo, last.lo), Min(w.hi, last.hi))
  }

  ghost predicate AllCover(chain: seq<Span>, t: int) {
    forall i :: 0 <= i < |chain| ==> Covers(chain[i], t)
  }

  /** An instant is in the window of a chain exactly when every grant of the chain covers it. */
  lemma {:induction false} WindowExact(chain: seq<Span>, t: int)
    requires chain != []
    ensures Covers(Window(chain), t) <==> AllCover(chain, t)
  {
    if |chain| > 1 {
      var front := chain[..|chain| - 1];
      WindowExact(front, t);
      assert forall i :: 0 <= i < |front| ==> front[i] == chain[i];
      assert AllCover(chain, t) <==> AllCover(front, t) && Covers(chain[|chain| - 1], t);
    }
  }

  function Parsed(onArchive: bool, chain: seq<ArchiveGrant>): Option<seq<Span>> {
    if chain == [] then Some([]) else
    var front, last := Parsed(onArchive, chain[..|chain| - 1]), ParseArchive(onArchive, chain[|chain| - 1]);
    if front.None? || last.None? then None else Some(front.value + [last.value])
  }

  // The URIs of a chain are all taken to be in the namespace of its first grant.
  function ParsedChain(chain: seq<ArchiveGrant>): Option<seq<Span>> {
    if chain == [] then Some([]) else Parsed(chain[0].onArchive, chain)
  }

  // The range of a chain; there is none without grants or with one that does not parse.
  function AccessWindow(chain: seq<Span>): Option<Span> {
    if chain == [] then None else Some(Window(chain))
  }

  function ArchivalWindow(chain: seq<ArchiveGrant>): Option<Span> {
    var spans := ParsedChain(chain);
    if spans.None? then None else AccessWindow(spans.value)
  }

  // The object that the range of a chain becomes.
  predicate Makes(rng: TimeRange?, w: Option<Span>)
    reads rng
  {
    if rng == null then w.None? else w == Some(rng.View())
  }

  method Narrow(rng: TimeRange, s: Span)
    modifies rng
    ensures rng.View() == Span(Max(old(rng.Start), s.lo), Min(old(rng.End), s.hi))
  {
    if rng.Start < s.lo {
      rng.Start := s.lo;
    }
    if rng.End > s.hi {
      rng.End := s.hi;
    }
  }

  method IntersectAccessTimes(chain: seq<Span>) returns (rng: TimeRange?)
    ensures (rng != null ==> fresh(rng)) && Makes(rng, AccessWindow(chain))
  {
    if |chain| == 0 {
      return null;
    }
    var r := new TimeRange(chain[0].lo, chain[0].hi);
    var i := 1;
    assert chain[..1] == [chain[0]];
    while i < |chain|
      invariant 1 <= i <= |chain| && fresh(r) && r.View() == Window(chain[..i])
    {
      assert chain[..i + 1][..i] == chain[..i];
      Narrow(r, chain[i]);
      i := i + 1;
    }
    assert chain[..i] == chain;
    return r;
  }

  method IntersectArchivalTimes(chain: seq<ArchiveGrant>) returns (rng: TimeRange?)
    ensures (rng != null ==> fresh(rng)) && Makes(rng, ArchivalWindow(chain))
  {
    if |chain| == 0 {
      return null;
    }
    var namespace := chain[0].onArchive;
    assert chain[..1] == [chain[0]] && chain[..1][..0] == [];
    ParsedFails(namespace, chain, 0);
    var first := ParseArchive(namespace, chain[0]);
    if first.None? {
      return null;
    }
    var r := new TimeRange(first.value.lo, first.value.hi);
    var i := 1;
    ParsedOne(namespace, chain[0]);
    while i < |chain|
      invariant 1 <= i <= |chain| && fresh(r)
      invariant ArchivalWindow(chain[..i]) == Some(r.View())
    {
      assert chain[..i + 1][..i] == chain[..i];
      ParsedFails(namespace, chain, i);
      var s := ParseArchive(namespace, chain[i]);
      if s.None? {
        return null;
      }
      ghost var spans := Parsed(namespace, chain[..i]).value;
      assert (spans + [s.value])[..|spans|] == spans;
      Narrow(r, s.value);
      i := i + 1;
    }
    assert chain[..i] == chain;
    return r;
  }

  lemma ParsedOne(onArchive: bool, a: ArchiveGrant)
    requires ParseArchive(onArchive, a).Some?
    ensures Parsed(onArchive, [a]) == Some([ParseArchive(onArchive, a).value])
  {
    var one := [a];
    assert one[..|one| - 1] == [] && Parsed(onArchive, []) == Some([]);
    assert [] + [ParseArchive(onArchive, a).value] == [ParseArchive(onArchive, a).value];
  }

  lemma {:induction false} ParsedFails(onArchive: bool, chain: seq<ArchiveGrant>, i: nat)
    requires i < |chain|
    ensures ParseArchive(onArchive, chain[i]).None? ==> Parsed(onArchive, chain).None?
  {
    if i < |chain| - 1 {
      ParsedFails(onArchive, chain[..|chain| - 1], i);
    }
  }

  lemma {:induction false} ParsedIs(onArchive: bool, chain: seq<ArchiveGrant>)
    ensures Parsed(onArchive, chain).None? <==>
            exists i :: 0 <= i < |chain| && ParseArchive(onArchive, chain[i]).None?
  {
    if i :| 0 <= i < |chain| && ParseArchive(onArchive, chain[i]).None? {
      ParsedFails(onArchive, chain, i);
    } else if chain != [] {
      var front := chain[..|chain| - 1];
      ParsedIs(onArchive, front);
      assert forall i :: 0 <= i < |front| ==> front[i] == chain[i];
    }
  }

  /**
   A chain has no range exactly when it has no grants, the first is off the archive namespace, or the time
   fields of one are garbled; the namespaces of later grants do not matter.
   */
  lemma ParsedExact(chain: seq<ArchiveGrant>)
    ensures ArchivalWindow(chain).None? <==>
            || chain == [] || !chain[0].onArchive
            || exists i :: 0 <= i < |chain| && (chain[i].start.Garbled? || chain[i].end.Garbled?)
  {
    if chain != [] {
      ParsedIs(chain[0].onArchive, chain);
      ParsedLength(chain[0].onArchive, chain);
      if i :| 0 <= i < |chain| && (chain[i].start.Garbled? || chain[i].end.Garbled?) {
        assert ParseArchive(chain[0].onArchive, chain[i]).None?;
      }
      if !chain[0].onArchive {
        assert ParseArchive(chain[0].onArchive, chain[0]).None?;
      }
    }
  }

  lemma {:induction false} ParsedLength(onArchive: bool, chain: seq<ArchiveGrant>)
    ensures Parsed(onArchive, chain).Some? ==> |Parsed(onArchive, chain).value| == |chain|
  {
    if chain != [] {
      ParsedLength(onArchive, chain[..|chain| - 1]);
    }
  }

  // The instants that the two time fields of a grant leave open: an open end stands for an end of time.
  predicate Admits(g: ArchiveGrant, t: int) {
    && (match g.start case Plus => 0 <= t case Number(n) => n <= t case Garbled => false)
    && (match g.end case Plus => t <= 0x7fff_ffff_ffff_ffff case Number(n) => t <= n case Garbled => false)
  }

  // The first grant is on the archive namespace, and every grant admits the instant.
  ghost predicate AllAdmit(chain: seq<ArchiveGrant>, t: int) {
    chain != [] && chain[0].onArchive && forall i :: 0 <= i < |chain| ==> Admits(chain[i], t)
  }

  lemma {:induction false} ParsedAt(onArchive: bool, chain: seq<ArchiveGrant>, i: nat)
    requires Parsed(onArchive, chain).Some? && i < |chain|
    ensures |Parsed(onArchive, chain).value| == |chain|
    ensures ParseArchive(onArchive, chain[i]) == Some(Parsed(onArchive, chain).value[i])
  {
    ParsedLength(onArchive, chain);
    if i < |chain| - 1 {
      ParsedAt(onArchive, chain[..|chain| - 1], i);
      ParsedLength(onArchive, chain[..|chain| - 1]);
    }
  }

  /** An instant is in the window of an archival chain exactly when the time fields of every grant admit it. */
  lemma ArchivalExact(chain: seq<ArchiveGrant>, t: int)
    requires ArchivalWindow(chain).Some?
    ensures Covers(ArchivalWindow(chain).value, t) <==> AllAdmit(chain, t)
  {
    ParsedExact(chain);
    var on := chain[0].onArchive;
    var spans := ParsedChain(chain).value;
    WindowExact(spans, t);
    ParsedLength(on, chain);
    forall i | 0 <= i < |chain|
      ensures Covers(spans[i], t) <==> Admits(chain[i], t)
    {
      ParsedAt(on, chain, i);
    }
  }

  // ---- the set of a key and a stream ----

  // A set of ranges; or one whose only member is nil; or no result, a nil range being dereferenced.
  datatype Outcome = Valid(ranges: DisjointRanges) | NilRange | Crash

  // The same of values.
  datatype Result = Spans(rs: seq<Span>) | OnlyNil | Crashed

  function Values(ws: seq<Option<Span>>): seq<Span> {
    if ws == [] then []
    else Values(ws[..|ws| - 1]) + (if ws[|ws| - 1].Some? then [ws[|ws| - 1].value] else [])
  }

  // Merging the ranges of the chains, nil ones included.
  function Combined(ws: seq<Option<Span>>): Result {
    if None !in ws then Spans(MergedAll([], Values(ws)))
    else if |ws| == 1 then OnlyNil
    else Crashed
  }

  // The objects that an outcome consists of.
  function Footprint(o: Outcome): set<object>
    reads if o.Valid? then {o.ranges} else {}
  {
    if o.Valid? then {o.ranges} + set x: object | x in o.ranges.Ranges else {}
  }

  predicate Agrees(o: Outcome, r: Result)
    reads Footprint(o)
  {
    match o
    case Valid(s) => r == Spans(s.View())
    case NilRange => r == OnlyNil
    case Crash => r == Crashed
  }

  function AccessWindows(chains: seq<seq<Span>>): (ws: seq<Option<Span>>)
    ensures |ws| == |chains| && forall i :: 0 <= i < |ws| ==> ws[i] == AccessWindow(chains[i])
  {
    seq(|chains|, i requires 0 <= i < |chains| => AccessWindow(chains[i]))
  }

  function ArchivalWindows(chains: seq<seq<ArchiveGrant>>): (ws: seq<Option<Span>>)
    ensures |ws| == |chains| && forall i :: 0 <= i < |ws| ==> ws[i] == ArchivalWindow(chains[i])
  {
    seq(|chains|, i requires 0 <= i < |chains| => ArchivalWindow(chains[i]))
  }

  // Merge, with the dereferences of nil that stop the program.
  method MergeWindow(o: Outcome, rng: TimeRange?, ghost ws: seq<Option<Span>>, ghost w: Option<Span>)
    returns (o': Outcome)
    requires Agrees(o, Combined(ws)) && Makes(rng, w)
    requires o.Valid? ==> Distinct(o.ranges.Ranges) && rng !in o.ranges.Ranges
    modifies Footprint(o)
    ensures Agrees(o', Combined(ws + [w]))
    ensures o'.Valid? ==> o.Valid? && o'.ranges == o.ranges && Distinct(o.ranges.Ranges)
    ensures o'.Valid? ==> forall x :: x in o'.ranges.Ranges ==> x in old(o.ranges.Ranges) || x == rng
  {
    hide Combined, Merged;
    CombinedSnoc(ws, w);
    match o
    case Crash => return Crash;
    case NilRange => return Crash;
    case Valid(s) =>
      if rng == null {
        if |s.Ranges| == 0 {
          return NilRange;
        }
        return Crash;
      }
      s.Merge(rng);
      return Valid(s);
  }

  lemma CombinedSnoc(ws: seq<Option<Span>>, w: Option<Span>)
    ensures Combined(ws + [w]) ==
            match Combined(ws)
            case Spans(rs) => if w.Some? then Spans(Merged(rs, w.value)) else if rs == [] then OnlyNil else Crashed
            case _ => Crashed
  {
    var all := ws + [w];
    assert all[..|all| - 1] == ws && (None in all <==> None in ws || w == None);
    ViewsEmpty(ws);
    if None !in all {
      assert Values(all) == Values(ws) + [w.value];
      assert Values(all)[..|Values(all)| - 1] == Values(ws);
    }
  }

  lemma {:induction false} ViewsEmpty(ws: seq<Option<Span>>)
    ensures None !in ws ==> |Values(ws)| == |ws|
    ensures None !in ws && ws != [] ==> MergedAll([], Values(ws)) != []
  {
    if ws != [] {
      ViewsEmpty(ws[..|ws| - 1]);
    }
  }

  // All objects of the outcome are new, and its ranges are different ones.
  twostate predicate Fresh(new o: Outcome)
    reads if o.Valid? then {o.ranges} else {}
  {
    o.Valid? ==> fresh(o.ranges) && Distinct(o.ranges.Ranges) && forall x :: x in o.ranges.Ranges ==> fresh(x)
  }

  method MergeAccess(access: seq<seq<Span>>) returns (r: Outcome)
    ensures Agrees(r, Combined(AccessWindows(access))) && Fresh(r)
  {
    hide AccessWindow, Combined;
    var ranges := new DisjointRanges();
    r := Valid(ranges);
    var i := 0;
    NothingCombined(ranges);
    assert AccessWindows(access)[..0] == [];
    while i < |access|
      invariant 0 <= i <= |access| && Agrees(r, Combined(AccessWindows(access)[..i])) && Fresh(r)
    {
      var rng := IntersectAccessTimes(access[i]);
      ghost var ws := AccessWindows(access);
      r := MergeWindow(r, rng, ws[..i], ws[i]);
      assert ws[..i + 1] == ws[..i] + [ws[i]];
      i := i + 1;
    }
    assert AccessWindows(access)[..i] == AccessWindows(access);
  }

  lemma NothingCombined(s: DisjointRanges)
    requires s.Ranges == []
    ensures Agrees(Valid(s), Combined([]))
  {
  }

  method MergeArchival(r0: Outcome, ghost before: seq<Option<Span>>,
    archival: seq<seq<ArchiveGrant>>) returns (r: Outcome)
    requires Agrees(r0, Combined(before)) && (r0.Valid? ==> Distinct(r0.ranges.Ranges))
    modifies Footprint(r0)
    ensures Agrees(r, Combined(before + ArchivalWindows(archival)))
    ensures r.Valid? ==> r0.Valid? && r.ranges == r0.ranges && Distinct(r.ranges.Ranges)
  {
    hide ArchivalWindow, Combined;
    r := r0;
    var i := 0;
    assert before + ArchivalWindows(archival)[..0] == before;
    while i < |archival|
      invariant 0 <= i <= |archival| && Agrees(r, Combined(before + ArchivalWindows(archival)[..i]))
      invariant r.Valid? ==> r0.Valid? && r.ranges == r0.ranges && Distinct(r.ranges.Ranges)
      invariant r.Valid? ==> forall x :: x in r.ranges.Ranges ==> x in old(r0.ranges.Ranges) || fresh(x)
    {
      var rng := IntersectArchivalTimes(archival[i]);
      ghost var ws := ArchivalWindows(archival);
      r := MergeWindow(r, rng, before + ws[..i], ws[i]);
      assert before + ws[..i + 1] == before + ws[..i] + [ws[i]];
      i := i + 1;
    }
    assert ArchivalWindows(archival)[..i] == ArchivalWindows(archival);
  }

  // What the lookups found, merged as far as they got.
  function CombinedFound(access: Option<seq<seq<Span>>>, archival: Option<seq<seq<ArchiveGrant>>>): Result {
    if access.None? then Combined([])
    else if archival.None? then Combined(AccessWindows(access.value))
    else Combined(AccessWindows(access.value) + ArchivalWindows(archival.value))
  }

  lemma NothingIs()
    ensures Combined(AccessWindows([])) == Combined([]) == Spans([])
  {
    assert AccessWindows([]) == [];
  }

  // GetValidRanges without the cache.
  method Collect(access: Option<seq<seq<Span>>>, archival: Option<seq<seq<ArchiveGrant>>>)
    returns (r: Outcome, err: bool)
    ensures Agrees(r, CombinedFound(access, archival)) && (r.Valid? ==> fresh(r.ranges))
    ensures err <==> !r.Crash? && (access.None? || archival.None?)
    ensures access.None? ==> r.Valid? && r.ranges.Ranges == []
  {
    hide Combined;
    if access.None? {
      r := MergeAccess([]);
      NothingIs();
      assert |r.ranges.View()| == 0;
      return r, !r.Crash?;
    }
    r := MergeAccess(access.value);
    if archival.None? {
      return r, !r.Crash?;
    }
    r := MergeArchival(r, AccessWindows(access.value), archival.value);
    err := false;
  }

  class DotMaster {
    var cache: map<(Str, Str), Outcome>

    constructor ()
      ensures cache == map[]
    {
      cache := map[];
    }

    /**
     The set for a stream and a key: from the cache unless it has expired, else the merge of the ranges
     of the access chains and then of the archival chains.  A hit hands out the cached object itself.  A
     failed lookup of chains ends it with an error and what has been merged so far, and nothing is cached.
     */
    method GetValidRanges(uri: Str, vk: Str, expired: bool, access: Option<seq<seq<Span>>>,
                          archival: Option<seq<seq<ArchiveGrant>>>)
      returns (r: Outcome, err: bool)
      modifies this
      ensures var hit := (uri, vk) in old(cache) && !expired;
              && (hit ==> r == old(cache)[(uri, vk)] && !err && cache == old(cache))
              && (!hit ==>
                    && Agrees(r, CombinedFound(access, archival))
                    && (r.Valid? ==> fresh(r.ranges))
                    && (err <==> !r.Crash? && (access.None? || archival.None?))
                    && (access.None? ==> r.Valid? && r.ranges.Ranges == [])
                    && cache == if r.Crash? || err then old(cache) else old(cache)[(uri, vk) := r])
    {
      hide CombinedFound;
      if (uri, vk) in cache && !expired {
        return cache[(uri, vk)], false;
      }
      r, err := Collect(access, archival);
      if !r.Crash? && !err {
        cache := cache[(uri, vk) := r];
      }
    }
  }

  // ---- what the set permits ----

  // An instant that every grant of one chain covers.
  ghost predicate Open(access: seq<seq<Span>>, archival: seq<seq<ArchiveGrant>>, t: int) {
    || (exists i :: 0 <= i < |access| && access[i] != [] && AllCover(access[i], t))
    || (exists j :: 0 <= j < |archival| && AllAdmit(archival[j], t))
  }

  lemma {:induction false} ValuesAre(ws: seq<Option<Span>>, i: nat)
    requires None !in ws && i < |ws|
    ensures |Values(ws)| == |ws| && ws[i] == Some(Values(ws)[i])
  {
    ViewsEmpty(ws);
    if i < |ws| - 1 {
      ViewsEmpty(ws[..|ws| - 1]);
      ValuesAre(ws[..|ws| - 1], i);
    }
  }

  lemma OpenIsCovered(access: seq<seq<Span>>, archival: seq<seq<ArchiveGrant>>, t: int)
    requires None !in AccessWindows(access) + ArchivalWindows(archival)
    ensures Open(access, archival, t) <==> Covered(Values(AccessWindows(access) + ArchivalWindows(archival)), t)
  {
    hide AllCover, AllAdmit, Window, ArchivalWindow;
    var n, ws := |access|, AccessWindows(access) + ArchivalWindows(archival);
    ViewsEmpty(ws);
    forall i | 0 <= i < n
      ensures access[i] != [] && (AllCover(access[i], t) <==> Covers(Values(ws)[i], t))
    {
      assert ws[i] == AccessWindow(access[i]);
      ValuesAre(ws, i);
      WindowExact(access[i], t);
    }
    forall j | 0 <= j < |archival|
      ensures AllAdmit(archival[j], t) <==> Covers(Values(ws)[n + j], t)
    {
      assert ws[n + j] == ArchivalWindow(archival[j]);
      ValuesAre(ws, n + j);
      ArchivalExact(archival[j], t);
    }
    if Covered(Values(ws), t) {
      var k :| 0 <= k < |Values(ws)| && Covers(Values(ws)[k], t);
      if k >= n {
        assert AllAdmit(archival[k - n], t);
      }
    }
  }

  // A chain of grants without a range: no grants, or for archival chains what ParsedExact says.
  predicate Rangeless(chain: seq<ArchiveGrant>) {
    || chain == [] || !chain[0].onArchive
    || exists i :: 0 <= i < |chain| && (chain[i].start.Garbled? || chain[i].end.Garbled?)
  }

  // Some chain has no range.
  ghost predicate AnyRangeless(access: seq<seq<Span>>, archival: seq<seq<ArchiveGrant>>) {
    [] in access || exists j :: 0 <= j < |archival| && Rangeless(archival[j])
  }

  lemma NilExists(access: seq<seq<Span>>, archival: seq<seq<ArchiveGrant>>)
    ensures None in AccessWindows(access) + ArchivalWindows(archival) <==> AnyRangeless(access, archival)
  {
    hide ArchivalWindow, Rangeless, Window;
    var xs, ys := AccessWindows(access), ArchivalWindows(archival);
    assert None in xs + ys <==> None in xs || None in ys;
    if j :| 0 <= j < |archival| && Rangeless(archival[j]) {
      RangelessIs(archival[j]);
      assert ys[j] == None;
    }
    if None in ys {
      var j :| 0 <= j < |ys| && ys[j] == None;
      RangelessIs(archival[j]);
    }
    if [] in access {
      var i :| 0 <= i < |access| && access[i] == [];
      assert xs[i] == None;
    }
  }

  /**
   When merging stops the program or leaves a nil range: a chain without a range stops it unless it is the
   only chain there is.
   */
  lemma StopsExact(access: seq<seq<Span>>, archival: seq<seq<ArchiveGrant>>)
    ensures var r, nil := Combined(AccessWindows(access) + ArchivalWindows(archival)), AnyRangeless(access, archival);
            && (r.Spans? <==> !nil)
            && (r.OnlyNil? <==> nil && |access| + |archival| == 1)
            && (r.Crashed? <==> nil && |access| + |archival| > 1)
  {
    hide AnyRangeless, AccessWindow, ArchivalWindow, Values, MergedAll;
    NilExists(access, archival);
  }

  lemma RangelessIs(chain: seq<ArchiveGrant>)
    ensures ArchivalWindow(chain).None? <==> Rangeless(chain)
  {
    ParsedExact(chain);
  }

  /**
   When every chain has a range, the set permits every instant that all grants of some chain cover, and
   nothing else if and only if the windows of the chains make no false join.  Its members have no instant in
   common if and only if none of the windows bridges earlier ones.
   */
  lemma PermittedExact(access: seq<seq<Span>>, archival: seq<seq<ArchiveGrant>>, rs: seq<Span>)
    requires Combined(AccessWindows(access) + ArchivalWindows(archival)) == Spans(rs)
    ensures forall t :: Open(access, archival, t) ==> Covered(rs, t)
    ensures (forall t :: Covered(rs, t) <==> Open(access, archival, t)) <==>
            NoFalseJoin(Values(AccessWindows(access) + ArchivalWindows(archival)))
    ensures var ws := Values(AccessWindows(access) + ArchivalWindows(archival));
            NoTwice(rs) <==> forall j, c :: 0 <= j < |ws| ==> !Bridges(ws, j, c)
  {
    hide Open, NoFalseJoin, Covered, Bridges, NoTwice;
    var ws := AccessWindows(access) + ArchivalWindows(archival);
    forall t
      ensures Open(access, archival, t) <==> Covered(Values(ws), t)
      ensures Open(access, archival, t) ==> Covered(rs, t)
    {
      OpenIsCovered(access, archival, t);
      if Covered(Values(ws), t) {
        NeverLoses(Values(ws), t);
      }
    }
    MergeExact(Values(ws));
    ApartExact(Values(ws));
  }

  /** An empty intersection is not ignored: it widens the member it is merged into. */
  lemma EmptyWidens()
    ensures var grants := [[Span(5, 10)], [Span(30, 40), Span(1, 20)]];
            && Combined(AccessWindows(grants) + ArchivalWindows([])) == Spans([Span(5, 20)])
            && !Open(grants, [], 15)
  {
    var inverted := [Span(30, 40), Span(1, 20)];
    assert inverted[..|inverted| - 1] == [Span(30, 40)] && Window([Span(30, 40)]) == Span(30, 40);
    assert Window(inverted) == Span(30, 20);
    var grants := [[Span(5, 10)], inverted];
    var ws := AccessWindows(grants) + ArchivalWindows([]);
    assert ws[0] == Some(Span(5, 10)) && ws[1] == Some(Span(30, 20));
    assert ws == [ws[0], ws[1]];
    ValuesAre(ws, 0);
    ValuesAre(ws, 1);
    var vs := Values(ws);
    assert vs == [Span(5, 10), Span(30, 20)];
    assert vs[..|vs| - 1] == [Span(5, 10)] && [Span(5, 10)][..0] == [];
    assert MergedAll([], []) == [] && MergedAll([], [Span(5, 10)]) == [Span(5, 10)];
    assert !Covers(grants[0][0], 15) && !Covers(grants[1][0], 15);
  }
}
