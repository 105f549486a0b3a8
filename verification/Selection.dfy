/**
 Reading data under permissions (archiver/api.go): SelectDataRange cuts the request down to what is
 permitted before it reads, maskTimeseriesByPermission reads first and takes slices after.
 */
module Selection {
  import opened Ranges
  import opened RangeObjects

  datatype Reading = Reading(time: int, value: int)

  // ---- SelectDataRange (lines 25-66) ----

  // The records of a stream in a range, in their order.
  function InWindow(data: seq<Reading>, s: Span): seq<Reading> {
    if data == [] then []
    else InWindow(data[..|data| - 1], s) + (if Covers(s, data[|data| - 1].time) then [data[|data| - 1]] else [])
  }

  function Truncated(rs: seq<Reading>, limit: int): seq<Reading> {
    if limit > 0 && |rs| > limit then rs[..limit] else rs
  }

  // One range after the other is read and appended, and the limit applied each time.
  function Collected(data: seq<Reading>, ranges: seq<Span>, limit: int): seq<Reading> {
    if ranges == [] then []
    else
      Truncated(Collected(data, ranges[..|ranges| - 1], limit) + InWindow(data, ranges[|ranges| - 1]), limit)
  }

  function Concatenated(data: seq<Reading>, ranges: seq<Span>): seq<Reading> {
    if ranges == [] then [] else Concatenated(data, ranges[..|ranges| - 1]) + InWindow(data, ranges[|ranges| - 1])
  }

  /** Applying the limit after every range is applying it once at the end. */
  lemma {:induction false} TruncateOnce(data: seq<Reading>, ranges: seq<Span>, limit: int)
    ensures Collected(data, ranges, limit) == Truncated(Concatenated(data, ranges), limit)
  {
    if ranges != [] {
      TruncateOnce(data, ranges[..|ranges| - 1], limit);
    }
  }

  // The request as stream i sees it, after the sets of the streams before have cut it down.
  function RequestAt(sets: seq<seq<Span>>, q: Span, i: nat): Span
    requires i <= |sets|
  {
    if i == 0 then q else Shrunk(sets[i - 1], RequestAt(sets, q, i - 1))
  }

  function Selected(sets: seq<seq<Span>>, data: seq<seq<Reading>>, q: Span, limit: int, i: nat): seq<Reading>
    requires i < |sets| == |data|
  {
    Collected(data[i], Overlap(sets[i], RequestAt(sets, q, i)), limit)
  }

  lemma SelectedIs(sets: seq<seq<Span>>, data: seq<seq<Reading>>, q: Span, limit: int, i: nat)
    requires i < |sets| == |data|
    ensures Selected(sets, data, q, limit, i) == Collected(data[i], Overlap(sets[i], RequestAt(sets, q, i)), limit)
  {
  }

  /** A positive limit keeps the first records, as many as it says or as there are; any other drops nothing. */
  lemma LimitExact(sets: seq<seq<Span>>, data: seq<seq<Reading>>, q: Span, limit: int, i: nat)
    requires i < |sets| == |data|
    ensures var some, full := Selected(sets, data, q, limit, i), Selected(sets, data, q, 0, i);
            && (limit > 0 ==> some <= full && |some| == Min(limit, |full|))
            && (limit <= 0 ==> some == full)
  {
    var o := Overlap(sets[i], RequestAt(sets, q, i));
    TruncateOnce(data[i], o, limit);
    TruncateOnce(data[i], o, 0);
  }

  /**
   The streams are read one by one; the one request object goes through every GetOverlap.  The sets, one
   for each stream and perhaps shared, keep their members.
   */
  method SelectDataRange(begin: int, end: int, sets: seq<DisjointRanges>, ghost views: seq<seq<Span>>,
                         data: seq<seq<Reading>>, limit: int)
    returns (result: seq<seq<Reading>>)
    requires |sets| == |views| == |data| && forall i :: 0 <= i < |sets| ==> sets[i].View() == views[i]
    ensures forall i :: 0 <= i < |sets| ==> sets[i].View() == views[i]
    ensures |result| == |data|
    ensures forall i :: 0 <= i < |data| ==> result[i] == Selected(views, data, Span(begin, end), limit, i)
    ensures limit > 0 ==> forall i :: 0 <= i < |data| ==>
              var full := Selected(views, data, Span(begin, end), 0, i);
              result[i] <= full && |result[i]| == Min(limit, |full|)
    ensures limit <= 0 ==> forall i :: 0 <= i < |data| ==> result[i] == Selected(views, data, Span(begin, end), 0, i)
  {
    hide Overlap, Shrunk, Selected;
    var requestedRange := new TimeRange(begin, end);
    result := [];
    var idx := 0;
    while idx < |data|
      invariant 0 <= idx <= |data| && |result| == idx
      invariant forall i :: 0 <= i < |sets| ==> sets[i].View() == views[i] && sets[i].Ranges == old(sets[i].Ranges)
      invariant requestedRange.View() == RequestAt(views, Span(begin, end), idx)
      invariant forall i :: 0 <= i < idx ==> result[i] == Selected(views, data, Span(begin, end), limit, i)
    {
      var records := ReadStream(sets[idx], requestedRange, data[idx], limit);
      SelectedIs(views, data, Span(begin, end), limit, idx);
      result := result + [records];
      idx := idx + 1;
    }
    forall i | 0 <= i < |data|
      ensures var full := Selected(views, data, Span(begin, end), 0, i);
              && (limit > 0 ==> result[i] <= full && |result[i]| == Min(limit, |full|))
              && (limit <= 0 ==> result[i] == full)
    {
      LimitExact(views, data, Span(begin, end), limit, i);
    }
  }

  // The part of one stream: the overlap, and the reading of its ranges.
  method ReadStream(ranges: DisjointRanges, requestedRange: TimeRange, data: seq<Reading>, limit: int)
    returns (records: seq<Reading>)
    requires requestedRange !in ranges.Ranges
    modifies requestedRange
    ensures requestedRange.View() == Shrunk(ranges.View(), old(requestedRange.View()))
    ensures records == Collected(data, Overlap(ranges.View(), old(requestedRange.View())), limit)
  {
    hide Overlap;
    var valid := ranges.GetOverlap(requestedRange);
    records := ReadRanges(data, valid, limit);
  }

  // The inner loop: every range of the overlap is read.
  method ReadRanges(data: seq<Reading>, valid: DisjointRanges, limit: int) returns (records: seq<Reading>)
    ensures records == Collected(data, valid.View(), limit)
  {
    records := [];
    var i := 0;
    while i < |valid.Ranges|
      invariant 0 <= i <= |valid.Ranges| && records == Collected(data, valid.View()[..i], limit)
    {
      assert valid.View()[..i + 1][..i] == valid.View()[..i];
      records := records + InWindow(data, valid.Ranges[i].View());
      if limit > 0 && |records| > limit {
        records := records[..limit];
      }
      i := i + 1;
    }
    assert valid.View()[..i] == valid.View();
  }

  lemma {:induction false} WindowHas(data: seq<Reading>, s: Span, x: Reading)
    ensures x in InWindow(data, s) <==> x in data && Covers(s, x.time)
  {
    if data != [] {
      WindowHas(data[..|data| - 1], s, x);
      assert x in data <==> x in data[..|data| - 1] || x == data[|data| - 1];
    }
  }

  lemma NoneCovered(t: int)
    ensures !Covered([], t)
  {
  }

  lemma CoveredSnoc(ranges: seq<Span>, t: int)
    requires ranges != []
    ensures Covered(ranges, t) <==> Covered(ranges[..|ranges| - 1], t) || Covers(ranges[|ranges| - 1], t)
  {
    var front := ranges[..|ranges| - 1];
    if i :| 0 <= i < |front| && Covers(front[i], t) {
      assert Covers(ranges[i], t);
    }
    if i :| 0 <= i < |ranges| && Covers(ranges[i], t) && i < |front| {
      assert Covers(front[i], t);
    }
  }

  lemma {:induction false} ConcatenatedHas(data: seq<Reading>, ranges: seq<Span>, x: Reading)
    ensures x in Concatenated(data, ranges) <==> x in data && Covered(ranges, x.time)
  {
    hide Covered, Covers;
    if ranges == [] {
      NoneCovered(x.time);
    } else {
      var front, last := ranges[..|ranges| - 1], ranges[|ranges| - 1];
      ConcatenatedHas(data, front, x);
      WindowHas(data, last, x);
      CoveredSnoc(ranges, x.time);
    }
  }

  lemma {:induction false} RequestShrinks(sets: seq<seq<Span>>, q: Span, i: nat)
    requires i <= |sets|
    ensures q.lo <= RequestAt(sets, q, i).lo && RequestAt(sets, q, i).hi <= q.hi
  {
    if i > 0 {
      RequestShrinks(sets, q, i - 1);
      ShrunkWithin(sets[i - 1], RequestAt(sets, q, i - 1));
    }
  }

  /** Every record that is returned is one of its stream, in the requested window and in the permitted set. */
  lemma SelectionSound(sets: seq<seq<Span>>, data: seq<seq<Reading>>, q: Span, limit: int, i: nat, x: Reading)
    requires i < |sets| == |data| && x in Selected(sets, data, q, limit, i)
    ensures x in data[i] && Covers(q, x.time) && Covered(sets[i], x.time)
  {
    var r := RequestAt(sets, q, i);
    TruncateOnce(data[i], Overlap(sets[i], r), limit);
    ConcatenatedHas(data[i], Overlap(sets[i], r), x);
    OverlapSound(sets[i], r, x.time);
    RequestShrinks(sets, q, i);
  }

  lemma {:induction false} CopiesOnce(rs: seq<Span>, q: Span, n: nat)
    requires NonEmpty(Shrunk(rs, q))
    ensures Copies(rs, q, n) <= Max(n, 1)
  {
    if rs != [] {
      var q' := Cut(q, rs[0]);
      ShrunkWithin(rs[1..], q');
      CopiesOnce(rs[1..], q', if Before(q, rs[0]) || (n > 0 && NonEmpty(q')) then n else n + 1);
    }
  }

  lemma {:induction false} EmptyWindow(data: seq<Reading>, s: Span)
    requires !NonEmpty(s)
    ensures InWindow(data, s) == []
  {
    if data != [] {
      EmptyWindow(data[..|data| - 1], s);
    }
  }

  lemma {:induction false} NothingThere(data: seq<Reading>, ranges: seq<Span>)
    requires forall i :: 0 <= i < |ranges| ==> InWindow(data, ranges[i]) == []
    ensures Concatenated(data, ranges) == []
  {
    if ranges != [] {
      NothingThere(data, ranges[..|ranges| - 1]);
    }
  }

  /**
   However often the request is in the overlap, a stream is read in one window, if at all, and no record is
   returned twice for its sake.
   */
  lemma ReadOnce(sets: seq<seq<Span>>, data: seq<seq<Reading>>, q: Span, limit: int, i: nat)
    requires i < |sets| == |data|
    ensures var w := Shrunk(sets[i], RequestAt(sets, q, i));
            Selected(sets, data, q, limit, i) ==
            if exists k :: 0 <= k < |sets[i]| && Passes(sets[i][k], RequestAt(sets, q, i))
            then Truncated(InWindow(data[i], w), limit) else []
  {
    hide Passes;
    var rs, r := sets[i], RequestAt(sets, q, i);
    var w, o := Shrunk(rs, r), Overlap(rs, r);
    TruncateOnce(data[i], o, limit);
    CopiesGrow(rs, r, 0);
    if NonEmpty(w) {
      CopiesOnce(rs, r, 0);
      if o != [] {
        assert o == [w] && o[..|o| - 1] == [];
        assert Concatenated(data[i], []) == [];
        assert [] + InWindow(data[i], w) == InWindow(data[i], w);
      }
    } else {
      EmptyWindow(data[i], w);
      NothingThere(data[i], o);
    }
  }

  // The records stand in the data in the same order, each at a place of its own.
  ghost predicate PartOf(part: seq<Reading>, data: seq<Reading>) {
    exists at: seq<int> :: Places(part, data, at)
  }

  predicate Places(part: seq<Reading>, data: seq<Reading>, at: seq<int>) {
    && |at| == |part| && (forall i :: 0 <= i < |part| ==> 0 <= at[i] < |data| && part[i] == data[at[i]])
    && forall i, j :: 0 <= i < j < |part| ==> at[i] < at[j]
  }

  lemma {:induction false} WindowPlaces(data: seq<Reading>, s: Span) returns (at: seq<int>)
    ensures Places(InWindow(data, s), data, at)
  {
    at := [];
    if data != [] {
      var n := |data| - 1;
      at := WindowPlaces(data[..n], s);
      if Covers(s, data[n].time) {
        at := at + [n];
      }
    }
  }

  /** What a stream returns are records of it in their own order, and all copies of each. */
  lemma SelectionOrder(sets: seq<seq<Span>>, data: seq<seq<Reading>>, q: Span, i: nat, x: Reading)
    requires i < |sets| == |data|
    ensures PartOf(Selected(sets, data, q, 0, i), data[i])
    ensures x in Selected(sets, data, q, 0, i) ==>
              multiset(Selected(sets, data, q, 0, i))[x] == multiset(data[i])[x]
  {
    hide Places;
    var w := Shrunk(sets[i], RequestAt(sets, q, i));
    ReadOnce(sets, data, q, 0, i);
    var at := WindowPlaces(data[i], w);
    NoPlaces(data[i]);
    WindowHas(data[i], w, x);
    WindowCount(data[i], w, x);
  }

  lemma NoPlaces(data: seq<Reading>)
    ensures Places([], data, [])
  {
  }

  // ---- what a stream is left with, in terms of the sets and the request ----

  // The members of several sets, one set after the other.
  function Flat(sets: seq<seq<Span>>): seq<Span> {
    if sets == [] then [] else Flat(sets[..|sets| - 1]) + sets[|sets| - 1]
  }

  lemma {:induction false} ShrunkAppend(a: seq<Span>, b: seq<Span>, q: Span)
    ensures Shrunk(a + b, q) == Shrunk(b, Shrunk(a, q))
  {
    if a == [] {
      assert a + b == b;
    } else {
      assert (a + b)[0] == a[0] && (a + b)[1..] == a[1..] + b;
      ShrunkAppend(a[1..], b, Cut(q, a[0]));
    }
  }

  lemma {:induction false} RequestIs(sets: seq<seq<Span>>, q: Span, i: nat)
    requires i <= |sets|
    ensures RequestAt(sets, q, i) == Shrunk(Flat(sets[..i]), q)
  {
    if i == 0 {
      assert sets[..0] == [];
    } else {
      RequestIs(sets, q, i - 1);
      assert sets[..i][..i - 1] == sets[..i - 1];
      ShrunkAppend(Flat(sets[..i - 1]), sets[i - 1], q);
    }
  }

  // For all data, stream i returns just its records in the window and the set.
  ghost predicate ReturnsAll(sets: seq<seq<Span>>, q: Span, i: nat)
    requires i < |sets|
  {
    forall data: seq<seq<Reading>>, x: Reading :: |data| == |sets| ==>
      (x in Selected(sets, data, q, 0, i) <==> x in data[i] && Covers(q, x.time) && Covered(sets[i], x.time))
  }

  // No instant of the window and the set is lost to stream i.
  ghost predicate KeepsAll(sets: seq<seq<Span>>, q: Span, i: nat)
    requires i < |sets|
  {
    forall t :: Covers(q, t) && Covered(sets[i], t) ==> Covered(Overlap(sets[i], RequestAt(sets, q, i)), t)
  }

  lemma SelectedHas(sets: seq<seq<Span>>, data: seq<seq<Reading>>, q: Span, i: nat, x: Reading)
    requires i < |sets| == |data|
    ensures x in Selected(sets, data, q, 0, i) <==>
            x in data[i] && Covered(Overlap(sets[i], RequestAt(sets, q, i)), x.time)
  {
    TruncateOnce(data[i], Overlap(sets[i], RequestAt(sets, q, i)), 0);
    ConcatenatedHas(data[i], Overlap(sets[i], RequestAt(sets, q, i)), x);
  }

  lemma ReturnsIsKeeps(sets: seq<seq<Span>>, q: Span, i: nat)
    requires i < |sets|
    ensures ReturnsAll(sets, q, i) <==> KeepsAll(sets, q, i)
  {
    hide Overlap, Covered, Covers, Selected;
    if KeepsAll(sets, q, i) {
      forall data: seq<seq<Reading>>, x: Reading | |data| == |sets|
        ensures x in Selected(sets, data, q, 0, i) <==> x in data[i] && Covers(q, x.time) && Covered(sets[i], x.time)
      {
        SelectedHas(sets, data, q, i, x);
        if x in Selected(sets, data, q, 0, i) {
          SelectionSound(sets, data, q, 0, i, x);
        }
      }
    }
    if ReturnsAll(sets, q, i) {
      forall t | Covers(q, t) && Covered(sets[i], t)
        ensures Covered(Overlap(sets[i], RequestAt(sets, q, i)), t)
      {
        var x := Reading(t, 0);
        var data := seq(|sets|, j => [x]);
        SelectedHas(sets, data, q, i, x);
      }
    }
  }

  /**
   A stream returns exactly its records in the window and the set, for all data, if and only if every such
   instant survives the members of all sets up to its own.
   */
  lemma SelectionExact(sets: seq<seq<Span>>, q: Span, i: nat)
    requires i < |sets|
    ensures ReturnsAll(sets, q, i) <==>
            forall t :: Covers(q, t) && Covered(sets[i], t) ==> Survives(Flat(sets[..i + 1]), q, t)
  {
    hide Overlap, Survives, ReturnsAll;
    ReturnsIsKeeps(sets, q, i);
    var r := RequestAt(sets, q, i);
    RequestIs(sets, q, i + 1);
    forall t | Covers(q, t) && Covered(sets[i], t)
      ensures Covered(Overlap(sets[i], r), t) <==> Survives(Flat(sets[..i + 1]), q, t)
    {
      SurvivesExact(Flat(sets[..i + 1]), q, t);
      var k :| 0 <= k < |sets[i]| && Covers(sets[i][k], t);
      RequestShrinks(sets, q, i);
      ShrunkWithin(sets[i], r);
      if Passes(sets[i][k], r) {
        OverlapCovers(sets[i], r, k, t);
      } else if Covered(Overlap(sets[i], r), t) {
        OverlapSound(sets[i], r, t);
      }
    }
  }

  // Member m is the only one that begins before the request ends, and what it has of the request is left.
  predicate OnlyOneLeft(rs: seq<Span>, q: Span, r: Span, m: nat)
    requires m < |rs|
  {
    && Passes(rs[m], q) && (forall k :: 0 <= k < |rs| && k != m ==> !Passes(rs[k], q))
    && r.lo <= Max(q.lo, rs[m].lo) && Min(q.hi, rs[m].hi) <= r.hi
  }

  /**
   For a set with members that are apart and not empty: the stream returns exactly its records if and only
   if the set and the window have no instant in common, or just one member begins before the window ends
   and the earlier streams have left its part of the window in the request.
   */
  lemma SelectionApart(sets: seq<seq<Span>>, q: Span, i: nat)
    requires i < |sets| && AllNonEmpty(sets[i]) && AllApart(sets[i])
    ensures ReturnsAll(sets, q, i) <==>
            (forall t :: Covered(sets[i], t) ==> !Covers(q, t)) ||
            exists m :: 0 <= m < |sets[i]| && OnlyOneLeft(sets[i], q, RequestAt(sets, q, i), m)
  {
    hide Overlap, ReturnsAll;
    ReturnsIsKeeps(sets, q, i);
    RequestShrinks(sets, q, i);
    var rs, r := sets[i], RequestAt(sets, q, i);
    if m :| 0 <= m < |rs| && OnlyOneLeft(rs, q, r, m) {
      OneLeftKeeps(rs, q, r, m);
    }
    if KeepsAll(sets, q, i) {
      if t :| Covered(rs, t) && Covers(q, t) {
        var m :| 0 <= m < |rs| && Covers(rs[m], t);
        KeepsOneLeft(rs, q, r, m, t);
      }
    }
  }

  lemma OneLeftKeeps(rs: seq<Span>, q: Span, r: Span, m: nat)
    requires m < |rs| && OnlyOneLeft(rs, q, r, m) && r.hi <= q.hi
    ensures forall t :: Covers(q, t) && Covered(rs, t) ==> Covered(Overlap(rs, r), t)
  {
    hide Overlap;
    forall t | Covers(q, t) && Covered(rs, t)
      ensures Covered(Overlap(rs, r), t)
    {
      var k :| 0 <= k < |rs| && Covers(rs[k], t);
      assert k == m;
      OnePasses(rs, r, m);
      OverlapCovers(rs, r, m, t);
    }
  }

  lemma KeepsOneLeft(rs: seq<Span>, q: Span, r: Span, m: nat, t: int)
    requires AllNonEmpty(rs) && AllApart(rs) && q.lo <= r.lo && r.hi <= q.hi
    requires forall u :: Covers(q, u) && Covered(rs, u) ==> Covered(Overlap(rs, r), u)
    requires m < |rs| && Covers(rs[m], t) && Covers(q, t)
    ensures OnlyOneLeft(rs, q, r, m)
  {
    hide Overlap;
    LeftCovers(rs, q, r, m, t);
    forall k | 0 <= k < |rs| && k != m
      ensures !Passes(rs[k], q)
    {
      if Passes(rs[k], q) {
        assert Apart(rs[if k < m then k else m], rs[if k < m then m else k]);
        ShrunkBelow(rs, r, m);
        if Before(rs[k], rs[m]) {
          ShrunkBelow(rs, r, k);
        } else {
          LeftCovers(rs, q, r, k, rs[k].lo);
        }
      }
    }
    LeftCovers(rs, q, r, m, Max(q.lo, rs[m].lo));
    LeftCovers(rs, q, r, m, Min(q.hi, rs[m].hi));
  }

  // An instant that is kept is in what the loop leaves of the request.
  lemma LeftCovers(rs: seq<Span>, q: Span, r: Span, m: nat, u: int)
    requires forall v :: Covers(q, v) && Covered(rs, v) ==> Covered(Overlap(rs, r), v)
    requires m < |rs| && Covers(rs[m], u) && Covers(q, u)
    ensures Covers(r, u) && Covers(Shrunk(rs, r), u)
  {
    OverlapSound(rs, r, u);
    var c :| 0 <= c < |Overlap(rs, r)| && Covers(Overlap(rs, r)[c], u);
  }

  /**
   A stream that finds the request as it was asked and whose overlap with it is exact returns just the
   records in the window and the set.
   */
  lemma SelectionComplete(sets: seq<seq<Span>>, data: seq<seq<Reading>>, q: Span, i: nat, x: Reading)
    requires i < |sets| == |data| && RequestAt(sets, q, i) == q
    requires OverlapIsExact(sets[i], q)
    ensures x in Selected(sets, data, q, 0, i) <==> x in data[i] && Covers(q, x.time) && Covered(sets[i], x.time)
  {
    hide Overlap, Covered, Covers;
    TruncateOnce(data[i], Overlap(sets[i], q), 0);
    ConcatenatedHas(data[i], Overlap(sets[i], q), x);
  }

  /** A set leaves the request as it is exactly when every member that begins before its end includes it. */
  lemma {:induction false} RequestKept(rs: seq<Span>, q: Span)
    ensures Shrunk(rs, q) == q <==>
            forall i :: 0 <= i < |rs| && Passes(rs[i], q) ==> rs[i].lo <= q.lo && q.hi <= rs[i].hi
  {
    if rs != [] {
      RequestKept(rs[1..], q);
      ShrunkWithin(rs[1..], Cut(q, rs[0]));
      assert forall i :: 0 < i < |rs| ==> rs[i] == rs[1..][i - 1];
    }
  }

  lemma {:induction false} FlatHas(sets: seq<seq<Span>>, m: Span)
    ensures m in Flat(sets) <==> exists j :: 0 <= j < |sets| && m in sets[j]
  {
    if sets != [] {
      var front := sets[..|sets| - 1];
      FlatHas(front, m);
      if j :| 0 <= j < |front| && m in front[j] {
        assert m in sets[j];
      }
      if j :| 0 <= j < |sets| && m in sets[j] && j < |front| {
        assert m in front[j];
      }
    }
  }

  /**
   The request reaches a stream as it was asked exactly when every member of every earlier set that begins
   before its end includes it.
   */
  lemma RequestKeptAll(sets: seq<seq<Span>>, q: Span, i: nat)
    requires i <= |sets|
    ensures RequestAt(sets, q, i) == q <==>
            forall j, m :: 0 <= j < i && m in sets[j] && Passes(m, q) ==> m.lo <= q.lo && q.hi <= m.hi
  {
    hide Passes;
    RequestIs(sets, q, i);
    var rs := Flat(sets[..i]);
    RequestKept(rs, q);
    forall m
      ensures m in rs <==> exists j :: 0 <= j < i && m in sets[j]
    {
      FlatHas(sets[..i], m);
      if j :| 0 <= j < |sets[..i]| && m in sets[..i][j] {
        assert m in sets[j];
      }
      if j :| 0 <= j < i && m in sets[j] {
        assert m in sets[..i][j];
      }
    }
    assert (forall k :: 0 <= k < |rs| && Passes(rs[k], q) ==> rs[k].lo <= q.lo && q.hi <= rs[k].hi) <==>
           forall m :: m in rs && Passes(m, q) ==> m.lo <= q.lo && q.hi <= m.hi;
  }

  /** Of two streams, the second gets nothing of its own range once the first has cut the request down. */
  lemma SecondStarved(x: Reading)
    requires 20 <= x.time <= 30
    ensures Selected([[Span(1, 10)], [Span(20, 30)]], [[], [x]], Span(0, 100), 0, 1) == []
    ensures Selected([[Span(20, 30)]], [[x]], Span(0, 100), 0, 0) == [x]
  {
    var sets, q := [[Span(1, 10)], [Span(20, 30)]], Span(0, 100);
    assert RequestAt(sets, q, 0) == q && RequestAt(sets, q, 1) == Shrunk(sets[0], q);
    OnePasses(sets[0], q, 0);
    OnePasses(sets[1], q, 0);
    assert Overlap(sets[1], Span(1, 10)) == [];
    var r := Overlap(sets[1], q);
    assert Copies(sets[1][1..], Span(20, 30), 1) == 1;
    assert r == [Span(20, 30)];
    assert r[..0] == [] && [x][..0] == [];
    assert InWindow([x], Span(20, 30)) == InWindow([], Span(20, 30)) + [x];
    assert Collected([x], r[..0], 0) == [];
  }

  // ---- maskTimeseriesByPermission (lines 191-233) ----

  // The loop of sort.Search, from index i to index j.
  function SearchFrom(f: nat -> bool, i: nat, j: nat): nat
    requires i <= j
    decreases j - i
  {
    if i == j then i else
    var h := (i + j) / 2;
    if !f(h) then SearchFrom(f, h + 1, j) else SearchFrom(f, i, h)
  }

  method Search(n: nat, f: nat -> bool) returns (r: nat)
    ensures r == SearchFrom(f, 0, n)
  {
    var i, j := 0, n;
    while i < j
      invariant i <= j && SearchFrom(f, i, j) == SearchFrom(f, 0, n)
      decreases j - i
    {
      var h := (i + j) / 2;
      if !f(h) {
        i := h + 1;
      } else {
        j := h;
      }
    }
    return i;
  }

  /** Whatever the predicate, the result is where it turns from false to true, or an end of the range. */
  lemma {:induction false} SearchTurns(f: nat -> bool, i: nat, j: nat)
    requires i <= j
    ensures var r := SearchFrom(f, i, j);
            i <= r <= j && (r > i ==> !f(r - 1)) && (r < j ==> f(r))
    decreases j - i
  {
    if i < j {
      var h := (i + j) / 2;
      if !f(h) {
        SearchTurns(f, h + 1, j);
      } else {
        SearchTurns(f, i, h);
      }
    }
  }

  predicate SortedByTime(rs: seq<Reading>) {
    forall i, j :: 0 <= i < j < |rs| ==> rs[i].time <= rs[j].time
  }

  function IsBefore(rs: seq<Reading>, lo: int): nat -> bool {
    (idx: nat) => idx < |rs| && rs[idx].time < lo
  }

  function IsAfter(rs: seq<Reading>, hi: int): nat -> bool {
    (idx: nat) => idx < |rs| && rs[idx].time > hi
  }

  // The records up to a time, in their order.
  function UpTo(rs: seq<Reading>, hi: int): seq<Reading> {
    if rs == [] then []
    else UpTo(rs[..|rs| - 1], hi) + (if rs[|rs| - 1].time <= hi then [rs[|rs| - 1]] else [])
  }

  lemma {:induction false} UpToIsPrefix(rs: seq<Reading>, hi: int, n: nat)
    requires n <= |rs| && forall i :: 0 <= i < |rs| ==> (rs[i].time <= hi <==> i < n)
    ensures UpTo(rs, hi) == rs[..n]
  {
    if rs != [] {
      var front := rs[..|rs| - 1];
      UpToIsPrefix(front, hi, if n == |rs| then n - 1 else n);
      assert n < |rs| ==> front[..n] == rs[..n];
      assert n == |rs| ==> front[..n - 1] + [rs[n - 1]] == rs[..n];
    }
  }

  /** On sorted records the search for the lower bound always ends at one end, so the slice begins at 0. */
  lemma LowerBoundIsZero(rs: seq<Reading>, lo: int)
    requires SortedByTime(rs)
    ensures SearchFrom(IsBefore(rs, lo), 0, |rs|) in {0, |rs|}
  {
    SearchTurns(IsBefore(rs, lo), 0, |rs|);
  }

  // The slice that is taken for one range.
  method Slice(rs: seq<Reading>, rng: Span) returns (part: seq<Reading>)
    requires SortedByTime(rs)
    ensures part == UpTo(rs, rng.hi)
  {
    var earlyIndex := Search(|rs|, IsBefore(rs, rng.lo));
    LowerBoundIsZero(rs, rng.lo);
    if earlyIndex == |rs| {
      earlyIndex := 0;
    }
    var lastIndex := Search(|rs|, IsAfter(rs, rng.hi));
    UpperBound(rs, rng.hi);
    UpToIsPrefix(rs, rng.hi, lastIndex);
    return rs[earlyIndex..lastIndex];
  }

  function Masked(rs: seq<Reading>, ranges: seq<Span>): seq<Reading> {
    if ranges == [] then [] else Masked(rs, ranges[..|ranges| - 1]) + UpTo(rs, ranges[|ranges| - 1].hi)
  }

  method Mask(rs: seq<Reading>, ranges: seq<Span>) returns (records: seq<Reading>)
    requires SortedByTime(rs)
    ensures records == Masked(rs, ranges)
  {
    records := [];
    var i := 0;
    while i < |ranges|
      invariant 0 <= i <= |ranges| && records == Masked(rs, ranges[..i])
    {
      assert ranges[..i + 1][..i] == ranges[..i];
      var part := Slice(rs, ranges[i]);
      records := records + part;
      i := i + 1;
    }
    assert ranges[..i] == ranges;
  }

  // What masking is for: the records in some range, each once.
  function Permitted(rs: seq<Reading>, ranges: seq<Span>): seq<Reading> {
    if rs == [] then []
    else
      Permitted(rs[..|rs| - 1], ranges) +
      (if exists i :: 0 <= i < |ranges| && Covers(ranges[i], rs[|rs| - 1].time) then [rs[|rs| - 1]] else [])
  }

  lemma {:induction false} UpToCount(rs: seq<Reading>, hi: int, x: Reading)
    ensures multiset(UpTo(rs, hi))[x] == if x.time <= hi then multiset(rs)[x] else 0
  {
    if rs != [] {
      UpToCount(rs[..|rs| - 1], hi, x);
      assert rs == rs[..|rs| - 1] + [rs[|rs| - 1]];
    }
  }

  lemma {:induction false} PermittedCount(rs: seq<Reading>, ranges: seq<Span>, x: Reading)
    ensures multiset(Permitted(rs, ranges))[x] == if Covered(ranges, x.time) then multiset(rs)[x] else 0
  {
    if rs != [] {
      PermittedCount(rs[..|rs| - 1], ranges, x);
      assert rs == rs[..|rs| - 1] + [rs[|rs| - 1]];
    }
  }

  lemma SumCount(a: seq<Reading>, b: seq<Reading>, x: Reading)
    ensures multiset(a + b)[x] == multiset(a)[x] + multiset(b)[x]
  {
  }

  /** A record comes once for every range that does not end before it. */
  lemma {:induction false} MaskedCount(rs: seq<Reading>, ranges: seq<Span>, x: Reading)
    ensures multiset(Masked(rs, ranges))[x] == multiset(rs)[x] * Reaching(ranges, x.time)
  {
    if ranges != [] {
      var front, hi, n := ranges[..|ranges| - 1], ranges[|ranges| - 1].hi, multiset(rs)[x];
      MaskedCount(rs, front, x);
      UpToCount(rs, hi, x);
      SumCount(Masked(rs, front), UpTo(rs, hi), x);
      OneMore(n, Reaching(front, x.time), x.time <= hi);
    }
  }

  lemma OneMore(n: nat, k: nat, more: bool)
    ensures n * (k + if more then 1 else 0) == n * k + if more then n else 0
  {
  }

  // The number of ranges that do not end before an instant.
  function Reaching(ranges: seq<Span>, t: int): nat {
    if ranges == [] then 0
    else Reaching(ranges[..|ranges| - 1], t) + (if t <= ranges[|ranges| - 1].hi then 1 else 0)
  }

  lemma {:induction false} ReachingIs(ranges: seq<Span>, t: int)
    ensures Reaching(ranges, t) >= 1 <==> exists i :: 0 <= i < |ranges| && t <= ranges[i].hi
    ensures Reaching(ranges, t) >= 2 <==>
            exists i, j :: 0 <= i < j < |ranges| && t <= ranges[i].hi && t <= ranges[j].hi
  {
    if ranges != [] {
      var n := |ranges| - 1;
      var front := ranges[..n];
      ReachingIs(front, t);
      if i, j :| 0 <= i < j < |ranges| && t <= ranges[i].hi && t <= ranges[j].hi {
        assert t <= front[i].hi;
      }
      if i, j :| 0 <= i < j < |front| && t <= front[i].hi && t <= front[j].hi {
        assert t <= ranges[i].hi && t <= ranges[j].hi;
      }
    }
  }

  // How often a record at t comes, against how often it should.
  lemma ReachingExact(ranges: seq<Span>, t: int)
    requires AllNonEmpty(ranges) && AllApart(ranges)
    ensures Reaching(ranges, t) == (if Covered(ranges, t) then 1 else 0) <==>
            forall k :: 0 <= k < |ranges| ==> ranges[k].lo <= t
  {
    ReachingIs(ranges, t);
    if !(forall k :: 0 <= k < |ranges| ==> ranges[k].lo <= t) {
      var k :| 0 <= k < |ranges| && t < ranges[k].lo;
      assert t <= ranges[k].hi;
      if Covered(ranges, t) {
        var i :| 0 <= i < |ranges| && Covers(ranges[i], t);
        assert t <= ranges[if i < k then i else k].hi && t <= ranges[if i < k then k else i].hi;
      }
    }
  }

  // Every range that does not end before the instant covers it, and there is one such range at most.
  predicate ReachedOnce(ranges: seq<Span>, t: int) {
    && (forall k :: 0 <= k < |ranges| && t <= ranges[k].hi ==> ranges[k].lo <= t)
    && forall k, l :: 0 <= k < l < |ranges| ==> !(t <= ranges[k].hi && t <= ranges[l].hi)
  }

  lemma ReachedOnceIs(ranges: seq<Span>, t: int)
    ensures Reaching(ranges, t) == (if Covered(ranges, t) then 1 else 0) <==> ReachedOnce(ranges, t)
  {
    ReachingIs(ranges, t);
    if k :| 0 <= k < |ranges| && Covers(ranges[k], t) {
      assert t <= ranges[k].hi;
    }
  }

  /**
   For any ranges, masking gives exactly the permitted records, each once, if and only if every record is
   reached by no range that begins behind it, and by one range at most.
   */
  lemma MaskExactAny(rs: seq<Reading>, ranges: seq<Span>)
    ensures multiset(Masked(rs, ranges)) == multiset(Permitted(rs, ranges)) <==>
            forall i :: 0 <= i < |rs| ==> ReachedOnce(ranges, rs[i].time)
  {
    hide Covered, Reaching, ReachedOnce;
    forall x: Reading
      ensures multiset(Masked(rs, ranges))[x] == multiset(Permitted(rs, ranges))[x] <==>
              (x in rs ==> ReachedOnce(ranges, x.time))
    {
      MaskedCount(rs, ranges, x);
      PermittedCount(rs, ranges, x);
      ReachedOnceIs(ranges, x.time);
      assert multiset(rs)[x] > 0 <==> x in rs;
      TimesIs(multiset(rs)[x], Reaching(ranges, x.time), if Covered(ranges, x.time) then 1 else 0);
    }
    assert forall i :: 0 <= i < |rs| ==> rs[i] in rs;
    assert multiset(Masked(rs, ranges)) == multiset(Permitted(rs, ranges)) <==>
           forall x: Reading :: multiset(Masked(rs, ranges))[x] == multiset(Permitted(rs, ranges))[x];
  }

  /**
   For ranges that are apart and not empty, masking gives exactly the permitted records, each once, if and
   only if no record lies before the start of any range.
   */
  lemma MaskExact(rs: seq<Reading>, ranges: seq<Span>)
    requires AllNonEmpty(ranges) && AllApart(ranges)
    ensures multiset(Masked(rs, ranges)) == multiset(Permitted(rs, ranges)) <==>
            forall i, k :: 0 <= i < |rs| && 0 <= k < |ranges| ==> ranges[k].lo <= rs[i].time
  {
    hide ReachedOnce, Reaching, Covered;
    MaskExactAny(rs, ranges);
    forall i | 0 <= i < |rs|
      ensures ReachedOnce(ranges, rs[i].time) <==> forall k :: 0 <= k < |ranges| ==> ranges[k].lo <= rs[i].time
    {
      ReachedOnceIs(ranges, rs[i].time);
      ReachingExact(ranges, rs[i].time);
    }
  }

  // ---- the slice that is meant: from the first record not before the start ----

  function NotBefore(rs: seq<Reading>, lo: int): nat -> bool {
    (idx: nat) => idx < |rs| && rs[idx].time >= lo
  }

  lemma {:induction false} WindowIsSlice(rs: seq<Reading>, s: Span, e: nat, l: nat)
    requires e <= l <= |rs|
    requires forall i :: 0 <= i < |rs| ==> (Covers(s, rs[i].time) <==> e <= i < l)
    ensures InWindow(rs, s) == rs[e..l]
  {
    if rs != [] {
      var n := |rs| - 1;
      var front := rs[..n];
      if l == |rs| && e < l {
        WindowIsSlice(front, s, e, n);
        assert rs[e..l] == front[e..n] + [rs[n]];
      } else {
        WindowIsSlice(front, s, if e > n then n else e, if l > n then n else l);
        assert !Covers(s, rs[n].time);
      }
    }
  }

  /** With that lower bound, binary search finds exactly the records in the range. */
  lemma SearchesFindWindow(rs: seq<Reading>, rng: Span)
    requires SortedByTime(rs) && NonEmpty(rng)
    ensures var e, l := SearchFrom(NotBefore(rs, rng.lo), 0, |rs|), SearchFrom(IsAfter(rs, rng.hi), 0, |rs|);
            e <= l <= |rs| && rs[e..l] == InWindow(rs, rng)
  {
    var e, l := SearchFrom(NotBefore(rs, rng.lo), 0, |rs|), SearchFrom(IsAfter(rs, rng.hi), 0, |rs|);
    LowerBound(rs, rng.lo);
    UpperBound(rs, rng.hi);
    assert l < |rs| ==> rs[l].time > rng.hi;
    WindowIsSlice(rs, rng, e, l);
  }

  lemma LowerBound(rs: seq<Reading>, lo: int)
    requires SortedByTime(rs)
    ensures var e := SearchFrom(NotBefore(rs, lo), 0, |rs|);
            e <= |rs| && forall i :: 0 <= i < |rs| ==> (rs[i].time >= lo <==> i >= e)
  {
    var f := NotBefore(rs, lo);
    SearchTurns(f, 0, |rs|);
  }

  lemma UpperBound(rs: seq<Reading>, hi: int)
    requires SortedByTime(rs)
    ensures var l := SearchFrom(IsAfter(rs, hi), 0, |rs|);
            l <= |rs| && forall i :: 0 <= i < |rs| ==> (rs[i].time <= hi <==> i < l)
  {
    var f := IsAfter(rs, hi);
    SearchTurns(f, 0, |rs|);
  }

  lemma {:induction false} WindowCount(rs: seq<Reading>, s: Span, x: Reading)
    ensures multiset(InWindow(rs, s))[x] == if Covers(s, x.time) then multiset(rs)[x] else 0
  {
    if rs != [] {
      WindowCount(rs[..|rs| - 1], s, x);
      assert rs == rs[..|rs| - 1] + [rs[|rs| - 1]];
    }
  }

  lemma {:induction false} WindowsCount(rs: seq<Reading>, ranges: seq<Span>, x: Reading)
    requires AllNonEmpty(ranges) && AllApart(ranges)
    ensures multiset(Concatenated(rs, ranges))[x] == if Covered(ranges, x.time) then multiset(rs)[x] else 0
  {
    if ranges == [] {
      NoneCovered(x.time);
    } else {
      var n := |ranges| - 1;
      var front := ranges[..n];
      WindowsCount(rs, front, x);
      WindowCount(rs, ranges[n], x);
      SumCount(Concatenated(rs, front), InWindow(rs, ranges[n]), x);
      CoveredSnoc(ranges, x.time);
      if i :| 0 <= i < |front| && Covers(front[i], x.time) {
        assert Apart(ranges[i], ranges[n]);
      }
    }
  }

  /** The windows of ranges that are apart hold exactly the permitted records, each once. */
  lemma WindowsExact(rs: seq<Reading>, ranges: seq<Span>)
    requires AllNonEmpty(ranges) && AllApart(ranges)
    ensures multiset(Concatenated(rs, ranges)) == multiset(Permitted(rs, ranges))
  {
    forall x: Reading
      ensures multiset(Concatenated(rs, ranges))[x] == multiset(Permitted(rs, ranges))[x]
    {
      WindowsCount(rs, ranges, x);
      PermittedCount(rs, ranges, x);
    }
  }

  lemma TimesIs(n: nat, a: nat, b: nat)
    ensures n * a == n * b <==> n == 0 || a == b
  {
    if n > 0 && a < b {
      assert n * b == n * a + n * (b - a);
      assert n * (b - a) > 0;
    } else if n > 0 && b < a {
      assert n * a == n * b + n * (a - b);
      assert n * (a - b) > 0;
    }
  }
}
