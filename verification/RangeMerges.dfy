/**
 Merging a list of windows one after the other, as GetValidRanges does (dots/master.go:77-88): exactly
 when the result covers what the windows cover, and exactly when its members are apart.  Both
 conditions speak of the windows alone.  The windows may be empty unless a lemma says otherwise.
 */
module RangeMerges {
  import opened Ranges

  lemma LastMerge(ws: seq<Span>, n: nat)
    requires 0 < n <= |ws|
    ensures MergedAll([], ws[..n]) == Merged(MergedAll([], ws[..n - 1]), ws[n - 1])
  {
    var p := ws[..n];
    assert p[..|p| - 1] == ws[..n - 1];
  }

  // ---- members that cross a cut ----

  // A cut lies at an instant, or between an instant and the next.
  predicate IsCut(a: int, b: int) {
    a <= b <= a + 1
  }

  // The range begins by a and reaches b.
  predicate Crosses(w: Span, a: int, b: int) {
    w.lo <= a && b <= w.hi
  }

  predicate AnyCrosses(rs: seq<Span>, a: int, b: int) {
    exists k :: 0 <= k < |rs| && Crosses(rs[k], a, b)
  }

  predicate AnyBegins(rs: seq<Span>, a: int) {
    exists k :: 0 <= k < |rs| && rs[k].lo <= a
  }

  // Neither this range nor one before it in the list begins by a.
  predicate Early(rs: seq<Span>, k: nat, a: int)
    requires k < |rs|
  {
    forall l :: 0 <= l <= k ==> a < rs[l].lo
  }

  // A member behind the cut that comes before every member that begins by it, and that h reaches.
  predicate Guarded(rs: seq<Span>, a: int, h: int) {
    exists k :: 0 <= k < |rs| && Early(rs, k, a) && rs[k].lo <= h
  }

  // The window begins behind the cut, and reaches it or comes before every window that begins by it.
  predicate Shields(ws: seq<Span>, r: nat, a: int, b: int)
    requires r < |ws|
  {
    a < ws[r].lo && (b <= ws[r].hi || Early(ws, r, a))
  }

  /**
   Window j reaches the cut from behind, some window before it begins by the cut, and every window before
   it that shields the cut begins after j ends.
   */
  predicate JoinsAt(ws: seq<Span>, j: nat, a: int, b: int)
    requires j < |ws|
  {
    && a < ws[j].lo && b <= ws[j].hi
    && (exists i :: 0 <= i < j && ws[i].lo <= a)
    && forall r :: 0 <= r < j && Shields(ws, r, a, b) ==> ws[j].hi < ws[r].lo
  }

  predicate Joins(ws: seq<Span>, n: nat, a: int, b: int)
    requires n <= |ws|
  {
    exists j :: 0 <= j < n && JoinsAt(ws, j, a, b)
  }

  // ---- one merge ----

  lemma MergedAt(rs: seq<Span>, r: Span)
    ensures var k, ms := FirstHit(rs, r), Merged(rs, r);
            && |ms| == (if k < |rs| then |rs| else |rs| + 1)
            && ms[k] == (if k < |rs| then Hull(rs[k], r) else r)
            && forall i :: 0 <= i < |rs| && i != k ==> ms[i] == rs[i]
  {
  }

  lemma StillCrosses(rs: seq<Span>, r: Span, a: int, b: int)
    requires AnyCrosses(rs, a, b) || Crosses(r, a, b)
    ensures AnyCrosses(Merged(rs, r), a, b)
  {
    MergedAt(rs, r);
    var k, ms := FirstHit(rs, r), Merged(rs, r);
    if Crosses(r, a, b) {
      assert Crosses(ms[k], a, b);
    } else {
      var i :| 0 <= i < |rs| && Crosses(rs[i], a, b);
      assert Crosses(ms[i], a, b);
    }
  }

  lemma StepBegins(rs: seq<Span>, r: Span, a: int)
    ensures AnyBegins(Merged(rs, r), a) <==> AnyBegins(rs, a) || r.lo <= a
  {
    MergedAt(rs, r);
    var k, ms := FirstHit(rs, r), Merged(rs, r);
    if r.lo <= a {
      assert ms[k].lo <= a;
    }
    if i :| 0 <= i < |rs| && rs[i].lo <= a {
      assert ms[i].lo <= a;
    }
    if i :| 0 <= i < |ms| && ms[i].lo <= a {
      assert r.lo <= a || rs[i].lo <= a;
    }
  }

  // The merge crosses the cut exactly when the range comes from behind and meets no guard.
  lemma StepCrosses(rs: seq<Span>, r: Span, a: int, b: int)
    requires IsCut(a, b) && !AnyCrosses(rs, a, b) && !Crosses(r, a, b)
    ensures AnyCrosses(Merged(rs, r), a, b) <==>
            a < r.lo && b <= r.hi && AnyBegins(rs, a) && !Guarded(rs, a, r.hi)
  {
    MergedAt(rs, r);
    var k, ms := FirstHit(rs, r), Merged(rs, r);
    if AnyCrosses(ms, a, b) {
      var i :| 0 <= i < |ms| && Crosses(ms[i], a, b);
      assert i == k < |rs| && rs[k].lo <= a;
    }
  }

  lemma StepEarly(rs: seq<Span>, r: Span, a: int, b: int, i: nat)
    requires IsCut(a, b) && !Crosses(r, a, b) && i < |rs|
    ensures |Merged(rs, r)| >= |rs| && (Early(Merged(rs, r), i, a) <==> Early(rs, i, a))
  {
    MergedAt(rs, r);
    var k, ms := FirstHit(rs, r), Merged(rs, r);
    if k <= i {
      assert rs[k].lo <= r.hi;
      assert forall l :: 0 <= l <= i && l != k ==> ms[l] == rs[l];
      assert a < ms[k].lo <==> a < rs[k].lo && a < r.lo;
    }
  }

  lemma StepGuarded(rs: seq<Span>, r: Span, a: int, b: int, h: int)
    requires IsCut(a, b) && !AnyCrosses(Merged(rs, r), a, b) && !AnyCrosses(rs, a, b) && !Crosses(r, a, b)
    ensures Guarded(Merged(rs, r), a, h) <==>
            Guarded(rs, a, h) || (a < r.lo <= h && (b <= r.hi || !AnyBegins(rs, a)))
  {
    MergedAt(rs, r);
    var k, ms := FirstHit(rs, r), Merged(rs, r);
    if Guarded(ms, a, h) {
      var i :| 0 <= i < |ms| && Early(ms, i, a) && ms[i].lo <= h;
      if i < |rs| {
        StepEarly(rs, r, a, b, i);
      }
    }
    if Guarded(rs, a, h) {
      var i :| 0 <= i < |rs| && Early(rs, i, a) && rs[i].lo <= h;
      StepEarly(rs, r, a, b, i);
    } else if a < r.lo <= h && (b <= r.hi || !AnyBegins(rs, a)) {
      StepCrosses(rs, r, a, b);
      if k < |rs| {
        assert Early(rs, k, a);
        StepEarly(rs, r, a, b, k);
      }
      assert Early(ms, k, a);
    }
  }

  // ---- all merges ----

  lemma {:induction false} NeverLosesCrossing(ws: seq<Span>, n: nat, i: nat, a: int, b: int)
    requires i < n <= |ws| && Crosses(ws[i], a, b)
    ensures AnyCrosses(MergedAll([], ws[..n]), a, b)
  {
    LastMerge(ws, n);
    if i < n - 1 {
      NeverLosesCrossing(ws, n - 1, i, a, b);
    }
    StillCrosses(MergedAll([], ws[..n - 1]), ws[n - 1], a, b);
  }

  /** Merging in any order never loses an instant of a window. */
  lemma NeverLoses(ws: seq<Span>, t: int)
    requires Covered(ws, t)
    ensures Covered(MergedAll([], ws), t)
  {
    assert ws[..|ws|] == ws;
    var i :| 0 <= i < |ws| && Covers(ws[i], t);
    NeverLosesCrossing(ws, |ws|, i, t, t);
    var rs := MergedAll([], ws);
    var k :| 0 <= k < |rs| && Crosses(rs[k], t, t);
    assert Covers(rs[k], t);
  }

  // What the members say about the cut, in terms of the windows merged so far.
  ghost predicate Tells(ws: seq<Span>, n: nat, a: int, b: int, rs: seq<Span>)
    requires n <= |ws|
  {
    && (AnyBegins(rs, a) <==> exists i :: 0 <= i < n && ws[i].lo <= a)
    && forall h :: Guarded(rs, a, h) <==> exists r :: 0 <= r < n && Shields(ws, r, a, b) && ws[r].lo <= h
  }

  /** A member crosses a cut that no window crosses exactly when the windows join there. */
  lemma {:induction false} CrossExact(ws: seq<Span>, n: nat, a: int, b: int)
    requires IsCut(a, b) && n <= |ws| && forall i :: 0 <= i < n ==> !Crosses(ws[i], a, b)
    ensures AnyCrosses(MergedAll([], ws[..n]), a, b) <==> Joins(ws, n, a, b)
    ensures !Joins(ws, n, a, b) ==> Tells(ws, n, a, b, MergedAll([], ws[..n]))
  {
    if n == 0 {
      assert ws[..0] == [];
    } else {
      CrossExact(ws, n - 1, a, b);
      LastMerge(ws, n);
      var rs, r := MergedAll([], ws[..n - 1]), ws[n - 1];
      if Joins(ws, n - 1, a, b) {
        StillCrosses(rs, r, a, b);
      } else {
        StepCrosses(rs, r, a, b);
        JoinsStep(ws, n, a, b, rs);
        if !JoinsAt(ws, n - 1, a, b) {
          TellsStep(ws, n, a, b, rs);
        }
      }
    }
  }

  lemma JoinsStep(ws: seq<Span>, n: nat, a: int, b: int, rs: seq<Span>)
    requires 0 < n <= |ws| && Tells(ws, n - 1, a, b, rs)
    ensures JoinsAt(ws, n - 1, a, b) <==>
            a < ws[n - 1].lo && b <= ws[n - 1].hi && AnyBegins(rs, a) && !Guarded(rs, a, ws[n - 1].hi)
    ensures Joins(ws, n, a, b) <==> Joins(ws, n - 1, a, b) || JoinsAt(ws, n - 1, a, b)
  {
    hide Shields;
  }

  lemma TellsStep(ws: seq<Span>, n: nat, a: int, b: int, rs: seq<Span>)
    requires IsCut(a, b) && 0 < n <= |ws| && Tells(ws, n - 1, a, b, rs)
    requires !AnyCrosses(rs, a, b) && !AnyCrosses(Merged(rs, ws[n - 1]), a, b) && !Crosses(ws[n - 1], a, b)
    ensures Tells(ws, n, a, b, Merged(rs, ws[n - 1]))
  {
    hide Guarded, Merged, AnyCrosses;
    var r := ws[n - 1];
    StepBegins(rs, r, a);
    forall h
      ensures Guarded(Merged(rs, r), a, h) <==> exists x :: 0 <= x < n && Shields(ws, x, a, b) && ws[x].lo <= h
    {
      StepGuarded(rs, r, a, b, h);
      assert Shields(ws, n - 1, a, b) <==> a < r.lo && (b <= r.hi || !AnyBegins(rs, a)) by {
        assert Early(ws, n - 1, a) <==> a < r.lo && !AnyBegins(rs, a);
      }
    }
  }

  // ---- the instants that are covered ----

  // Somewhere the windows join across an instant.
  predicate JoinsAcross(ws: seq<Span>, t: int) {
    Joins(ws, |ws|, t, t)
  }

  // The windows join across no instant that none of them covers.
  ghost predicate NoFalseJoin(ws: seq<Span>) {
    forall t :: JoinsAcross(ws, t) ==> Covered(ws, t)
  }

  lemma CoveredCrosses(rs: seq<Span>, t: int)
    ensures Covered(rs, t) <==> AnyCrosses(rs, t, t)
  {
    if i :| 0 <= i < |rs| && Covers(rs[i], t) {
      assert Crosses(rs[i], t, t);
    }
    if i :| 0 <= i < |rs| && Crosses(rs[i], t, t) {
      assert Covers(rs[i], t);
    }
  }

  /** The merged set covers an instant exactly when a window does or the windows join across it. */
  lemma CoverExact(ws: seq<Span>, t: int)
    ensures Covered(MergedAll([], ws), t) <==> Covered(ws, t) || JoinsAcross(ws, t)
  {
    hide Joins, MergedAll;
    assert ws[..|ws|] == ws;
    if Covered(ws, t) {
      NeverLoses(ws, t);
    } else {
      CoveredCrosses(ws, t);
      CoveredCrosses(MergedAll([], ws), t);
      forall i | 0 <= i < |ws|
        ensures !Crosses(ws[i], t, t)
      {
        assert !Covers(ws[i], t);
      }
      CrossExact(ws, |ws|, t, t);
    }
  }

  /** The merged set covers exactly the instants of the windows if and only if there is no false join. */
  lemma MergeExact(ws: seq<Span>)
    ensures (forall t :: Covered(MergedAll([], ws), t) <==> Covered(ws, t)) <==> NoFalseJoin(ws)
  {
    hide MergedAll, JoinsAcross, Covered;
    forall t
      ensures Covered(MergedAll([], ws), t) <==> Covered(ws, t) || JoinsAcross(ws, t)
    {
      CoverExact(ws, t);
    }
  }

  /** For windows that are not empty, a join across an uncovered instant needs one window on each side. */
  lemma JoinsNonEmpty(ws: seq<Span>, t: int)
    requires AllNonEmpty(ws) && !Covered(ws, t)
    ensures JoinsAcross(ws, t) <==>
            exists i, j :: 0 <= i < j < |ws| && ws[i].hi < t < ws[j].lo && NoneBetween(ws, j, t)
  {
    forall i | 0 <= i < |ws|
      ensures ws[i].lo <= t <==> ws[i].hi < t
    {
      assert !Covers(ws[i], t);
    }
    if JoinsAcross(ws, t) {
      var j :| 0 <= j < |ws| && JoinsAt(ws, j, t, t);
      var i :| 0 <= i < j && ws[i].lo <= t;
      assert forall r :: 0 <= r < j && t < ws[r].lo ==> Shields(ws, r, t, t);
    }
    if i, j :| 0 <= i < j < |ws| && ws[i].hi < t < ws[j].lo && NoneBetween(ws, j, t) {
      assert JoinsAt(ws, j, t, t);
    }
  }

  // Every window before j that lies behind the instant begins after j ends.
  predicate NoneBetween(ws: seq<Span>, j: nat, t: int)
    requires j < |ws|
  {
    forall r :: 0 <= r < j && t < ws[r].lo ==> ws[j].hi < ws[r].lo
  }

  // The instant begins a window or follows the end of one.
  predicate IsMark(ws: seq<Span>, u: int) {
    exists k :: 0 <= k < |ws| && (u == ws[k].lo || u == ws[k].hi + 1)
  }

  // No window begins or ends between the two instants.
  predicate SameCell(ws: seq<Span>, n: nat, u: int, t: int)
    requires n <= |ws|
  {
    u <= t && forall i :: 0 <= i < n ==> (ws[i].lo <= t ==> ws[i].lo <= u) && (ws[i].hi < t ==> ws[i].hi < u)
  }

  lemma {:induction false} LastMark(ws: seq<Span>, n: nat, u0: int, t: int) returns (u: int)
    requires n <= |ws| && IsMark(ws, u0) && u0 <= t
    ensures IsMark(ws, u) && u0 <= u && SameCell(ws, n, u, t)
  {
    u := u0;
    if n > 0 {
      var w := ws[n - 1];
      u := LastMark(ws, n - 1, u0, t);
      u := if w.lo <= t then Max(u, w.lo) else u;
      u := if w.hi < t then Max(u, w.hi + 1) else u;
    }
  }

  lemma MarkedJoin(ws: seq<Span>, t: int) returns (u: int)
    requires JoinsAcross(ws, t) && !Covered(ws, t)
    ensures IsMark(ws, u) && JoinsAcross(ws, u) && !Covered(ws, u)
  {
    var j :| 0 <= j < |ws| && JoinsAt(ws, j, t, t);
    var i :| 0 <= i < j && ws[i].lo <= t;
    u := LastMark(ws, |ws|, ws[i].lo, t);
    SameJoins(ws, j, u, t);
    forall k | 0 <= k < |ws|
      ensures !Covers(ws[k], u)
    {
      assert !Covers(ws[k], t);
    }
  }

  lemma SameJoins(ws: seq<Span>, j: nat, u: int, t: int)
    requires j < |ws| && SameCell(ws, |ws|, u, t) && JoinsAt(ws, j, t, t)
    ensures JoinsAt(ws, j, u, u)
  {
    forall r | 0 <= r < j && Shields(ws, r, u, u)
      ensures Shields(ws, r, t, t)
    {
    }
  }

  /** It is enough to look where windows begin and where they have just ended: the condition is a finite check. */
  lemma FalseJoinsFollow(ws: seq<Span>)
    ensures NoFalseJoin(ws) <==> forall u :: IsMark(ws, u) && JoinsAcross(ws, u) ==> Covered(ws, u)
  {
    hide IsMark, JoinsAcross, Covered;
    if !NoFalseJoin(ws) {
      var t :| JoinsAcross(ws, t) && !Covered(ws, t);
      var u := MarkedJoin(ws, t);
    }
  }

  /** Windows that come latest first are merged exactly. */
  lemma LatestFirstExact(ws: seq<Span>)
    requires forall i, j :: 0 <= i < j < |ws| ==> ws[j].lo <= ws[i].lo
    ensures forall t :: Covered(MergedAll([], ws), t) <==> Covered(ws, t)
  {
    hide MergedAll, Covered;
    forall t
      ensures !JoinsAcross(ws, t)
    {
    }
    MergeExact(ws);
  }

  /** Of two windows with a gap between them, the later one first is exact and the earlier one first is not. */
  lemma OrderMatters(a: Span, b: Span)
    requires NonEmpty(a) && NonEmpty(b) && a.hi + 1 < b.lo
    ensures forall t :: Covered(MergedAll([], [b, a]), t) <==> Covered([b, a], t)
    ensures MergedAll([], [a, b]) == [Span(a.lo, b.hi)]
    ensures Covered(MergedAll([], [a, b]), a.hi + 1) && !Covered([a, b], a.hi + 1)
  {
    LatestFirstExact([b, a]);
    var ws := [a, b];
    assert ws[..1] == [a] && ws[..1][..0] == [] && ws[..|ws| - 1] == ws[..1];
    assert MergedAll([], []) == [];
    assert MergedAll([], ws[..1]) == Merged([], a) == [a];
    assert MergedAll([], ws) == Merged([a], b) == [Hull(a, b)];
    assert Covers([Hull(a, b)][0], a.hi + 1);
  }

  // ---- members that stay apart ----

  /** Three windows whose merged set has members that overlap: the third widens the first over the second. */
  lemma MembersOverlap()
    ensures MergedAll([], [Span(10, 20), Span(1, 5), Span(3, 12)]) == [Span(3, 20), Span(1, 5)]
    ensures !AllApart([Span(3, 20), Span(1, 5)])
  {
    var ws := [Span(10, 20), Span(1, 5), Span(3, 12)];
    assert ws[..0] == [] && ws[..3] == ws;
    LastMerge(ws, 1);
    LastMerge(ws, 2);
    LastMerge(ws, 3);
    assert MergedAll([], ws[..1]) == [Span(10, 20)];
    assert MergedAll([], ws[..2]) == [Span(10, 20), Span(1, 5)];
    var rs := [Span(3, 20), Span(1, 5)];
    assert !Apart(rs[0], rs[1]);
  }

  // No instant is covered by two members.
  ghost predicate NoTwice(rs: seq<Span>) {
    forall k, l, t :: 0 <= k < l < |rs| ==> !(Covers(rs[k], t) && Covers(rs[l], t))
  }

  // Every member that is not empty lies before the members that come before it in the list.
  predicate Descending(rs: seq<Span>) {
    forall k, l :: 0 <= k < l < |rs| && NonEmpty(rs[l]) ==> Before(rs[l], rs[k])
  }

  // The range takes in the end of a member and reaches on to one that comes before it in the list.
  predicate Doubles(rs: seq<Span>, r: Span, c: int) {
    r.lo <= c < r.hi && AnyCrosses(rs, c, c) && !AnyCrosses(rs, c, c + 1) && Guarded(rs, c, r.hi)
  }

  /** Merging into members in descending order covers an instant twice exactly when the range doubles one. */
  lemma MergeDoubles(rs: seq<Span>, r: Span)
    requires Descending(rs)
    ensures NoTwice(Merged(rs, r)) <==> forall c :: !Doubles(rs, r, c)
    ensures NoTwice(Merged(rs, r)) ==> Descending(Merged(rs, r))
  {
    if c :| Doubles(rs, r, c) {
      DoublesCovers(rs, r, c);
    } else {
      forall k, l | 0 <= k < l < |Merged(rs, r)| && NonEmpty(Merged(rs, r)[l])
        ensures Before(Merged(rs, r)[l], Merged(rs, r)[k])
      {
        if !Before(Merged(rs, r)[l], Merged(rs, r)[k]) {
          Doubled(rs, r, k, l);
        }
      }
    }
  }

  lemma DoublesCovers(rs: seq<Span>, r: Span, c: int)
    requires Descending(rs) && Doubles(rs, r, c)
    ensures !NoTwice(Merged(rs, r))
  {
    MergedAt(rs, r);
    var k, ms := FirstHit(rs, r), Merged(rs, r);
    var l :| 0 <= l < |rs| && Crosses(rs[l], c, c);
    var g :| 0 <= g < |rs| && Early(rs, g, c) && rs[g].lo <= r.hi;
    assert !Crosses(rs[l], c, c + 1);
    assert k <= g < l;
    assert Covers(ms[k], c) && Covers(ms[l], c);
  }

  // Where the order breaks, the range takes in the end of the later member.
  lemma Doubled(rs: seq<Span>, r: Span, k: nat, l: nat)
    requires Descending(rs) && k < l < |Merged(rs, r)| && NonEmpty(Merged(rs, r)[l])
    requires !Before(Merged(rs, r)[l], Merged(rs, r)[k])
    ensures l < |rs| && Doubles(rs, r, rs[l].hi)
  {
    MergedAt(rs, r);
    assert k == FirstHit(rs, r) && l < |rs| && r.lo <= rs[l].hi;
    var c := rs[l].hi;
    assert Crosses(rs[l], c, c);
    forall m | 0 <= m < |rs|
      ensures !Crosses(rs[m], c, c + 1)
    {
      assert m < l ==> Before(rs[l], rs[m]);
      assert l < m && NonEmpty(rs[m]) ==> Before(rs[m], rs[l]);
    }
    assert Early(rs, k, c);
  }

  // An instant that is covered twice stays so.
  lemma TwiceStays(rs: seq<Span>, r: Span)
    requires NoTwice(Merged(rs, r))
    ensures NoTwice(rs)
  {
    MergedAt(rs, r);
    var ms := Merged(rs, r);
    forall k, l, t | 0 <= k < l < |rs|
      ensures !(Covers(rs[k], t) && Covers(rs[l], t))
    {
      assert !(Covers(ms[k], t) && Covers(ms[l], t));
    }
  }

  lemma {:induction false} MembersNonEmpty(ws: seq<Span>, n: nat)
    requires n <= |ws| && AllNonEmpty(ws)
    ensures AllNonEmpty(MergedAll([], ws[..n]))
  {
    if n > 0 {
      MembersNonEmpty(ws, n - 1);
      LastMerge(ws, n);
      MergedAt(MergedAll([], ws[..n - 1]), ws[n - 1]);
    } else {
      assert ws[..0] == [];
    }
  }

  // The ends of a member are ends of windows.
  lemma {:induction false} EndsOfWindows(ws: seq<Span>, n: nat, k: nat) returns (i: nat, h: nat)
    requires n <= |ws| && k < |MergedAll([], ws[..n])|
    ensures i < n && ws[i].lo == MergedAll([], ws[..n])[k].lo
    ensures h < n && ws[h].hi == MergedAll([], ws[..n])[k].hi
  {
    LastMerge(ws, n);
    var rs, r := MergedAll([], ws[..n - 1]), ws[n - 1];
    MergedAt(rs, r);
    i, h := n - 1, n - 1;
    if k < |rs| {
      var i', h' := EndsOfWindows(ws, n - 1, k);
      var m := Merged(rs, r)[k];
      i := if m.lo == rs[k].lo then i' else n - 1;
      h := if m.hi == rs[k].hi then h' else n - 1;
    }
  }

  // A member crosses a cut exactly when a window does, or the windows join there.
  lemma PrefixCrosses(ws: seq<Span>, n: nat, a: int, b: int)
    requires IsCut(a, b) && n <= |ws|
    ensures AnyCrosses(MergedAll([], ws[..n]), a, b) <==>
            (exists i :: 0 <= i < n && Crosses(ws[i], a, b)) || Joins(ws, n, a, b)
  {
    hide MergedAll, Joins, AnyCrosses;
    if i :| 0 <= i < n && Crosses(ws[i], a, b) {
      NeverLosesCrossing(ws, n, i, a, b);
    } else {
      CrossExact(ws, n, a, b);
    }
  }

  /**
   Window j takes in an instant that is covered before it, by a window or across a join, while nothing
   before it crosses the cut behind that instant, and it reaches a window that shields the cut.
   */
  predicate Bridges(ws: seq<Span>, j: nat, c: int)
    requires j < |ws|
  {
    && ws[j].lo <= c < ws[j].hi
    && ((exists i :: 0 <= i < j && Crosses(ws[i], c, c)) || Joins(ws, j, c, c))
    && (forall i :: 0 <= i < j ==> !Crosses(ws[i], c, c + 1)) && !Joins(ws, j, c, c + 1)
    && exists i :: 0 <= i < j && Shields(ws, i, c, c + 1) && ws[i].lo <= ws[j].hi
  }

  lemma BridgesExact(ws: seq<Span>, j: nat, c: int)
    requires j < |ws|
    ensures Bridges(ws, j, c) <==> Doubles(MergedAll([], ws[..j]), ws[j], c)
  {
    hide MergedAll, Joins, AnyCrosses, Guarded, Shields, Crosses;
    PrefixCrosses(ws, j, c, c);
    PrefixCrosses(ws, j, c, c + 1);
    if !AnyCrosses(MergedAll([], ws[..j]), c, c + 1) {
      CrossExact(ws, j, c, c + 1);
    }
  }

  lemma {:induction false} PrefixApart(ws: seq<Span>, n: nat)
    requires n <= |ws|
    ensures NoTwice(MergedAll([], ws[..n])) <==> forall j, c :: 0 <= j < n ==> !Bridges(ws, j, c)
    ensures NoTwice(MergedAll([], ws[..n])) ==> Descending(MergedAll([], ws[..n]))
  {
    hide Bridges, NoTwice, Descending, Doubles;
    if n == 0 {
      assert ws[..0] == [];
      NothingTwice();
    } else {
      PrefixApart(ws, n - 1);
      LastMerge(ws, n);
      var j: nat := n - 1;
      var rs := MergedAll([], ws[..j]);
      forall c
        ensures Bridges(ws, j, c) <==> Doubles(rs, ws[j], c)
      {
        BridgesExact(ws, j, c);
      }
      if NoTwice(rs) {
        MergeDoubles(rs, ws[j]);
      } else if NoTwice(Merged(rs, ws[j])) {
        TwiceStays(rs, ws[j]);
      }
    }
  }

  lemma NothingTwice()
    ensures NoTwice([]) && Descending([])
  {
  }

  /**
   No instant is covered by two members of the merged set if and only if no window bridges earlier ones,
   whatever the windows and their order.  For windows that are not empty that is, members are apart.
   */
  lemma ApartExact(ws: seq<Span>)
    ensures NoTwice(MergedAll([], ws)) <==> forall j, c :: 0 <= j < |ws| ==> !Bridges(ws, j, c)
    ensures AllNonEmpty(ws) ==> (AllApart(MergedAll([], ws)) <==> NoTwice(MergedAll([], ws)))
  {
    hide Bridges, MergedAll;
    assert ws[..|ws|] == ws;
    PrefixApart(ws, |ws|);
    if AllNonEmpty(ws) {
      MembersNonEmpty(ws, |ws|);
      TwiceIs(MergedAll([], ws));
    }
  }

  lemma TwiceIs(rs: seq<Span>)
    requires AllNonEmpty(rs)
    ensures AllApart(rs) <==> NoTwice(rs)
  {
    forall k, l | 0 <= k < l < |rs|
      ensures Apart(rs[k], rs[l]) <==> forall t :: !(Covers(rs[k], t) && Covers(rs[l], t))
    {
      ApartIs(rs[k], rs[l]);
    }
  }

  /** It is enough to look at the ends of the earlier windows: the condition is a finite check. */
  lemma BridgesFollow(ws: seq<Span>)
    ensures (forall j, c :: 0 <= j < |ws| ==> !Bridges(ws, j, c)) <==>
            forall j, h :: 0 <= h < j < |ws| ==> !Bridges(ws, j, ws[h].hi)
  {
    hide Bridges;
    if j, c :| 0 <= j < |ws| && Bridges(ws, j, c) {
      var h := BridgesEnd(ws, j, c);
    }
  }

  lemma BridgesEnd(ws: seq<Span>, j: nat, c: int) returns (h: nat)
    requires j < |ws| && Bridges(ws, j, c)
    ensures h < j && ws[h].hi == c
  {
    hide Bridges, MergedAll, Guarded;
    BridgesExact(ws, j, c);
    var rs := MergedAll([], ws[..j]);
    var k :| 0 <= k < |rs| && Crosses(rs[k], c, c);
    assert !Crosses(rs[k], c, c + 1);
    var _, e := EndsOfWindows(ws, j, k);
    h := e;
  }
}
