/**
 The range operations as their documentation describes them (dots/README.md:15-43 and 77-106):
 an empty range contributes nothing, merging joins every member that it meets, and an overlap is taken
 with a fresh copy for each member.  This is the reference that Ranges is measured against.
 */
module RangesIntended {
  import opened Ranges
  import opened RangeMerges

  function Joined(rs: seq<Span>, r: Span): seq<Span> {
    if rs == [] then [r]
    else if Apart(rs[0], r) then [rs[0]] + Joined(rs[1..], r)
    else Joined(rs[1..], Hull(rs[0], r))
  }

  function JoinedAll(ws: seq<Span>): seq<Span> {
    if ws == [] then [] else
    var rs := JoinedAll(ws[..|ws| - 1]);
    if NonEmpty(ws[|ws| - 1]) then Joined(rs, ws[|ws| - 1]) else rs
  }

  function Both(r: Span, q: Span): Span {
    Span(Max(r.lo, q.lo), Min(r.hi, q.hi))
  }

  function Overlaps(rs: seq<Span>, q: Span): seq<Span> {
    if rs == [] then []
    else if Apart(rs[0], q) then Overlaps(rs[1..], q)
    else [Both(rs[0], q)] + Overlaps(rs[1..], q)
  }

  lemma {:induction false} CoveredCons(r: Span, rs: seq<Span>, t: int)
    ensures Covered([r] + rs, t) <==> Covers(r, t) || Covered(rs, t)
  {
    var all := [r] + rs;
    if Covers(r, t) {
      assert Covers(all[0], t);
    }
    if i :| 0 <= i < |rs| && Covers(rs[i], t) {
      assert Covers(all[i + 1], t);
    }
    if i :| 0 <= i < |all| && Covers(all[i], t) && i > 0 {
      assert Covers(rs[i - 1], t);
    }
  }

  lemma {:induction false} JoinedCovers(rs: seq<Span>, r: Span, t: int)
    requires AllNonEmpty(rs) && NonEmpty(r)
    ensures Covered(Joined(rs, r), t) <==> Covered(rs, t) || Covers(r, t)
  {
    if rs == [] {
      CoveredCons(r, [], t);
    } else {
      assert rs == [rs[0]] + rs[1..];
      CoveredCons(rs[0], rs[1..], t);
      if Apart(rs[0], r) {
        JoinedCovers(rs[1..], r, t);
        CoveredCons(rs[0], Joined(rs[1..], r), t);
      } else {
        JoinedCovers(rs[1..], Hull(rs[0], r), t);
      }
    }
  }

  predicate AwayFrom(x: Span, rs: seq<Span>) {
    forall i :: 0 <= i < |rs| ==> Apart(x, rs[i])
  }

  lemma Cons(r: Span, rs: seq<Span>)
    ensures AllApart([r] + rs) <==> AllApart(rs) && AwayFrom(r, rs)
    ensures AllNonEmpty([r] + rs) <==> AllNonEmpty(rs) && NonEmpty(r)
    ensures forall x :: AwayFrom(x, [r] + rs) <==> Apart(x, r) && AwayFrom(x, rs)
  {
    hide Apart, NonEmpty, AllApart, AwayFrom;
    var all := [r] + rs;
    assert rs == all[1..] && all[0] == r;
    assert forall i :: 0 <= i < |rs| ==> rs[i] == all[i + 1];
    ConsApart(all);
    forall x
      ensures AwayFrom(x, [r] + rs) <==> Apart(x, r) && AwayFrom(x, rs)
    {
      ConsAway(all, x);
    }
  }

  lemma ConsAway(all: seq<Span>, x: Span)
    requires all != []
    ensures AwayFrom(x, all) <==> Apart(x, all[0]) && AwayFrom(x, all[1..])
  {
    hide Apart;
    var rs := all[1..];
    assert forall i :: 0 <= i < |rs| ==> rs[i] == all[i + 1];
    assert forall i :: 0 < i < |all| ==> all[i] == rs[i - 1];
  }

  lemma ConsApart(all: seq<Span>)
    requires all != []
    ensures AllApart(all) <==> AllApart(all[1..]) && AwayFrom(all[0], all[1..])
  {
    hide Apart;
    var rs := all[1..];
    if AllApart(all) {
      forall i, j | 0 <= i < j < |rs|
        ensures Apart(rs[i], rs[j])
      {
        assert Apart(all[i + 1], all[j + 1]);
      }
    } else {
      var i, j :| 0 <= i < j < |all| && !Apart(all[i], all[j]);
      assert all[j] == rs[j - 1];
      if i > 0 {
        assert all[i] == rs[i - 1];
      }
    }
  }

  // Whatever is apart from all members and the range is apart from the result.
  lemma {:induction false} JoinedAway(rs: seq<Span>, r: Span, x: Span)
    requires AllNonEmpty(rs) && NonEmpty(r) && NonEmpty(x) && Apart(x, r) && AwayFrom(x, rs)
    ensures AwayFrom(x, Joined(rs, r))
  {
    if rs != [] {
      assert rs == [rs[0]] + rs[1..];
      Cons(rs[0], rs[1..]);
      if Apart(rs[0], r) {
        JoinedAway(rs[1..], r, x);
        Cons(rs[0], Joined(rs[1..], r));
      } else {
        JoinedAway(rs[1..], Hull(rs[0], r), x);
      }
    }
  }

  lemma {:induction false} JoinedApart(rs: seq<Span>, r: Span)
    requires AllNonEmpty(rs) && NonEmpty(r) && AllApart(rs)
    ensures AllNonEmpty(Joined(rs, r)) && AllApart(Joined(rs, r))
  {
    hide AwayFrom, Apart;
    if rs != [] {
      assert rs == [rs[0]] + rs[1..];
      Cons(rs[0], rs[1..]);
      if Apart(rs[0], r) {
        JoinedApart(rs[1..], r);
        JoinedAway(rs[1..], r, rs[0]);
        Cons(rs[0], Joined(rs[1..], r));
      } else {
        JoinedApart(rs[1..], Hull(rs[0], r));
      }
    }
  }

  /** Whatever the order of the windows, the set covers exactly their instants and its members are apart. */
  lemma {:induction false} JoinedExact(ws: seq<Span>, t: int)
    ensures AllNonEmpty(JoinedAll(ws)) && AllApart(JoinedAll(ws))
    ensures Covered(JoinedAll(ws), t) <==> Covered(ws, t)
  {
    if ws != [] {
      var front, r := ws[..|ws| - 1], ws[|ws| - 1];
      JoinedExact(front, t);
      if NonEmpty(r) {
        JoinedApart(JoinedAll(front), r);
        JoinedCovers(JoinedAll(front), r, t);
      }
      if i :| 0 <= i < |front| && Covers(front[i], t) {
        assert Covers(ws[i], t);
      }
    }
  }

  lemma {:induction false} OverlapsAway(rs: seq<Span>, q: Span, x: Span)
    requires AwayFrom(x, rs)
    ensures AwayFrom(x, Overlaps(rs, q))
  {
    hide AwayFrom;
    if rs == [] {
      assert Overlaps(rs, q) == rs;
    } else {
      assert rs == [rs[0]] + rs[1..];
      Cons(rs[0], rs[1..]);
      OverlapsAway(rs[1..], q, x);
      if !Apart(rs[0], q) {
        Cons(Both(rs[0], q), Overlaps(rs[1..], q));
        CutAway(rs[0], Both(rs[0], q), []);
      }
    }
  }

  /** The overlap covers exactly the instants in the request and in the set, and its members are apart. */
  lemma {:induction false} OverlapsExact(rs: seq<Span>, q: Span, t: int)
    requires AllNonEmpty(rs) && AllApart(rs)
    ensures Covered(Overlaps(rs, q), t) <==> Covers(q, t) && Covered(rs, t)
    ensures AllApart(Overlaps(rs, q))
  {
    hide AwayFrom;
    if rs != [] {
      OverlapsExact(rs[1..], q, t);
      assert rs == [rs[0]] + rs[1..];
      CoveredCons(rs[0], rs[1..], t);
      Cons(rs[0], rs[1..]);
      if !Apart(rs[0], q) {
        OverlapsAway(rs[1..], q, rs[0]);
        CoveredCons(Both(rs[0], q), Overlaps(rs[1..], q), t);
        Cons(Both(rs[0], q), Overlaps(rs[1..], q));
        CutAway(rs[0], Both(rs[0], q), Overlaps(rs[1..], q));
      }
    }
  }

  // A range inside another is apart from whatever that one is apart from.
  lemma CutAway(r: Span, cut: Span, rs: seq<Span>)
    requires r.lo <= cut.lo && cut.hi <= r.hi
    ensures AwayFrom(r, rs) ==> AwayFrom(cut, rs)
    ensures forall x :: Apart(x, r) ==> Apart(x, cut)
  {
  }

  /** The set that the program builds covers at least as much, and the same exactly without a false join. */
  lemma IntendedIsReached(ws: seq<Span>)
    ensures forall t :: Covered(JoinedAll(ws), t) ==> Covered(MergedAll([], ws), t)
    ensures (forall t :: Covered(JoinedAll(ws), t) <==> Covered(MergedAll([], ws), t)) <==> NoFalseJoin(ws)
  {
    hide NoFalseJoin;
    forall t
      ensures Covered(JoinedAll(ws), t) <==> Covered(ws, t)
      ensures Covered(ws, t) ==> Covered(MergedAll([], ws), t)
    {
      JoinedExact(ws, t);
      if Covered(ws, t) {
        NeverLoses(ws, t);
      }
    }
    MergeExact(ws);
  }
}
