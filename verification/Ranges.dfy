/**
 Time ranges and sets of them as values (dots/range.go): what Merge, Intersect and GetOverlap compute
 as they are written, and exactly when that is what their documentation asks for.  Instants are
 integers, in nanoseconds.
 */
module Ranges {
  // A range with both ends included; it is empty when hi < lo.
  datatype Span = Span(lo: int, hi: int)

  predicate Covers(s: Span, t: int) {
    s.lo <= t <= s.hi
  }

  predicate Covered(rs: seq<Span>, t: int) {
    exists i :: 0 <= i < |rs| && Covers(rs[i], t)
  }

  // IsDisjoint, as it is written: s ends before r begins.
  predicate Before(s: Span, r: Span) {
    s.hi < r.lo
  }

  predicate NonEmpty(s: Span) {
    s.lo <= s.hi
  }

  predicate AllNonEmpty(rs: seq<Span>) {
    forall i :: 0 <= i < |rs| ==> NonEmpty(rs[i])
  }

  predicate Apart(s: Span, r: Span) {
    Before(s, r) || Before(r, s)
  }

  predicate AllApart(rs: seq<Span>) {
    forall i, j :: 0 <= i < j < |rs| ==> Apart(rs[i], rs[j])
  }

  function Min(a: int, b: int): int { if a < b then a else b }

  function Max(a: int, b: int): int { if a < b then b else a }

  // MergeFrom
  function Hull(s: Span, r: Span): Span {
    Span(Min(s.lo, r.lo), Max(s.hi, r.hi))
  }

  // Intersect
  function Cut(s: Span, r: Span): Span {
    if Before(s, r) then s else Span(Max(s.lo, r.lo), Min(s.hi, r.hi))
  }

  lemma ApartIs(s: Span, r: Span)
    requires NonEmpty(s) && NonEmpty(r)
    ensures Apart(s, r) <==> forall t :: !(Covers(s, t) && Covers(r, t))
  {
    if !Apart(s, r) {
      assert Covers(s, Max(s.lo, r.lo)) && Covers(r, Max(s.lo, r.lo));
    }
  }

  /** The test is one-sided: it agrees with disjointness unless the second range ends before the first begins. */
  lemma OneSided(s: Span, r: Span)
    requires NonEmpty(s) && NonEmpty(r)
    ensures (Before(s, r) <==> forall t :: !(Covers(s, t) && Covers(r, t))) <==> !Before(r, s)
  {
    ApartIs(s, r);
  }

  // ---- merging ----

  // The index of the first member that the range is not before, or the number of members.
  function FirstHit(rs: seq<Span>, r: Span): (k: nat)
    ensures k <= |rs| && (k < |rs| ==> !Before(r, rs[k])) && forall i :: 0 <= i < k ==> Before(r, rs[i])
  {
    if rs == [] || !Before(r, rs[0]) then 0 else FirstHit(rs[1..], r) + 1
  }

  // Merge
  function Merged(rs: seq<Span>, r: Span): seq<Span> {
    var k := FirstHit(rs, r);
    if k < |rs| then rs[k := Hull(rs[k], r)] else rs + [r]
  }

  function MergedAll(rs: seq<Span>, ws: seq<Span>): seq<Span> {
    if ws == [] then rs else Merged(MergedAll(rs, ws[..|ws| - 1]), ws[|ws| - 1])
  }

  // An instant that only the joining of m and r covers.
  predicate Extra(m: Span, r: Span, t: int) {
    Covers(Hull(m, r), t) && !Covers(m, t) && !Covers(r, t)
  }

  /** What joining adds: the gap between the two, or for an empty range what it reaches beyond m. */
  lemma ExtraIs(m: Span, r: Span, t: int)
    requires NonEmpty(m) && !Before(r, m)
    ensures Extra(m, r, t) <==> m.hi < t && (if NonEmpty(r) then t < r.lo else t <= r.hi)
  {
  }

  /** Merge drops no instant, and adds none but those of a false join. */
  lemma MergeCovers(rs: seq<Span>, r: Span, t: int)
    ensures var k := FirstHit(rs, r);
            Covered(Merged(rs, r), t) <==>
              Covered(rs, t) || Covers(r, t) || (k < |rs| && Extra(rs[k], r, t))
  {
    var k, ms := FirstHit(rs, r), Merged(rs, r);
    if Covered(rs, t) {
      var i :| 0 <= i < |rs| && Covers(rs[i], t);
      assert Covers(ms[i], t);
    }
    if k == |rs| {
      assert ms[k] == r;
    } else {
      assert ms[k] == Hull(rs[k], r);
    }
    if Covered(ms, t) {
      var i :| 0 <= i < |ms| && Covers(ms[i], t);
      if i < |rs| {
        assert Covers(rs[i], t) || (i == k && (Covers(r, t) || Extra(rs[k], r, t)));
      }
    }
  }

  /** Merge keeps the members apart exactly when the widened member meets no other one. */
  lemma MergeApart(rs: seq<Span>, r: Span)
    requires AllApart(rs)
    ensures var k, ms := FirstHit(rs, r), Merged(rs, r);
            AllApart(ms) <==>
            (k < |rs| ==> forall i :: 0 <= i < |rs| && i != k ==> Apart(Hull(rs[k], r), rs[i]))
  {
    var k, ms := FirstHit(rs, r), Merged(rs, r);
    if k < |rs| {
      if AllApart(ms) {
        forall i | 0 <= i < |rs| && i != k
          ensures Apart(Hull(rs[k], r), rs[i])
        {
          assert ms[k] == Hull(rs[k], r) && ms[i] == rs[i];
          assert Apart(ms[if i < k then i else k], ms[if i < k then k else i]);
        }
      }
    } else {
      assert ms[k] == r;
    }
  }

  // ---- overlap with a request ----

  // The request after the loop of GetOverlap: every member it is not before, at its turn, cuts it down.
  function Shrunk(rs: seq<Span>, q: Span): Span {
    if rs == [] then q else Shrunk(rs[1..], Cut(q, rs[0]))
  }

  // How often the loop puts the request into the result: again only while it is empty.
  function Copies(rs: seq<Span>, q: Span, n: nat): nat {
    if rs == [] then n
    else
      var q' := Cut(q, rs[0]);
      Copies(rs[1..], q', if Before(q, rs[0]) || (n > 0 && NonEmpty(q')) then n else n + 1)
  }

  // What GetOverlap returns: copies of the one request.
  function Overlap(rs: seq<Span>, q: Span): seq<Span> {
    seq(Copies(rs, q, 0), i => Shrunk(rs, q))
  }

  // The member begins early enough for the test.
  predicate Passes(m: Span, q: Span) {
    m.lo <= q.hi
  }

  lemma {:induction false} ShrunkWithin(rs: seq<Span>, q: Span)
    ensures q.lo <= Shrunk(rs, q).lo && Shrunk(rs, q).hi <= q.hi
  {
    if rs != [] {
      ShrunkWithin(rs[1..], Cut(q, rs[0]));
    }
  }

  lemma {:induction false} CopiesGrow(rs: seq<Span>, q: Span, n: nat)
    ensures Copies(rs, q, n) >= n
    ensures n == 0 ==> (Copies(rs, q, n) > 0 <==> exists i :: 0 <= i < |rs| && Passes(rs[i], q))
  {
    if rs != [] {
      CopiesGrow(rs[1..], Cut(q, rs[0]), if Before(q, rs[0]) || (n > 0 && NonEmpty(Cut(q, rs[0]))) then n else n + 1);
      if Before(q, rs[0]) {
        assert forall i :: 0 < i < |rs| ==> rs[i] == rs[1..][i - 1];
        assert (exists i :: 0 <= i < |rs| && Passes(rs[i], q)) <==>
               (exists i :: 0 <= i < |rs[1..]| && Passes(rs[1..][i], q)) by {
          if i :| 0 <= i < |rs| && Passes(rs[i], q) {
            assert Passes(rs[1..][i - 1], q);
          }
        }
      } else {
        assert Passes(rs[0], q);
      }
    }
  }

  // A member that passes when the loop starts confines the result, unless the request is already below it.
  lemma {:induction false} ShrunkBelow(rs: seq<Span>, q: Span, i: nat)
    requires i < |rs| && Passes(rs[i], q)
    ensures Shrunk(rs, q).hi <= rs[i].hi || Before(Shrunk(rs, q), rs[i])
    ensures Shrunk(rs, q).lo >= rs[i].lo || Before(Shrunk(rs, q), rs[i])
  {
    var q' := Cut(q, rs[0]);
    ShrunkWithin(rs[1..], q');
    if i > 0 && Passes(rs[i], q') {
      ShrunkBelow(rs[1..], q', i - 1);
    }
  }

  lemma {:induction false} NonePass(rs: seq<Span>, q: Span)
    requires forall i :: 0 <= i < |rs| ==> !Passes(rs[i], q)
    ensures Shrunk(rs, q) == q
  {
    if rs != [] {
      NonePass(rs[1..], q);
    }
  }

  lemma {:induction false} OnePasses(rs: seq<Span>, q: Span, k: nat)
    requires k < |rs| && Passes(rs[k], q) && forall i :: 0 <= i < |rs| && i != k ==> !Passes(rs[i], q)
    ensures Shrunk(rs, q) == Span(Max(q.lo, rs[k].lo), Min(q.hi, rs[k].hi))
  {
    if k == 0 {
      NonePass(rs[1..], Cut(q, rs[0]));
    } else {
      OnePasses(rs[1..], q, k - 1);
    }
  }

  lemma {:induction false} SomeCut(rs: seq<Span>, q: Span, t: int) returns (k: nat)
    requires (exists i :: 0 <= i < |rs| && Passes(rs[i], q)) && Covers(Shrunk(rs, q), t)
    ensures k < |rs| && Covers(rs[k], t)
  {
    if Before(q, rs[0]) {
      var i :| 0 <= i < |rs| && Passes(rs[i], q);
      assert Passes(rs[1..][i - 1], q);
      k := SomeCut(rs[1..], q, t);
      k := k + 1;
    } else {
      ShrunkWithin(rs[1..], Cut(q, rs[0]));
      k := 0;
    }
  }

  /** GetOverlap is sound: what it covers lies in the request and in the set. */
  lemma OverlapSound(rs: seq<Span>, q: Span, t: int)
    requires Covered(Overlap(rs, q), t)
    ensures Covers(q, t) && Covered(rs, t)
  {
    CopiesGrow(rs, q, 0);
    ShrunkWithin(rs, q);
    var k := SomeCut(rs, q, t);
  }

  ghost predicate OverlapIsExact(rs: seq<Span>, q: Span) {
    forall t :: Covered(Overlap(rs, q), t) <==> Covers(q, t) && Covered(rs, t)
  }

  lemma OverlapCovers(rs: seq<Span>, q: Span, i: nat, t: int)
    requires i < |rs| && Passes(rs[i], q)
    ensures Covered(Overlap(rs, q), t) <==> Covers(Shrunk(rs, q), t)
  {
    CopiesGrow(rs, q, 0);
    if Covers(Shrunk(rs, q), t) {
      assert Covers(Overlap(rs, q)[0], t);
    }
  }

  // Two members that pass: an instant of the overlap is lost.
  lemma TwoPassLose(rs: seq<Span>, q: Span, i: nat, j: nat, t: int)
    requires i < |rs| && j < |rs| && Before(rs[i], rs[j]) && Passes(rs[i], q) && Passes(rs[j], q)
    requires NonEmpty(rs[i]) && NonEmpty(rs[j]) && Covers(q, t) && Covers(rs[i], t)
    ensures exists u :: Covers(q, u) && Covered(rs, u) && !Covers(Shrunk(rs, q), u)
  {
    ShrunkBelow(rs, q, i);
    ShrunkBelow(rs, q, j);
    assert Covers(q, rs[j].lo) && Covers(rs[j], rs[j].lo);
    assert !Covers(Shrunk(rs, q), rs[j].lo) || !Covers(Shrunk(rs, q), t);
  }

  /**
   For members that are apart and not empty, GetOverlap covers exactly the overlap if and only if there
   is none, or only one member begins before the request ends.
   */
  lemma OverlapExact(rs: seq<Span>, q: Span)
    requires AllNonEmpty(rs)
    requires AllApart(rs)
    ensures OverlapIsExact(rs, q) <==>
            (forall i, t :: 0 <= i < |rs| && Covers(rs[i], t) ==> !Covers(q, t)) ||
            (forall i, j :: 0 <= i < j < |rs| ==> !(Passes(rs[i], q) && Passes(rs[j], q)))
  {
    hide Overlap;
    forall t | Covered(Overlap(rs, q), t)
      ensures Covers(q, t) && Covered(rs, t)
    {
      OverlapSound(rs, q, t);
    }
    if forall i, j :: 0 <= i < j < |rs| ==> !(Passes(rs[i], q) && Passes(rs[j], q)) {
      forall t | Covers(q, t) && Covered(rs, t)
        ensures Covered(Overlap(rs, q), t)
      {
        var k :| 0 <= k < |rs| && Covers(rs[k], t);
        OnePasses(rs, q, k);
        OverlapCovers(rs, q, k, t);
      }
    } else if i, t :| 0 <= i < |rs| && Covers(rs[i], t) && Covers(q, t) {
      TwoPass(rs, q, i, t);
    }
  }

  lemma TwoPass(rs: seq<Span>, q: Span, i: nat, t: int)
    requires AllNonEmpty(rs)
    requires AllApart(rs)
    requires exists i, j :: 0 <= i < j < |rs| && Passes(rs[i], q) && Passes(rs[j], q)
    requires i < |rs| && Covers(rs[i], t) && Covers(q, t)
    ensures !OverlapIsExact(rs, q)
  {
    var a, b :| 0 <= a < b < |rs| && Passes(rs[a], q) && Passes(rs[b], q);
    var j := if a == i then b else a;
    assert Apart(rs[if i < j then i else j], rs[if i < j then j else i]);
    if Before(rs[i], rs[j]) {
      TwoPassLose(rs, q, i, j, t);
      var u :| Covers(q, u) && Covered(rs, u) && !Covers(Shrunk(rs, q), u);
      OverlapCovers(rs, q, i, u);
    } else {
      ShrunkBelow(rs, q, i);
      ShrunkBelow(rs, q, j);
      OverlapCovers(rs, q, i, t);
    }
  }

  // Member k does not cut off an instant before it: the request ends earlier, or has been cut down to.
  predicate Spared(rs: seq<Span>, q: Span, k: nat, t: int)
    requires k < |rs|
  {
    q.hi < rs[k].lo || exists i :: 0 <= i < k && rs[i].lo <= t && rs[i].hi < rs[k].lo
  }

  // Every member that begins by the instant reaches it, and none behind it cuts it off.
  predicate Survives(rs: seq<Span>, q: Span, t: int) {
    forall k :: 0 <= k < |rs| ==> if rs[k].lo <= t then t <= rs[k].hi else Spared(rs, q, k, t)
  }

  lemma SurvivesStep(rs: seq<Span>, q: Span, t: int)
    requires rs != [] && Covers(Cut(q, rs[0]), t)
    ensures Survives(rs, q, t) <==> Survives(rs[1..], Cut(q, rs[0]), t)
  {
    var q', tail := Cut(q, rs[0]), rs[1..];
    forall k | 0 <= k < |tail|
      ensures tail[k] == rs[k + 1] && (t < tail[k].lo ==> (Spared(tail, q', k, t) <==> Spared(rs, q, k + 1, t)))
    {
      if t < tail[k].lo && Spared(rs, q, k + 1, t) && q.hi >= rs[k + 1].lo {
        var i :| 0 <= i < k + 1 && rs[i].lo <= t && rs[i].hi < rs[k + 1].lo;
        assert i > 0 ==> tail[i - 1] == rs[i];
      }
      if t < tail[k].lo && Spared(tail, q', k, t) && q'.hi >= tail[k].lo {
        var i :| 0 <= i < k && tail[i].lo <= t && tail[i].hi < tail[k].lo;
        assert rs[i + 1] == tail[i];
      }
    }
    if Survives(tail, q', t) {
      forall k | 0 <= k < |rs|
        ensures if rs[k].lo <= t then t <= rs[k].hi else Spared(rs, q, k, t)
      {
        assert k > 0 ==> rs[k] == tail[k - 1];
      }
    }
  }

  /** Whatever the members, an instant of the request is left in it exactly when it survives them. */
  lemma {:induction false} SurvivesExact(rs: seq<Span>, q: Span, t: int)
    requires Covers(q, t)
    ensures Covers(Shrunk(rs, q), t) <==> Survives(rs, q, t)
  {
    if rs != [] {
      var q' := Cut(q, rs[0]);
      if Covers(q', t) {
        SurvivesStep(rs, q, t);
        SurvivesExact(rs[1..], q', t);
      } else {
        ShrunkWithin(rs[1..], q');
        assert !Spared(rs, q, 0, t);
      }
    }
  }

  /** Whatever the members, GetOverlap covers exactly the overlap if and only if all of it survives. */
  lemma OverlapSurvives(rs: seq<Span>, q: Span)
    ensures OverlapIsExact(rs, q) <==> forall t :: Covers(q, t) && Covered(rs, t) ==> Survives(rs, q, t)
  {
    hide Overlap, Survives;
    forall t
      ensures Covered(Overlap(rs, q), t) <==> Covers(q, t) && Covered(rs, t) && Survives(rs, q, t)
    {
      if Covered(Overlap(rs, q), t) {
        OverlapSound(rs, q, t);
      }
      if Covers(q, t) && Covered(rs, t) {
        var i :| 0 <= i < |rs| && Covers(rs[i], t);
        OverlapCovers(rs, q, i, t);
        SurvivesExact(rs, q, t);
      }
    }
  }
}
