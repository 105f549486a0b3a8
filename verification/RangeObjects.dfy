/**
 The range operations on the objects that the program shares and overwrites (dots/range.go,
 dots/master.go:64-92), each method tied to its function in Ranges.
 */
module RangeObjects {
  import opened Ranges

  class TimeRange {
    var Start: int
    var End: int

    constructor (start: int, end: int)
      ensures Start == start && End == end
    {
      Start, End := start, end;
    }

    function View(): Span
      reads this
    {
      Span(Start, End)
    }

    predicate IsDisjoint(rng2: TimeRange)
      reads this, rng2
    {
      End < rng2.Start
    }

    method MergeFrom(rng2: TimeRange)
      modifies this
      ensures View() == Hull(old(View()), old(rng2.View()))
    {
      if Start > rng2.Start {
        Start := rng2.Start;
      }
      if End < rng2.End {
        End := rng2.End;
      }
    }

    // Setting the receiver to nil, when there is no intersection, has no effect on the object.
    method Intersect(rng2: TimeRange)
      modifies this
      ensures View() == Cut(old(View()), old(rng2.View()))
    {
      if IsDisjoint(rng2) {
        return;
      }
      if Start < rng2.Start {
        Start := rng2.Start;
      }
      if End > rng2.End {
        End := rng2.End;
      }
    }

    // An empty range contains its two ends, any other exactly what it covers.
    predicate Contains(t: int)
      reads this
      ensures Contains(t) <==> Covers(View(), t) || (End < Start && (t == Start || t == End))
    {
      (Start < t && End > t) || Start == t || End == t
    }
  }

  function Views(rs: seq<TimeRange>): (vs: seq<Span>)
    reads rs
    ensures |vs| == |rs| && forall i :: 0 <= i < |rs| ==> vs[i] == rs[i].View()
  {
    seq(|rs|, i requires 0 <= i < |rs| reads rs => rs[i].View())
  }

  predicate Distinct(rs: seq<TimeRange>) {
    forall i, j :: 0 <= i < j < |rs| ==> rs[i] != rs[j]
  }

  class DisjointRanges {
    var Ranges: seq<TimeRange>

    constructor ()
      ensures Ranges == []
    {
      Ranges := [];
    }

    function View(): seq<Span>
      reads this, Ranges
    {
      Views(Ranges)
    }

    /**
     The first member that the range is not before is widened in place; without one the range itself
     is appended.  No other object changes.
     */
    method Merge(rng: TimeRange)
      modifies this, Ranges
      ensures var k := FirstHit(old(View()), old(rng.View()));
              && Ranges == (if k < |old(Ranges)| then old(Ranges) else old(Ranges) + [rng])
              && (k < |old(Ranges)| ==> old(Ranges)[k].View() == Hull(old(View())[k], old(rng.View())))
              && forall o :: o in old(Ranges) && (k < |old(Ranges)| ==> o != old(Ranges)[k]) ==>
                o.View() == old(o.View())
      ensures Distinct(old(Ranges)) && rng !in old(Ranges) ==>
                Distinct(Ranges) && View() == Merged(old(View()), old(rng.View()))
    {
      var i := 0;
      while i < |Ranges|
        invariant 0 <= i <= |Ranges| && Ranges == old(Ranges)
        invariant forall j :: 0 <= j < i ==> Before(rng.View(), Ranges[j].View())
        invariant View() == old(View()) && rng.View() == old(rng.View())
        invariant forall o :: o in Ranges ==> o.View() == old(o.View())
      {
        var oldrng := Ranges[i];
        if !rng.IsDisjoint(oldrng) {
          FirstIs(View(), rng.View(), i);
          oldrng.MergeFrom(rng);
          assert Distinct(old(Ranges)) ==> View() == old(View())[i := Hull(old(View())[i], old(rng.View()))];
          return;
        }
        i := i + 1;
      }
      FirstIs(View(), rng.View(), i);
      Ranges := Ranges + [rng];
      assert View() == old(View()) + [rng.View()];
    }

    // The request is cut down to a member, and merged into the result, which holds nothing but itself.
    method AddOverlap(rng: TimeRange, oldrange: TimeRange)
      requires Repeats(Ranges, rng) && oldrange != rng
      modifies this, rng
      ensures Repeats(Ranges, rng) && rng.View() == Cut(old(rng.View()), oldrange.View())
      ensures |Ranges| == |old(Ranges)| + if old(Ranges) != [] && NonEmpty(rng.View()) then 0 else 1
    {
      rng.Intersect(oldrange);
      SelfHit(Ranges, rng);
      label before:
      Merge(rng);
      assert rng.View() == old@before(rng.View());
    }

    /**
     The caller's own object is cut down and is the only range of the result; the set it is called on
     keeps its members and their ends.
     */
    method GetOverlap(rng: TimeRange) returns (newdj: DisjointRanges)
      requires rng !in Ranges
      modifies rng
      ensures fresh(newdj) && Repeats(newdj.Ranges, rng)
      ensures rng.View() == Shrunk(View(), old(rng.View()))
      ensures newdj.View() == Overlap(View(), old(rng.View()))
      ensures View() == old(View())
    {
      hide Cut, Before, NonEmpty;
      newdj := new DisjointRanges();
      ghost var q, vs := rng.View(), View();
      var i := 0;
      while i < |Ranges|
        invariant 0 <= i <= |Ranges| && fresh(newdj) && Ranges == old(Ranges)
        invariant View() == vs && Repeats(newdj.Ranges, rng)
        invariant Shrunk(vs[i..], rng.View()) == Shrunk(vs, q)
        invariant Copies(vs[i..], rng.View(), |newdj.Ranges|) == Copies(vs, q, 0)
      {
        assert vs[i] == Ranges[i].View();
        OverlapStep(vs, i, rng.View(), |newdj.Ranges|);
        var oldrange := Ranges[i];
        if !rng.IsDisjoint(oldrange) {
          newdj.AddOverlap(rng, oldrange);
        }
        i := i + 1;
      }
      ViewsRepeat(newdj.Ranges, rng, Shrunk(vs, q));
    }
  }

  lemma ViewsRepeat(rs: seq<TimeRange>, rng: TimeRange, w: Span)
    requires Repeats(rs, rng) && rng.View() == w
    ensures Views(rs) == seq(|rs|, i => w)
  {
    assert forall i :: 0 <= i < |rs| ==> Views(rs)[i] == w;
  }

  // One turn of the loop of GetOverlap.
  lemma OverlapStep(vs: seq<Span>, i: nat, q: Span, n: nat)
    requires i < |vs|
    ensures Before(q, vs[i]) <==> q.hi < vs[i].lo
    ensures Before(q, vs[i]) ==> Shrunk(vs[i..], q) == Shrunk(vs[i + 1..], q)
                                 && Copies(vs[i..], q, n) == Copies(vs[i + 1..], q, n)
    ensures !Before(q, vs[i]) ==>
              var q' := Cut(q, vs[i]);
              && Shrunk(vs[i..], q) == Shrunk(vs[i + 1..], q')
              && Copies(vs[i..], q, n) == Copies(vs[i + 1..], q', if n > 0 && NonEmpty(q') then n else n + 1)
  {
    assert vs[i..][0] == vs[i] && vs[i..][1..] == vs[i + 1..];
  }

  lemma {:induction false} FirstIs(rs: seq<Span>, r: Span, k: nat)
    requires k <= |rs| && (k < |rs| ==> !Before(r, rs[k])) && forall i :: 0 <= i < k ==> Before(r, rs[i])
    ensures FirstHit(rs, r) == k
  {
  }

  predicate Repeats(rs: seq<TimeRange>, rng: TimeRange) {
    forall i :: 0 <= i < |rs| ==> rs[i] == rng
  }

  // In a list of copies of one object, it hits itself at once unless it is empty.
  lemma SelfHit(rs: seq<TimeRange>, rng: TimeRange)
    requires Repeats(rs, rng)
    ensures FirstHit(Views(rs), rng.View()) == if rs != [] && NonEmpty(rng.View()) then 0 else |rs|
  {
    FirstIs(Views(rs), rng.View(), if rs != [] && NonEmpty(rng.View()) then 0 else |rs|);
  }
}
