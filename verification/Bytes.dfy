/**
 Byte strings, their lexicographic order, and the key range that a prefix scan uses
 (scraper/util.go:28-43, and BytesPrefix of goleveldb, which has the same loop).
 */
module Bytes {
  import opened Wrappers

  type byte = x: int | 0 <= x < 256

  type Str = seq<byte>

  // "/!meta"
  const META: Str := [47, 33, 109, 101, 116, 97]

  const SLASH: byte := 47

  // The bytes of a string.
  function Ascii(s: string): Str
    requires forall i :: 0 <= i < |s| ==> s[i] < 256 as char
  {
    seq(|s|, i requires 0 <= i < |s| => s[i] as byte)
  }

  lemma MetaSpelled()
    ensures META == Ascii("/!meta") && [SLASH] == Ascii("/")
  {
  }

  // bytes.Compare(a, b) < 0
  predicate Less(a: Str, b: Str) {
    b != [] && (a == [] || a[0] < b[0] || (a[0] == b[0] && Less(a[1..], b[1..])))
  }

  // A key range of the store; no limit means that it is open above.
  datatype Range = Range(start: Str, limit: Option<Str>)

  predicate InRange(r: Range, s: Str) {
    !Less(s, r.start) && (r.limit.Some? ==> Less(s, r.limit.value))
  }

  // The least byte string above every string that starts with p: the last byte that can grow does.
  function Limit(p: Str): Option<Str> {
    if p == [] then None
    else if p[|p| - 1] < 255 then Some(p[..|p| - 1] + [p[|p| - 1] + 1])
    else Limit(p[..|p| - 1])
  }

  function PrefixRange(p: Str): Range {
    Range(p, Limit(p))
  }

  // The loop of BytesPrefix, from the last byte down to the first that is not 0xff.
  method BytesPrefix(p: Str) returns (r: Range)
    ensures r == PrefixRange(p)
  {
    var limit: Option<Str> := None;
    var i := |p| - 1;
    assert p[..|p|] == p;
    while i >= 0
      invariant -1 <= i < |p|
      invariant limit == None && Limit(p) == Limit(p[..i + 1])
    {
      assert p[..i + 1][..i] == p[..i];
      var c := p[i];
      if c < 255 {
        limit := Some(p[..i] + [c + 1]);
        break;
      }
      i := i - 1;
    }
    return Range(p, limit);
  }

  // scraper.BytesPrefix: the same, for the metadata below a prefix.
  method MetaPrefix(p: Str) returns (r: Range)
    ensures r == PrefixRange(p + META)
  {
    r := BytesPrefix(p + META);
  }

  lemma {:induction false} LimitCons(x: byte, p: Str)
    ensures Limit([x] + p) == if Limit(p).Some? then Some([x] + Limit(p).value)
                              else if x < 255 then Some([x + 1]) else None
  {
    var q := [x] + p;
    if p == [] {
      assert q == [x] && q[..0] == [] && q[..0] + [x + 1] == [x + 1];
    } else {
      assert q[..|q| - 1] == [x] + p[..|p| - 1];
      if p[|p| - 1] < 255 {
        assert [x] + (p[..|p| - 1] + [p[|p| - 1] + 1]) == q[..|q| - 1] + [p[|p| - 1] + 1];
      } else {
        LimitCons(x, p[..|p| - 1]);
      }
    }
  }

  /** A prefix scan is exact: a byte string lies in the range of p just when it starts with p. */
  lemma {:induction false} RangeExact(p: Str, s: Str)
    ensures InRange(PrefixRange(p), s) <==> p <= s
  {
    if p != [] && s != [] {
      var x, t := p[0], p[1..];
      assert p == [x] + t;
      LimitCons(x, t);
      RangeExact(t, s[1..]);
      assert p <= s <==> x == s[0] && t <= s[1..];
      assert !Less(s, p) <==> x < s[0] || (x == s[0] && !Less(s[1..], t));
      if Limit(t).Some? {
        var l := Limit(t).value;
        assert ([x] + l)[1..] == l;
        assert Less(s, [x] + l) <==> s[0] < x || (x == s[0] && Less(s[1..], l));
      } else if x < 255 {
        assert Less(s, [x + 1]) <==> s[0] < x + 1 || (s[0] == x + 1 && Less(s[1..], []));
      }
    }
  }
}
