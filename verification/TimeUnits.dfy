/**
 Timestamps and their units in 64-bit arithmetic (common/util.go:11-177), and the time window of a data
 request (archiver/api.go:139-172).
 */
module TimeUnits {
  import opened Wrappers

  const MAX := 0x7fff_ffff_ffff_ffff
  const MIN := -0x8000_0000_0000_0000

  type int64 = x: int | MIN <= x <= MAX witness 0

  // What 64-bit arithmetic makes of an integer.
  function Wrap(x: int): int64 {
    (x - MIN) % 0x1_0000_0000_0000_0000 + MIN
  }

  // Go's division, truncating toward zero.
  function Quotient(a: int, b: int): int
    requires b > 0
  {
    if a >= 0 then a / b else -(-a / b)
  }

  datatype Unit = NS | US | MS | S

  function Rank(u: Unit): int {
    match u case NS => 1 case US => 2 case MS => 3 case S => 4
  }

  // How many of the unit make a second, and how many nanoseconds make one of it.
  function Multiplier(u: Unit): int {
    match u case NS => 1_000_000_000 case US => 1_000_000 case MS => 1_000 case S => 1
  }

  function Nanos(u: Unit): int {
    match u case NS => 1 case US => 1_000 case MS => 1_000_000 case S => 1_000_000_000
  }

  datatype Result = Ok(value: int64) | Err(value: int64)

  // ConvertTime; with an error the time itself is returned.
  function Convert(t: int64, from: Unit, to: Unit): Result {
    if from == to then Ok(t)
    else if Rank(to) < Rank(from) then
      var r := Wrap(t * (Multiplier(to) / Multiplier(from)));
      if r < t then Err(t) else Ok(r)
    else
      var r := Quotient(t, Multiplier(from) / Multiplier(to));
      if r > t then Err(t) else Ok(r)
  }

  function Guess(t: int64): Unit {
    if t < 5_680_281_600 then S
    else if t < 5_680_281_600_000 then MS
    else if t < 5_680_281_600_000_000 then US
    else NS
  }

  lemma WrapIs(x: int)
    ensures MIN <= x <= MAX ==> Wrap(x) == x
    ensures Wrap(x) == x ==> MIN <= x <= MAX
  {
  }

  /** To a finer unit the conversion is right exactly when the true value is not negative and fits. */
  lemma FinerExact(t: int64, from: Unit, to: Unit)
    requires Rank(to) < Rank(from)
    ensures t * Nanos(from) == t * (Multiplier(to) / Multiplier(from)) * Nanos(to)
    ensures var v := t * (Multiplier(to) / Multiplier(from));
            (Convert(t, from, to) == Ok(Wrap(v)) && v == Wrap(v)) <==> 0 <= v <= MAX
  {
    WrapIs(t * (Multiplier(to) / Multiplier(from)));
  }

  /**
   A conversion to a finer unit returns no wrong value, with an error or the true product as its outcome, if
   and only if the product fits 64 bits or wraps to less than the time, which is what the check looks at.
   */
  lemma OverflowExact(t: int64, from: Unit, to: Unit)
    requires Rank(to) < Rank(from)
    ensures var v := t * (Multiplier(to) / Multiplier(from));
            (Convert(t, from, to).Ok? ==> Convert(t, from, to).value == v) <==>
            MIN <= v <= MAX || Wrap(v) < t
  {
    WrapIs(t * (Multiplier(to) / Multiplier(from)));
  }

  function Off(x: int, k: int): int {
    x - k * 0x1_0000_0000_0000_0000
  }

  lemma WrapsBy(x: int, k: int)
    ensures Wrap(x) == Off(x, k) <==> MIN <= Off(x, k) <= MAX
  {
    var m := 0x1_0000_0000_0000_0000;
    var q, y := (x - MIN) / m, Off(x, k) - MIN;
    assert Wrap(x) == x - q * m;
    if 0 <= y < m {
      assert y - (x - MIN - q * m) == (q - k) * m;
      assert q == k;
    }
  }

  /** A wrong value comes out exactly when a multiple of 2^64 takes the product to at least the time, within range. */
  lemma MissedExact(t: int64, from: Unit, to: Unit)
    requires Rank(to) < Rank(from)
    ensures var v := t * (Multiplier(to) / Multiplier(from));
            (Convert(t, from, to).Ok? && Convert(t, from, to).value != v) <==>
            exists k :: k != 0 && t <= Off(v, k) <= MAX
  {
    var v := t * (Multiplier(to) / Multiplier(from));
    var q := (v - MIN) / 0x1_0000_0000_0000_0000;
    assert Wrap(v) == Off(v, q);
    if k :| k != 0 && t <= Off(v, k) <= MAX {
      WrapsBy(v, k);
    }
    WrapIs(v);
  }

  /** The overflow check can miss: a wrapped value above the time is returned without an error. */
  lemma OverflowMissed()
    ensures Convert(20_000_000_000, S, NS) == Ok(1_553_255_926_290_448_384)
  {
  }

  /** To a coarser unit the conversion rounds down, and fails exactly for negative times. */
  lemma CoarserExact(t: int64, from: Unit, to: Unit)
    requires Rank(to) > Rank(from)
    ensures t >= 0 ==>
              && Convert(t, from, to).Ok?
              && var r := Convert(t, from, to).value;
                 r * Nanos(to) <= t * Nanos(from) < (r + 1) * Nanos(to)
    ensures t < 0 ==> Convert(t, from, to) == Err(t)
  {
    var b := Multiplier(from) / Multiplier(to);
    assert b >= 2 && Nanos(to) == b * Nanos(from);
    if t >= 0 {
      QuotientIs(t, b);
      Scaled(Quotient(t, b), b, t, Nanos(from));
    } else {
      QuotientIs(0 - t, b);
    }
  }

  lemma Scaled(q: int, b: int, t: int, n: int)
    requires q * b <= t < q * b + b && n > 0
    ensures q * (b * n) <= t * n < (q + 1) * (b * n)
  {
    assert q * (b * n) == (q * b) * n && (q + 1) * (b * n) == (q * b + b) * n;
    assert (t - q * b) * n >= 0 && (q * b + b - t) * n > 0;
  }

  lemma QuotientIs(a: int, b: int)
    requires a >= 0 && b >= 2
    ensures Quotient(a, b) * b <= a < Quotient(a, b) * b + b
    ensures a > 0 ==> Quotient(-a, b) > -a
  {
  }

  // The time in nanoseconds, its unit guessed.
  function Normalised(t: int64): Result {
    if Guess(t) == NS then Ok(t) else Convert(t, Guess(t), NS)
  }

  /** Guessing the unit and converting is exact, and no error, for just the times that are not negative. */
  lemma NormalisedExact(t: int64)
    ensures var r := Normalised(t); r.Ok? && r.value == t * Nanos(Guess(t)) <==> t >= 0
  {
    var u := Guess(t);
    if u != NS {
      FinerExact(t, u, NS);
      WrapIs(t * Nanos(u));
    }
  }

  /** A negative time is refused exactly when its product fits 64 bits or wraps to less than the time. */
  lemma RefusedExact(t: int64)
    requires t < 0
    ensures Normalised(t).Err? <==> -9_223_372_036 <= t || Wrap(t * 1_000_000_000) < t
  {
    WrapIs(t * 1_000_000_000);
  }

  /** A negative time need not be refused: its product can wrap to a large positive one. */
  lemma NegativeSlips()
    ensures Normalised(-10_000_000_000) == Ok(8_446_744_073_709_551_616)
  {
  }

  // The nanoseconds that a time stands for, by the bands in which times are taken for seconds, milliseconds,
  // microseconds and nanoseconds.
  function Nanoseconds(t: int): int {
    if t < 5_680_281_600 then t * 1_000_000_000
    else if t < 5_680_281_600_000 then t * 1_000_000
    else if t < 5_680_281_600_000_000 then t * 1_000
    else t
  }

  /** The unit of a time is guessed by its size. */
  lemma GuessExact(t: int64)
    ensures Guess(t) == S <==> t < 5_680_281_600
    ensures Guess(t) == MS <==> 5_680_281_600 <= t < 5_680_281_600_000
    ensures Guess(t) == US <==> 5_680_281_600_000 <= t < 5_680_281_600_000_000
    ensures Guess(t) == NS <==> 5_680_281_600_000_000 <= t
    ensures t * Nanos(Guess(t)) == Nanoseconds(t)
  {
  }

  // The end of prepareDataParams: both ends in nanoseconds, and in order.
  method PrepareWindow(begin0: int64, end0: int64) returns (begin: int64, end: int64, ok: bool)
    ensures ok <==> Normalised(begin0).Ok? && Normalised(end0).Ok?
    ensures ok ==> begin <= end && multiset{begin, end} == multiset{Normalised(begin0).value, Normalised(end0).value}
  {
    begin, end, ok := begin0, end0, true;
    var beginUnit := Guess(begin);
    if beginUnit != NS {
      var r := Convert(begin, beginUnit, NS);
      begin := r.value;
      if r.Err? {
        return begin, end, false;
      }
    }
    var endUnit := Guess(end);
    if endUnit != NS {
      var r := Convert(end, endUnit, NS);
      end := r.value;
      if r.Err? {
        return begin, end, false;
      }
    }
    if end < begin {
      begin, end := end, begin;
    }
  }

  /** For times that are not negative the window is the two instants, the earlier one first. */
  lemma WindowExact(begin: int64, end: int64)
    requires begin >= 0 && end >= 0
    ensures Normalised(begin).Ok? && Normalised(end).Ok?
    ensures multiset{Normalised(begin).value, Normalised(end).value} ==
            multiset{Nanoseconds(begin), Nanoseconds(end)}
  {
    GuessExact(begin);
    GuessExact(end);
    NormalisedExact(begin);
    NormalisedExact(end);
  }

  // ---- absolute times ----

  // ParseAbsTime of a parsed number: the instant in nanoseconds, which need not fit 64 bits.
  function Instant(i: int64, u: Unit): Option<int> {
    var seconds := Convert(i, u, S);
    if seconds.Err? then None else
    var whole := Convert(seconds.value, S, u);
    if whole.Err? then None else
    var rest := Convert(Wrap(i - whole.value), u, NS);
    if rest.Err? then None else Some(seconds.value * 1_000_000_000 + rest.value)
  }

  // TimeAsUnit: seconds from the instant, finer units by way of UnixNano, which wraps.
  function AsUnit(t: int, u: Unit): int64 {
    if u == S then Wrap(t / 1_000_000_000) else Quotient(Wrap(t), Nanos(u))
  }

  /** A time in seconds, and any other that is not negative, becomes exactly the instant it names. */
  lemma InstantExact(i: int64, u: Unit)
    ensures Instant(i, u) == if u == S || i >= 0 then Some(i * Nanos(u)) else None
  {
    if u != S {
      CoarserExact(i, u, S);
      if i >= 0 {
        WholeSeconds(i, u);
      }
    }
  }

  /** The same in numbers. */
  lemma InstantNumbers(i: int64)
    ensures Instant(i, S) == Some(i * 1_000_000_000)
    ensures i >= 0 ==>
              && Instant(i, MS) == Some(i * 1_000_000) && Instant(i, US) == Some(i * 1_000)
              && Instant(i, NS) == Some(i)
  {
    hide Instant;
    InstantExact(i, S);
    InstantExact(i, MS);
    InstantExact(i, US);
    InstantExact(i, NS);
  }

  lemma WholeSeconds(i: int64, u: Unit)
    requires u != S && i >= 0
    ensures Instant(i, u) == Some(i * Nanos(u))
  {
    hide Convert, Wrap, Nanos, Quotient;
    var s := i / Multiplier(u);
    SecondsFit(i, Multiplier(u));
    ToSeconds(i, u);
    FromSeconds(s, u);
    var rest := i - s * Multiplier(u);
    WrapIs(rest);
    RestNanos(rest, u);
    UnitsFit(s, rest, u);
  }

  lemma SecondsFit(i: int, m: int)
    requires i >= 0 && m >= 1
    ensures 0 <= i / m <= i && 0 <= i - i / m * m < m && 0 <= i / m * m <= i
  {
  }

  lemma ToSeconds(i: int64, u: Unit)
    requires u != S && i >= 0
    ensures Convert(i, u, S) == Ok(i / Multiplier(u))
  {
    QuotientIs(i, Multiplier(u));
  }

  lemma FromSeconds(s: int64, u: Unit)
    requires u != S && s >= 0 && s * Multiplier(u) <= MAX
    ensures Convert(s, S, u) == Ok(s * Multiplier(u))
  {
    WrapIs(s * Multiplier(u));
  }

  lemma RestNanos(rest: int64, u: Unit)
    requires 0 <= rest < Multiplier(u)
    ensures Convert(rest, u, NS) == Ok(rest * Nanos(u))
  {
    WrapIs(rest * Nanos(u));
  }

  lemma UnitsFit(s: int, rest: int, u: Unit)
    ensures s * 1_000_000_000 + rest * Nanos(u) == (s * Multiplier(u) + rest) * Nanos(u)
  {
  }

  /**
   A time is read exactly when it is in seconds or not negative.  Giving it back in its unit is then the
   identity exactly when its nanoseconds fit 64 bits, or it is in seconds.
   */
  lemma TimeRoundTrip(i: int64, u: Unit)
    ensures Instant(i, u).Some? <==> u == S || i >= 0
    ensures Instant(i, u).Some? ==> (AsUnit(Instant(i, u).value, u) == i <==> u == S || i * Nanos(u) <= MAX)
  {
    hide Instant;
    InstantExact(i, u);
    WrapIs(i * Nanos(u));
    if u == S {
      WrapIs(i);
    }
  }
}
