/** Instants and tumbling windows. Instants are microseconds since the Unix epoch; a window width
    is a whole number of seconds. Four pieces of the system place an instant in a window, each
    after cutting it to a different resolution. */
module Time {

  const MICROS_PER_SECOND := 1_000_000
  const MICROS_PER_MILLI := 1_000
  const MILLIS_PER_SECOND := 1_000

  /** The last multiple of `size` not after `t`: the start of the epoch-aligned interval holding `t`. */
  function AlignDown(t: nat, size: nat): (start: nat)
    requires size > 0
    ensures start <= t < start + size
  {
    if t < size then 0 else AlignDown(t - size, size) + size
  }

  /** The tumbling window holding an instant. The formulas of the code below are proved to name it. */
  function WindowStart(ts: nat, width: nat): (start: nat)
    requires width > 0
    ensures start <= ts < start + width * MICROS_PER_SECOND
  {
    AlignDown(ts, width * MICROS_PER_SECOND)
  }

  /** A quotient rounded toward zero. */
  function TruncDiv(a: int, b: nat): int
    requires b > 0
  {
    if a >= 0 then a / b else -((-a) / b)
  }

  /** The batch code: truncate to a whole second, then floor to a multiple of the width. */
  function BatchStart(ts: int, width: nat): int
    requires width > 0
  {
    TruncDiv(ts, MICROS_PER_SECOND) / width * width * MICROS_PER_SECOND
  }

  /** The SQL macro: floor the exact time to a multiple of the width. */
  function SqlStart(ts: int, width: nat): int
    requires width > 0
  {
    ts / (width * MICROS_PER_SECOND) * width * MICROS_PER_SECOND
  }

  /** The streaming engine: a millisecond timestamp minus its remainder, in milliseconds. */
  function StreamStart(millis: nat, width: nat): (start: nat)
    requires width > 0
    ensures start <= millis < start + width * MILLIS_PER_SECOND
  {
    millis - millis % (width * MILLIS_PER_SECOND)
  }

  lemma MultipleGrows(r: int, b: int)
    requires b > 0
    ensures r >= 1 ==> r * b >= b
    ensures r <= -1 ==> r * b <= -b
  {
    if r >= 1 { assert (r - 1) * b >= 0; }
    if r <= -1 { assert (-1 - r) * b >= 0; }
  }

  lemma QuotientUnique(a: int, b: int, q: int)
    requires b > 0 && 0 <= a - q * b < b
    ensures a / b == q
  {
    var r := a / b - q;
    assert a == a / b * b + a % b;
    assert r * b == a / b * b - q * b;
    MultipleGrows(r, b);
  }

  lemma NestedRemainder(a: int, b: int, c: int, q: int, r: int, s: int)
    requires b > 0 && c > 0 && 0 <= r < b && 0 <= s < c
    requires a == (q * c + s) * b + r
    ensures b * c > 0 && 0 <= a - q * (b * c) < b * c
  {
    assert (q * c + s) * b == q * (b * c) + s * b;
    assert (c - 1 - s) * b >= 0;
    assert (c - 1 - s) * b == b * c - b - s * b;
    assert s * b >= 0;
  }

  /** Dividing twice is dividing by the product. */
  lemma DivideTwice(a: int, b: int, c: int)
    requires b > 0 && c > 0
    ensures b * c > 0 && a / b / c == a / (b * c)
  {
    var m := a / b;
    NestedRemainder(a, b, c, m / c, a % b, m % c);
    QuotientUnique(a, b * c, m / c);
  }

  lemma {:induction false} AlignDownIsMultiple(t: nat, size: nat)
    requires size > 0
    ensures AlignDown(t, size) == t / size * size == t - t % size
  {
    assert t == t / size * size + t % size;
    if t < size {
      QuotientUnique(t, size, 0);
    } else {
      AlignDownIsMultiple(t - size, size);
      var q := (t - size) / size;
      assert t - size == q * size + (t - size) % size;
      assert (q + 1) * size == q * size + size;
      QuotientUnique(t, size, q + 1);
    }
  }

  lemma MultipleHasNoRemainder(q: nat, b: nat)
    requires b > 0
    ensures q * b % b == 0
  {
    assert q * b == q * b / b * b + q * b % b;
    QuotientUnique(q * b, b, q);
  }

  lemma WindowStartIsMultiple(ts: nat, width: nat)
    requires width > 0
    ensures WindowStart(ts, width) % (width * MICROS_PER_SECOND) == 0
  {
    AlignDownIsMultiple(ts, width * MICROS_PER_SECOND);
    MultipleHasNoRemainder(ts / (width * MICROS_PER_SECOND), width * MICROS_PER_SECOND);
  }

  lemma MultipleOfMultiple(q: nat, width: nat)
    ensures q * (width * MICROS_PER_SECOND) % MICROS_PER_SECOND == 0
  {
    var n := q * width;
    assert q * (width * MICROS_PER_SECOND) == n * MICROS_PER_SECOND;
    assert n * MICROS_PER_SECOND % MICROS_PER_SECOND == 0;
  }

  lemma StartsOnSeconds(ts: nat, width: nat)
    requires width > 0
    ensures WindowStart(ts, width) % MICROS_PER_SECOND == 0
  {
    AlignDownIsMultiple(ts, width * MICROS_PER_SECOND);
    MultipleOfMultiple(ts / (width * MICROS_PER_SECOND), width);
  }

  /** From the epoch on, both the batch formula and the SQL macro name the tumbling window. */
  lemma FormulasNameTheWindow(ts: nat, width: nat)
    requires width > 0
    ensures BatchStart(ts, width) == SqlStart(ts, width) == WindowStart(ts, width)
  {
    DivideTwice(ts, MICROS_PER_SECOND, width);
    AlignDownIsMultiple(ts, width * MICROS_PER_SECOND);
    var q := ts / (width * MICROS_PER_SECOND);
    assert q * (width * MICROS_PER_SECOND) == q * width * MICROS_PER_SECOND;
  }

  lemma SuccessorQuotient(f: int, w: int)
    requires w > 0
    ensures (f + 1) / w == f / w <==> (f + 1) % w != 0
  {
    var q, r := f / w, f % w;
    assert f == q * w + r;
    if r + 1 < w {
      QuotientUnique(f + 1, w, q);
      assert (f + 1) % w == r + 1;
    } else {
      assert (q + 1) * w == q * w + w;
      QuotientUnique(f + 1, w, q + 1);
    }
  }

  /** The batch code truncates toward zero where the SQL floors. They name the same window exactly
      when the instant is not a fraction of a second short of a pre-epoch window boundary. */
  lemma BatchAgreesWithSql(ts: int, width: nat)
    requires width > 0
    ensures BatchStart(ts, width) == SqlStart(ts, width)
       <==> ts >= 0 || ts % MICROS_PER_SECOND == 0 || TruncDiv(ts, MICROS_PER_SECOND) % width != 0
  {
    var floor := ts / MICROS_PER_SECOND;
    var cut := TruncDiv(ts, MICROS_PER_SECOND);
    DivideTwice(ts, MICROS_PER_SECOND, width);
    assert SqlStart(ts, width) == floor / width * width * MICROS_PER_SECOND;
    SuccessorQuotient(floor, width);
    if ts < 0 && ts % MICROS_PER_SECOND != 0 {
      assert cut == floor + 1;
      MultipleGrows(cut / width - floor / width, width);
      assert (cut / width - floor / width) * width == cut / width * width - floor / width * width;
    } else {
      assert cut == floor;
    }
  }

  /** Half a second before the epoch: the batch code says window [0, 60), the SQL [-60, 0). */
  lemma BatchAndSqlCanDisagree()
    ensures BatchStart(-500_000, 60) == 0
    ensures SqlStart(-500_000, 60) == -60 * MICROS_PER_SECOND
  {
    assert -500_000 / 60_000_000 == -1;
  }

  lemma Reassociate(q: nat, unit: nat, size: nat)
    ensures q * (unit * size) == unit * (q * size)
  {
  }

  /** Aligning at a coarser resolution commutes with cutting to it. */
  lemma {:induction false} AlignDownScales(t: nat, size: nat, unit: nat)
    requires size > 0 && unit > 0
    ensures unit * size > 0 && AlignDown(t, unit * size) == unit * AlignDown(t / unit, size)
  {
    DivideTwice(t, unit, size);
    AlignDownIsMultiple(t, unit * size);
    AlignDownIsMultiple(t / unit, size);
    Reassociate(t / (unit * size), unit, size);
  }

  /** Windowing on milliseconds finds the window that microseconds find. */
  lemma StreamNamesTheWindow(ts: nat, width: nat)
    requires width > 0
    ensures StreamStart(ts / MICROS_PER_MILLI, width) == AlignDown(ts / MICROS_PER_MILLI, width * MILLIS_PER_SECOND)
    ensures AlignDown(ts / MICROS_PER_MILLI, width * MILLIS_PER_SECOND) * MICROS_PER_MILLI == WindowStart(ts, width)
  {
    AlignDownIsMultiple(ts / MICROS_PER_MILLI, width * MILLIS_PER_SECOND);
    AlignDownScales(ts, width * MILLIS_PER_SECOND, MICROS_PER_MILLI);
  }

  /** Cutting a nanosecond instant to microseconds, milliseconds or seconds before windowing gives
      the window of exact arithmetic, whatever the width. */
  lemma TruncationKeepsWindow(nanos: nat, width: nat)
    requires width > 0
    ensures var exact := AlignDown(nanos, 1_000_000_000 * width);
            && WindowStart(nanos / 1_000, width) * 1_000 == exact
            && StreamStart(nanos / 1_000_000, width) * 1_000_000 == exact
            && nanos / 1_000_000_000 / width * width * 1_000_000_000 == exact
  {
    AlignDownScales(nanos, width * MICROS_PER_SECOND, 1_000);
    StreamNamesTheWindow(nanos / 1_000, width);
    assert nanos / 1_000 / MICROS_PER_MILLI == nanos / 1_000_000;
    AlignDownScales(nanos, width, 1_000_000_000);
    AlignDownIsMultiple(nanos / 1_000_000_000, width);
  }

  /** A deadline on a whole second is met at every resolution or at none. */
  lemma TruncationKeepsDeadline(nanos: nat, deadline: int)
    ensures nanos >= deadline * 1_000_000_000 <==> nanos / 1_000 >= deadline * 1_000_000
    ensures nanos >= deadline * 1_000_000_000 <==> nanos / 1_000_000 >= deadline * 1_000
    ensures nanos >= deadline * 1_000_000_000 <==> nanos / 1_000_000_000 >= deadline
  {
  }

  // ---- Fractions of a second ----

  function Pow10(n: nat): (p: nat)
    ensures p > 0
  {
    if n == 0 then 1 else 10 * Pow10(n - 1)
  }

  /** The number a digit string denotes. */
  function Digits(ds: seq<nat>): nat {
    if ds == [] then 0 else 10 * Digits(ds[..|ds| - 1]) + ds[|ds| - 1]
  }

  /** Timestamp parsing: keep six fractional digits; fewer stand for themselves followed by zeros. */
  function FractionMicros(ds: seq<nat>): nat {
    if |ds| >= 6 then Digits(ds[..6]) else Digits(ds) * Pow10(6 - |ds|)
  }

  lemma {:induction false} Pow10Splits(a: nat, b: nat)
    ensures Pow10(a + b) == Pow10(a) * Pow10(b)
  {
    if a > 0 {
      Pow10Splits(a - 1, b);
    }
  }

  lemma TenTimes(a: nat, p: nat)
    ensures a * (10 * p) == 10 * (a * p)
  {
  }

  /** The number a digit string denotes, from its parts: a digit is itself, and digits appended shift
      those before them. */
  lemma {:induction false} DigitsOfParts(a: seq<nat>, b: seq<nat>)
    ensures Digits(a + b) == Digits(a) * Pow10(|b|) + Digits(b)
    ensures forall d: nat :: Digits([d]) == d
    ensures Pow10(|b| + 1) == 10 * Pow10(|b|) && Pow10(0) == 1
  {
    assert forall d: nat :: [d][..0] == [];
    if b == [] {
      assert a + b == a;
    } else {
      var n := |b| - 1;
      DigitsOfParts(a, b[..n]);
      assert (a + b)[..|a + b| - 1] == a + b[..n];
      TenTimes(Digits(a), Pow10(n));
    }
  }

  /** Leading digits weigh what follows them; what follows is less than one unit of theirs. */
  lemma {:induction false} DigitsSplit(ds: seq<nat>, k: nat)
    requires k <= |ds| && forall d :: d in ds ==> d <= 9
    ensures 0 <= Digits(ds) - Digits(ds[..k]) * Pow10(|ds| - k) < Pow10(|ds| - k)
    decreases |ds|
  {
    if k == |ds| {
      assert ds[..k] == ds;
    } else {
      var n := |ds| - 1;
      assert ds[n] in ds && ds[..n][..k] == ds[..k];
      assert forall d :: d in ds[..n] ==> d in ds;
      DigitsSplit(ds[..n], k);
      TenTimes(Digits(ds[..k]), Pow10(n - k));
    }
  }

  lemma ScaledQuotient(v: nat, q: nat, p: nat, scale: nat)
    requires p > 0 && scale > 0 && 0 <= v - q * p < p
    ensures scale * p > 0 && v * scale / (scale * p) == q
  {
    assert q * (scale * p) == q * p * scale;
    assert (p - 1 - (v - q * p)) * scale >= 0;
    assert (v - q * p) * scale >= 0;
    assert (v - q * p) * scale == v * scale - q * p * scale;
    assert (p - 1 - (v - q * p)) * scale == scale * p - scale - (v - q * p) * scale;
    QuotientUnique(v * scale, scale * p, q);
  }

  lemma LongFraction(ds: seq<nat>)
    requires |ds| >= 6 && forall d :: d in ds ==> d <= 9
    ensures Digits(ds[..6]) == Digits(ds) * Pow10(6) / Pow10(|ds|)
  {
    var rest := |ds| - 6;
    DigitsSplit(ds, 6);
    Pow10Splits(6, rest);
    ScaledQuotient(Digits(ds), Digits(ds[..6]), Pow10(rest), Pow10(6));
  }

  lemma ShortFraction(v: nat, n: nat)
    requires n <= 6
    ensures v * Pow10(6 - n) == v * Pow10(6) / Pow10(n)
  {
    Pow10Splits(n, 6 - n);
    var p, q := Pow10(n), Pow10(6 - n);
    assert v * (p * q) == v * q * p;
    QuotientUnique(v * (p * q), p, v * q);
  }

  /** Cutting to six digits is rounding the exact fraction down to a microsecond. */
  lemma FractionIsFloor(ds: seq<nat>)
    requires forall d :: d in ds ==> d <= 9
    ensures FractionMicros(ds) == Digits(ds) * 1_000_000 / Pow10(|ds|)
  {
    assert Pow10(6) == 1_000_000 by { assert Pow10(3) == 1000; Pow10Splits(3, 3); }
    if |ds| >= 6 {
      LongFraction(ds);
    } else {
      ShortFraction(Digits(ds), |ds|);
    }
  }
}
