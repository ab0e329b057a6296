/** The mart's surrogate key: a string that names a window, and names only one. */
module WindowKeyText {
  import opened Schema
  import opened Time
  import opened Metrics
  import opened Mart
  import opened MartReference

  /** A whole number in decimal. */
  function Decimal(n: nat): (s: string)
    ensures |s| > 0
  {
    if n < 10 then ['0' + n as char] else Decimal(n / 10) + ['0' + (n % 10) as char]
  }

  lemma {:induction false} DecimalHasDigitsOnly(n: nat)
    ensures forall i :: 0 <= i < |Decimal(n)| ==> '0' <= Decimal(n)[i] <= '9'
  {
    if n >= 10 {
      DecimalHasDigitsOnly(n / 10);
    }
  }

  lemma {:induction false} DecimalInjective(a: nat, b: nat)
    requires Decimal(a) == Decimal(b)
    ensures a == b
  {
    var s, t := Decimal(a), Decimal(b);
    assert s[|s| - 1] == '0' + (a % 10) as char && t[|t| - 1] == '0' + (b % 10) as char;
    assert a % 10 == b % 10;
    assert (a >= 10 <==> |s| >= 2) && (b >= 10 <==> |t| >= 2);
    if a >= 10 {
      assert Decimal(a / 10) == s[..|s| - 1] && Decimal(b / 10) == t[..|t| - 1];
      DecimalInjective(a / 10, b / 10);
    }
  }

  /** Symbol, size and start, joined by bars; the start is in whole seconds. */
  function WindowKey(m: WindowMetrics): string {
    m.symbol + "|" + m.windowSize + "|" + Decimal(m.windowStart / MICROS_PER_SECOND)
  }

  lemma LastBar(a: string, x: string)
    requires forall i :: 0 <= i < |x| ==> '0' <= x[i] <= '9'
    ensures var s := a + "|" + x; s[|a|] == '|' && forall i :: |a| < i < |s| ==> s[i] != '|'
  {
    var s := a + "|" + x;
    forall i | |a| < i < |s| ensures s[i] != '|' {
      assert s[i] == x[i - |a| - 1];
    }
  }

  /** A string ends in one way as a bar and digits. */
  lemma BarAndDigits(a: string, x: string, b: string, y: string)
    requires a + "|" + x == b + "|" + y
    requires forall i :: 0 <= i < |x| ==> '0' <= x[i] <= '9'
    requires forall i :: 0 <= i < |y| ==> '0' <= y[i] <= '9'
    ensures a == b && x == y
  {
    var s, t := a + "|" + x, b + "|" + y;
    LastBar(a, x);
    LastBar(b, y);
    assert s[|a|] == '|' && s[|b|] == '|';
    assert a == s[..|a|] && b == t[..|b|];
    assert x == s[|a| + 1..] && y == t[|b| + 1..];
  }

  lemma BarAndSize(a: string, x: string, b: string, y: string)
    requires a + "|" + x == b + "|" + y && |x| == |y|
    ensures a == b && x == y
  {
    var s, t := a + "|" + x, b + "|" + y;
    assert a == s[..|a|] && b == t[..|b|];
    assert x == s[|a| + 1..] && y == t[|b| + 1..];
  }

  /** Equal keys name equal windows, even when a symbol contains the separator. */
  lemma WindowKeyInjective(m: WindowMetrics, n: WindowMetrics)
    requires KnownSize(m.windowSize) && KnownSize(n.windowSize)
    requires m.windowStart % MICROS_PER_SECOND == 0 && n.windowStart % MICROS_PER_SECOND == 0
    requires WindowKey(m) == WindowKey(n)
    ensures RowWideKey(m) == RowWideKey(n)
  {
    var x, y := m.windowStart / MICROS_PER_SECOND, n.windowStart / MICROS_PER_SECOND;
    DecimalHasDigitsOnly(x);
    DecimalHasDigitsOnly(y);
    BarAndDigits(m.symbol + "|" + m.windowSize, Decimal(x), n.symbol + "|" + n.windowSize, Decimal(y));
    DecimalInjective(x, y);
    BarAndSize(m.symbol, m.windowSize, n.symbol, n.windowSize);
  }

  lemma KeyOnSeconds(es: seq<MarketEvent>, k: Key, width: nat)
    requires width > 0 && k in WindowKeys(es, width)
    ensures k.start % MICROS_PER_SECOND == 0
  {
    var e :| e in es && EventKey(e, width) == k;
    StartsOnSeconds(e.tsEvent, width);
  }

  /** On gold built from any bronze, no two rows have the same key string. */
  lemma GoldKeyStringsDistinct(bronze: seq<MarketEvent>, i: nat, j: nat)
    requires i < j < |Gold(bronze)|
    ensures WindowKey(Gold(bronze)[i]) != WindowKey(Gold(bronze)[j])
  {
    var m, n := Gold(bronze)[i], Gold(bronze)[j];
    assert m in Gold(bronze) && n in Gold(bronze);
    GoldRowIsReference(bronze, m);
    GoldRowIsReference(bronze, n);
    KeyOnSeconds(SilverRows(bronze), RowKey(m), WidthOf(m.windowSize));
    KeyOnSeconds(SilverRows(bronze), RowKey(n), WidthOf(n.windowSize));
    GoldKeysDistinct(SilverTrades(bronze), SilverTicker(bronze));
    if WindowKey(m) == WindowKey(n) {
      WindowKeyInjective(m, n);
    }
  }

  /** The number a text of digits denotes. */
  function ReadDecimal(s: string): nat
    requires forall i :: 0 <= i < |s| ==> '0' <= s[i] <= '9'
  {
    if s == [] then 0 else 10 * ReadDecimal(s[..|s| - 1]) + (s[|s| - 1] as int - '0' as int)
  }

  lemma {:induction false} DecimalReadsBack(n: nat)
    ensures forall i :: 0 <= i < |Decimal(n)| ==> '0' <= Decimal(n)[i] <= '9'
    ensures ReadDecimal(Decimal(n)) == n
  {
    DecimalHasDigitsOnly(n);
    if n >= 10 {
      DecimalReadsBack(n / 10);
      assert Decimal(n)[..|Decimal(n)| - 1] == Decimal(n / 10);
    } else {
      assert Decimal(n)[..0] == [];
    }
  }

  /** The key is the symbol, a bar, the size, a bar, and digits that read back as the window's start in
      seconds since the epoch. */
  lemma WindowKeyParts(m: WindowMetrics)
    requires m.windowStart % 1_000_000 == 0
    ensures var head := m.symbol + "|" + m.windowSize + "|";
            && head <= WindowKey(m)
            && (forall i :: |head| <= i < |WindowKey(m)| ==> '0' <= WindowKey(m)[i] <= '9')
            && ReadDecimal(WindowKey(m)[|head|..]) * 1_000_000 == m.windowStart
  {
    var head, tail := m.symbol + "|" + m.windowSize + "|", Decimal(m.windowStart / MICROS_PER_SECOND);
    DecimalReadsBack(m.windowStart / MICROS_PER_SECOND);
    assert WindowKey(m) == head + tail && WindowKey(m)[|head|..] == tail;
    forall i | |head| <= i < |WindowKey(m)| ensures '0' <= WindowKey(m)[i] <= '9' { assert WindowKey(m)[i] == tail[i - |head|]; }
  }
}
