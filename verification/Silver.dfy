/** Deduplication keeps exactly one row per (symbol, trade id), the least, whatever the input order
    and however ties are broken. */
module Silver {
  import opened Basics
  import opened Schema
  import opened Mart

  ghost predicate Least(src: seq<MarketEvent>, r: MarketEvent) {
    r in src && forall x :: x in src && SamePartition(x, r) ==> !OrderedBefore(x, r)
  }

  /** Some row of `x`'s partition is in `out`. */
  ghost predicate HasSurvivor(out: seq<MarketEvent>, x: MarketEvent) {
    exists r :: r in out && SamePartition(x, r)
  }

  /** What any engine's `row_number() = 1` gives: one least row for each partition. */
  ghost predicate IsDedup(src: seq<MarketEvent>, out: seq<MarketEvent>) {
    && (forall r :: r in out ==> Least(src, r))
    && (forall i, j :: 0 <= i < j < |out| ==> !SamePartition(out[i], out[j]))
    && (forall x {:trigger HasSurvivor(out, x)} :: x in src ==> HasSurvivor(out, x))
  }

  lemma {:induction false} CountBeforeZero(rows: seq<MarketEvent>, i: nat, n: nat)
    requires i < |rows| && n <= |rows|
    ensures CountBefore(rows, i, n) == 0 <==> forall j: nat :: j < n ==> !NumberedBefore(rows, j, i)
  {
    if n > 0 {
      CountBeforeZero(rows, i, n - 1);
    }
  }

  /** Row `i` is numbered first: nothing of its partition comes before it. */
  ghost predicate IsFirst(rows: seq<MarketEvent>, i: nat)
    requires i < |rows|
  {
    forall j: nat :: j < |rows| ==> !NumberedBefore(rows, j, i)
  }

  lemma NumberedFirstMember(rows: seq<MarketEvent>, n: nat, r: MarketEvent)
    requires n <= |rows|
    ensures r in NumberedFirst(rows, n) <==> exists i: nat :: i < n && rows[i] == r && IsFirst(rows, i)
  {
    if n > 0 {
      NumberedFirstMember(rows, n - 1, r);
      CountBeforeZero(rows, n - 1, |rows|);
    }
  }

  lemma NumberedBeforeTransitive(rows: seq<MarketEvent>, i: nat, j: nat, k: nat)
    requires i < |rows| && j < |rows| && k < |rows|
    requires NumberedBefore(rows, i, j) && NumberedBefore(rows, j, k)
    ensures NumberedBefore(rows, i, k)
  {
  }

  /** Every partition has a first row. */
  lemma {:induction false} SomeFirst(rows: seq<MarketEvent>, x: MarketEvent, n: nat) returns (i: nat)
    requires n <= |rows|
    requires exists j: nat :: j < n && SamePartition(rows[j], x)
    ensures i < n && SamePartition(rows[i], x)
    ensures forall j: nat :: j < n ==> !NumberedBefore(rows, j, i)
  {
    if exists j: nat :: j < n - 1 && SamePartition(rows[j], x) {
      var h := SomeFirst(rows, x, n - 1);
      i := if NumberedBefore(rows, n - 1, h) then n - 1 else h;
      if i == n - 1 {
        forall j: nat | j < n ensures !NumberedBefore(rows, j, i) {
          if NumberedBefore(rows, j, i) {
            NumberedBeforeTransitive(rows, j, i, h);
          }
        }
      }
    } else {
      i := n - 1;
    }
  }

  /** Two rows of one partition cannot both be numbered first. */
  lemma FirstIsUnique(rows: seq<MarketEvent>, i: nat, j: nat)
    requires i < |rows| && j < |rows| && IsFirst(rows, i) && IsFirst(rows, j)
    requires SamePartition(rows[i], rows[j])
    ensures i == j
  {
    assert !NumberedBefore(rows, i, j) && !NumberedBefore(rows, j, i);
  }

  lemma {:induction false} NumberedFirstDistinct(rows: seq<MarketEvent>, n: nat)
    requires n <= |rows|
    ensures var out := NumberedFirst(rows, n);
            forall i, j :: 0 <= i < j < |out| ==> !SamePartition(out[i], out[j])
  {
    if n > 0 {
      NumberedFirstDistinct(rows, n - 1);
      CountBeforeZero(rows, n - 1, |rows|);
      var front := NumberedFirst(rows, n - 1);
      if RowNumber(rows, n - 1) == 1 {
        forall i | 0 <= i < |front| ensures !SamePartition(front[i], rows[n - 1]) {
          NumberedFirstMember(rows, n - 1, front[i]);
          var k: nat :| k < n - 1 && rows[k] == front[i] && IsFirst(rows, k);
          if SamePartition(rows[k], rows[n - 1]) {
            FirstIsUnique(rows, k, n - 1);
          }
        }
      }
    }
  }

  lemma FirstIsLeast(rows: seq<MarketEvent>, i: nat)
    requires i < |rows| && IsFirst(rows, i)
    ensures Least(rows, rows[i])
  {
    forall x | x in rows && SamePartition(x, rows[i]) ensures !OrderedBefore(x, rows[i]) {
      var j: nat :| j < |rows| && rows[j] == x;
      assert !NumberedBefore(rows, j, i);
    }
  }

  /** `row_number() = 1` deduplicates. */
  lemma RowNumberDedups(rows: seq<MarketEvent>)
    ensures IsDedup(rows, NumberedFirst(rows, |rows|))
  {
    var out := NumberedFirst(rows, |rows|);
    NumberedFirstDistinct(rows, |rows|);
    forall r | r in out ensures Least(rows, r) {
      NumberedFirstMember(rows, |rows|, r);
      var i: nat :| i < |rows| && rows[i] == r && IsFirst(rows, i);
      FirstIsLeast(rows, i);
    }
    forall x | x in rows ensures HasSurvivor(out, x) {
      var j: nat :| j < |rows| && rows[j] == x;
      assert SamePartition(rows[j], x);
      var i := SomeFirst(rows, x, |rows|);
      NumberedFirstMember(rows, |rows|, rows[i]);
    }
  }

  /** The columns that partition or order the rows; gold reads no other. */
  function Columns(e: MarketEvent): MarketEvent {
    MarketEvent("", e.symbol, e.eventType, e.price, e.size, None, e.tradeId, None, None, None, None, e.tsEvent, e.tsIngest)
  }

  function AllColumns(es: seq<MarketEvent>): seq<MarketEvent> {
    seq(|es|, i requires 0 <= i < |es| => Columns(es[i]))
  }

  lemma LeastRowsAgree(a: seq<MarketEvent>, b: seq<MarketEvent>, x: MarketEvent, y: MarketEvent)
    requires forall e :: e in a <==> e in b
    requires forall e :: e in a ==> TradeValid()(e)
    requires Least(a, x) && Least(b, y) && SamePartition(x, y)
    ensures Columns(x) == Columns(y)
  {
    assert !OrderedBefore(x, y) && !OrderedBefore(y, x);
  }

  lemma ColumnsMember(es: seq<MarketEvent>, e: MarketEvent)
    requires e in es
    ensures Columns(e) in AllColumns(es)
  {
    var i :| 0 <= i < |es| && es[i] == e;
    assert AllColumns(es)[i] == Columns(e);
  }

  lemma DedupCounterpart(a: seq<MarketEvent>, b: seq<MarketEvent>, x: seq<MarketEvent>, y: seq<MarketEvent>, e: MarketEvent)
    requires forall e :: e in a <==> e in b
    requires forall e :: e in a ==> TradeValid()(e)
    requires IsDedup(a, x) && IsDedup(b, y) && e in x
    ensures Columns(e) in AllColumns(y)
  {
    assert Least(a, e);
    assert HasSurvivor(y, e);
    var r :| r in y && SamePartition(e, r);
    assert Least(b, r);
    LeastRowsAgree(a, b, e, r);
    ColumnsMember(y, r);
  }

  lemma DedupColumnsWithin(a: seq<MarketEvent>, b: seq<MarketEvent>, x: seq<MarketEvent>, y: seq<MarketEvent>)
    requires forall e :: e in a <==> e in b
    requires forall e :: e in a ==> TradeValid()(e)
    requires IsDedup(a, x) && IsDedup(b, y)
    ensures forall c :: c in AllColumns(x) ==> c in AllColumns(y)
  {
    forall c | c in AllColumns(x) ensures c in AllColumns(y) {
      var i :| 0 <= i < |x| && AllColumns(x)[i] == c;
      assert x[i] in x;
      DedupCounterpart(a, b, x, y, x[i]);
    }
  }

  lemma DedupColumnsDistinct(a: seq<MarketEvent>, x: seq<MarketEvent>)
    requires IsDedup(a, x)
    ensures NoDuplicates(AllColumns(x))
  {
    forall i, j | 0 <= i < j < |x| ensures AllColumns(x)[i] != AllColumns(x)[j] {
      assert !SamePartition(x[i], x[j]);
    }
  }

  /** Input order and tie-breaking leave the partitioning and ordering columns unchanged. */
  lemma DedupDetermined(a: seq<MarketEvent>, b: seq<MarketEvent>, x: seq<MarketEvent>, y: seq<MarketEvent>)
    requires forall e :: e in a <==> e in b
    requires forall e :: e in a ==> TradeValid()(e)
    requires IsDedup(a, x) && IsDedup(b, y)
    ensures multiset(AllColumns(x)) == multiset(AllColumns(y))
  {
    DedupColumnsWithin(a, b, x, y);
    DedupColumnsWithin(b, a, y, x);
    DedupColumnsDistinct(a, x);
    DedupColumnsDistinct(b, y);
    SameMembersPermuted(AllColumns(x), AllColumns(y));
  }

  lemma DistinctIdKept(src: seq<MarketEvent>, out: seq<MarketEvent>, x: MarketEvent)
    requires forall i, j :: 0 <= i < j < |src| ==> !SamePartition(src[i], src[j])
    requires IsDedup(src, out) && x in src
    ensures x in out
  {
    assert HasSurvivor(out, x);
    var r :| r in out && SamePartition(x, r);
    assert Least(src, r);
    var i :| 0 <= i < |src| && src[i] == x;
    var j :| 0 <= j < |src| && src[j] == r;
    assert SamePartition(src[j], src[i]);
  }

  /** Trade ids already distinct within a symbol: deduplication keeps every row. */
  lemma DistinctIdsKept(src: seq<MarketEvent>, out: seq<MarketEvent>)
    requires forall i, j :: 0 <= i < j < |src| ==> !SamePartition(src[i], src[j])
    requires IsDedup(src, out)
    ensures multiset(out) == multiset(src)
  {
    forall x | x in src ensures x in out {
      DistinctIdKept(src, out, x);
    }
    forall i, j | 0 <= i < j < |out| ensures out[i] != out[j] { assert !SamePartition(out[i], out[j]); }
    forall i, j | 0 <= i < j < |src| ensures src[i] != src[j] { assert !SamePartition(src[i], src[j]); }
    forall r | r in out ensures r in src { assert Least(src, r); }
    SameMembersPermuted(out, src);
  }

  /** Deduplicating again keeps every row. */
  lemma DedupIdempotent(src: seq<MarketEvent>, out: seq<MarketEvent>, again: seq<MarketEvent>)
    requires IsDedup(src, out) && IsDedup(out, again)
    ensures multiset(again) == multiset(out)
  {
    DistinctIdsKept(out, again);
  }

  // ---- The silver tables, in the columns of bronze ----

  /** A trade with a positive price, a non-negative size and an id. */
  predicate UsableTrade(e: MarketEvent) {
    && e.eventType == Trade && e.tradeId != None
    && e.price != None && e.price.value > 0.0 && e.size != None && e.size.value >= 0.0
  }

  /** `r` repeats the symbol and the trade id of `x`. */
  predicate Repeats(r: MarketEvent, x: MarketEvent) {
    r.symbol == x.symbol && r.tradeId == x.tradeId
  }

  /** At or before, comparing event time, then ingest time, price and size. */
  predicate AtOrBefore(r: MarketEvent, x: MarketEvent)
    requires UsableTrade(r) && UsableTrade(x)
  {
    if r.tsEvent != x.tsEvent then r.tsEvent < x.tsEvent
    else if r.tsIngest != x.tsIngest then r.tsIngest < x.tsIngest
    else if r.price != x.price then r.price.value < x.price.value
    else r.size.value <= x.size.value
  }

  /** Every row of the silver trades is a usable trade of bronze. */
  lemma SilverTradesAreUsable(bronze: seq<MarketEvent>, r: MarketEvent)
    requires r in SilverTrades(bronze)
    ensures r in bronze && UsableTrade(r)
  {
    RowNumberDedups(Filter(bronze, TradeValid()));
    assert Least(Filter(bronze, TradeValid()), r);
  }

  lemma LeastIsAtOrBefore(src: seq<MarketEvent>, r: MarketEvent, x: MarketEvent)
    requires x in src && Least(src, r) && SamePartition(x, r)
    requires UsableTrade(r) && UsableTrade(x)
    ensures AtOrBefore(r, x)
  {
    assert !OrderedBefore(x, r);
  }

  /** Every usable trade of bronze has exactly one row in the silver trades, at or before it. */
  lemma UsableTradeKept(bronze: seq<MarketEvent>, x: MarketEvent)
    requires x in bronze && UsableTrade(x)
    ensures forall r :: r in SilverTrades(bronze) ==> UsableTrade(r)
    ensures exists i :: && 0 <= i < |SilverTrades(bronze)| && Repeats(SilverTrades(bronze)[i], x)
                        && AtOrBefore(SilverTrades(bronze)[i], x)
                        && forall j :: 0 <= j < |SilverTrades(bronze)| && Repeats(SilverTrades(bronze)[j], x) ==> j == i
  {
    var src, out := Filter(bronze, TradeValid()), SilverTrades(bronze);
    forall r | r in out ensures UsableTrade(r) { SilverTradesAreUsable(bronze, r); }
    RowNumberDedups(src);
    assert x in src && HasSurvivor(out, x);
    var r :| r in out && SamePartition(x, r);
    var i :| 0 <= i < |out| && out[i] == r;
    LeastIsAtOrBefore(src, r, x);
    forall j | 0 <= j < |out| && Repeats(out[j], x) ensures j == i {
      assert SamePartition(out[i], out[j]) && SamePartition(out[j], out[i]);
    }
  }

  /** The surviving row is at or before any usable trade that repeats its symbol and trade id. */
  lemma SurvivorIsEarliest(bronze: seq<MarketEvent>, r: MarketEvent, x: MarketEvent)
    requires r in SilverTrades(bronze) && x in bronze && UsableTrade(x) && Repeats(r, x)
    ensures UsableTrade(r) && AtOrBefore(r, x)
  {
    var src := Filter(bronze, TradeValid());
    SilverTradesAreUsable(bronze, r);
    RowNumberDedups(src);
    LeastIsAtOrBefore(src, r, x);
  }

  /** The silver ticker holds every two-sided tick of bronze whose book is not crossed, as often as
      bronze does, and nothing else. */
  lemma SilverTickerRows(bronze: seq<MarketEvent>, e: MarketEvent)
    ensures multiset(SilverTicker(bronze))[e]
         == if && e.eventType == Ticker && e.bestBid != None && e.bestAsk != None
               && e.bestBid.value <= e.bestAsk.value then multiset(bronze)[e] else 0
  {
    FilterMultiset(bronze, TickerValid(), e);
  }
}
