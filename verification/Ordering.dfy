/** Out-of-order records: flagged and counted, never dropped. */
module Ordering {
  import opened Basics
  import opened Schema

  /** Some earlier record of the same symbol has a strictly later event time. */
  ghost predicate Overtaken(before: seq<MarketEvent>, e: MarketEvent) {
    exists r :: r in before && r.symbol == e.symbol && r.tsEvent > e.tsEvent
  }

  /** How many records have been overtaken by an earlier one of their symbol. */
  ghost function OutOfOrder(es: seq<MarketEvent>): nat {
    if es == [] then 0
    else OutOfOrder(es[..|es| - 1]) + (if Overtaken(es[..|es| - 1], es[|es| - 1]) then 1 else 0)
  }

  lemma OutOfOrderAppend(es: seq<MarketEvent>, e: MarketEvent)
    ensures OutOfOrder(es + [e]) == OutOfOrder(es) + (if Overtaken(es, e) then 1 else 0)
  {
    assert (es + [e])[..|es|] == es;
  }

  /** The count is zero exactly when every symbol's own records arrive in event-time order. */
  lemma {:induction false} OutOfOrderZero(es: seq<MarketEvent>)
    ensures OutOfOrder(es) == 0
       <==> forall i, j :: 0 <= i < j < |es| && es[i].symbol == es[j].symbol ==> es[i].tsEvent <= es[j].tsEvent
  {
    if es != [] {
      var n := |es| - 1;
      OutOfOrderZero(es[..n]);
      if Overtaken(es[..n], es[n]) {
        var r :| r in es[..n] && r.symbol == es[n].symbol && r.tsEvent > es[n].tsEvent;
        var i :| 0 <= i < n && es[i] == r;
      } else {
        forall i | 0 <= i < n && es[i].symbol == es[n].symbol ensures es[i].tsEvent <= es[n].tsEvent {
          assert es[i] in es[..n];
        }
      }
    }
  }

  // ---- The counting loop ----

  /** The symbols in order of first appearance, as a group-by without sorting lists them. */
  function Symbols(es: seq<MarketEvent>): (r: seq<string>)
    ensures NoDuplicates(r)
    ensures forall e :: e in es ==> e.symbol in r
    ensures forall s :: s in r ==> exists e :: e in es && e.symbol == s
  {
    if es == [] then []
    else
      var n := |es| - 1;
      var r := Symbols(es[..n]);
      assert forall e :: e in es <==> e in es[..n] || e == es[n];
      if es[n].symbol in r then r else r + [es[n].symbol]
  }

  /** The counts of the groups, added up. */
  ghost function GroupSum(es: seq<MarketEvent>, symbols: seq<string>): nat {
    if symbols == [] then 0
    else GroupSum(es, symbols[..|symbols| - 1]) + OutOfOrder(Filter(es, OfSymbol(symbols[|symbols| - 1])))
  }

  /** A record is overtaken within its group exactly when it is overtaken at all. */
  lemma OvertakenInGroup(es: seq<MarketEvent>, e: MarketEvent)
    ensures Overtaken(Filter(es, OfSymbol(e.symbol)), e) <==> Overtaken(es, e)
  {
  }

  lemma {:induction false} GroupSumAppend(es: seq<MarketEvent>, e: MarketEvent, symbols: seq<string>)
    requires NoDuplicates(symbols)
    ensures GroupSum(es + [e], symbols)
         == GroupSum(es, symbols) + (if e.symbol in symbols && Overtaken(es, e) then 1 else 0)
  {
    if symbols != [] {
      var n := |symbols| - 1;
      var own := Filter(es, OfSymbol(symbols[n]));
      GroupSumAppend(es, e, symbols[..n]);
      FilterAppend(es, e, OfSymbol(symbols[n]));
      if e.symbol == symbols[n] {
        OutOfOrderAppend(own, e);
        OvertakenInGroup(es, e);
      } else {
        assert own + [] == own;
      }
    }
  }

  lemma {:induction false} GroupSumEmpty(symbols: seq<string>)
    ensures GroupSum([], symbols) == 0
  {
    if symbols != [] {
      GroupSumEmpty(symbols[..|symbols| - 1]);
    }
  }

  /** Grouping by symbol splits the count. */
  lemma {:induction false} GroupSumIsOutOfOrder(es: seq<MarketEvent>, symbols: seq<string>)
    requires NoDuplicates(symbols)
    requires forall e :: e in es ==> e.symbol in symbols
    ensures GroupSum(es, symbols) == OutOfOrder(es)
  {
    if es == [] {
      GroupSumEmpty(symbols);
    } else {
      var n := |es| - 1;
      assert es == es[..n] + [es[n]];
      GroupSumIsOutOfOrder(es[..n], symbols);
      GroupSumAppend(es[..n], es[n], symbols);
    }
  }

  /** The inner loop: `prev` runs along the maximum, so falling below it is being overtaken. */
  method CountInGroup(group: seq<MarketEvent>, ghost symbol: string) returns (out: nat)
    requires forall e :: e in group ==> e.symbol == symbol
    ensures out == OutOfOrder(group)
  {
    out := 0;
    var prev: Option<nat> := None;
    for i := 0 to |group|
      invariant out == OutOfOrder(group[..i])
      invariant prev == None <==> i == 0
      invariant prev.Some? ==> exists r :: r in group[..i] && r.tsEvent == prev.value
      invariant forall r :: r in group[..i] ==> prev.Some? && r.tsEvent <= prev.value
    {
      var e := group[i];
      assert group[..i + 1] == group[..i] + [e];
      OutOfOrderAppend(group[..i], e);
      assert e in group && forall r :: r in group[..i] ==> r in group;
      if prev.Some? && e.tsEvent < prev.value {
        out := out + 1;
      } else {
        prev := Some(e.tsEvent);
        assert e in group[..i + 1];
      }
    }
    assert group[..|group|] == group;
  }

  /** The greedy per-symbol loop counts exactly the overtaken records. */
  method CountOutOfOrder(df: seq<MarketEvent>) returns (out: nat)
    ensures out == OutOfOrder(df)
  {
    if df == [] {
      return 0;
    }
    out := 0;
    var symbols := Symbols(df);
    for i := 0 to |symbols|
      invariant out == GroupSum(df, symbols[..i])
    {
      var n := CountInGroup(Filter(df, OfSymbol(symbols[i])), symbols[i]);
      assert symbols[..i + 1][..i] == symbols[..i];
      out := out + n;
    }
    assert symbols[..|symbols|] == symbols;
    GroupSumIsOutOfOrder(df, symbols);
  }
}
