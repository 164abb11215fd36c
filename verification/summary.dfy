/**
 The text summary at the end of `main` (src/main.rs): the price of the
 current hour, the cheapest and the most expensive one-hour window, each
 printed with an "i-(i+1)" window label.
 */
module Summary {

  import opened Options
  import opened Decimal
  import opened PriceData
  import opened Fetch

  /** The cast of a `u64` price to `u32`, which keeps its low 32 bits. */
  function Narrow(p: U64): (r: U32)
    ensures p < 0x1_0000_0000 ==> r == p
    ensures r <= p
    ensures (p - r) % 0x1_0000_0000 == 0
  {
    p % 0x1_0000_0000
  }

  /** The `Vec<u32>` of prices built from the series, labels dropped. */
  function PriceSeries(entries: seq<Entry>): (prices: seq<U32>)
    ensures |prices| == |entries|
    ensures forall k :: 0 <= k < |entries| ==> prices[k] == Narrow(entries[k].1)
    ensures forall k :: 0 <= k < |entries| && entries[k].1 < 0x1_0000_0000 ==> prices[k] == entries[k].1
  {
    seq(|entries|, k requires 0 <= k < |entries| => Narrow(entries[k].1))
  }

  /** An element chosen from the enumerated series: its position and its price. */
  datatype Pick = Pick(index: nat, price: U32)

  /** `i` holds the smallest price, and no earlier position holds it. */
  predicate IsFirstMin(s: seq<U32>, i: nat) {
    && i < |s|
    && (forall j :: 0 <= j < |s| ==> s[i] <= s[j])
    && (forall j :: 0 <= j < i ==> s[j] > s[i])
  }

  /** `i` holds the largest price, and no later position holds it. */
  predicate IsLastMax(s: seq<U32>, i: nat) {
    && i < |s|
    && (forall j :: 0 <= j < |s| ==> s[j] <= s[i])
    && (forall j :: i < j < |s| ==> s[j] < s[i])
  }

  /**
   `Iterator::reduce` with `cmp::min_by` over the first `n` elements: the
   accumulator is kept unless the next element is strictly smaller.
   */
  function ReduceMin(s: seq<U32>, n: nat): (i: nat)
    requires 1 <= n <= |s|
    ensures i < n
    ensures forall j :: 0 <= j < n ==> s[i] <= s[j]
    ensures forall j :: 0 <= j < i ==> s[j] > s[i]
  {
    if n == 1 then 0
    else
      var best := ReduceMin(s, n - 1);
      if s[best] <= s[n - 1] then best else n - 1
  }

  /**
   `Iterator::reduce` with `cmp::max_by` over the first `n` elements: the
   next element replaces the accumulator unless the accumulator is strictly
   larger, so later equal maxima win.
   */
  function ReduceMax(s: seq<U32>, n: nat): (i: nat)
    requires 1 <= n <= |s|
    ensures i < n
    ensures forall j :: 0 <= j < n ==> s[j] <= s[i]
    ensures forall j :: i < j < n ==> s[j] < s[i]
  {
    if n == 1 then 0
    else
      var best := ReduceMax(s, n - 1);
      if s[best] > s[n - 1] then best else n - 1
  }

  /** The cheapest position: `min_by_key` over the enumerated prices, keyed by price. */
  function MinByKey(s: seq<U32>): (r: Option<Pick>)
    ensures r.None? <==> |s| == 0
    ensures r.Some? ==> IsFirstMin(s, r.value.index) && r.value.price == s[r.value.index]
  {
    if |s| == 0 then None
    else
      var i := ReduceMin(s, |s|);
      Some(Pick(i, s[i]))
  }

  /** The dearest position: `max_by_key` over the enumerated prices, keyed by price. */
  function MaxByKey(s: seq<U32>): (r: Option<Pick>)
    ensures r.None? <==> |s| == 0
    ensures r.Some? ==> IsLastMax(s, r.value.index) && r.value.price == s[r.value.index]
  {
    if |s| == 0 then None
    else
      var i := ReduceMax(s, |s|);
      Some(Pick(i, s[i]))
  }

  /** The first minimum is unique, so it alone determines what `MinByKey` returns. */
  lemma MinByKeyIsFirstMin(s: seq<U32>, i: nat)
    requires IsFirstMin(s, i)
    ensures MinByKey(s) == Some(Pick(i, s[i]))
  {
  }

  /** The last maximum is unique, so it alone determines what `MaxByKey` returns. */
  lemma MaxByKeyIsLastMax(s: seq<U32>, i: nat)
    requires IsLastMax(s, i)
    ensures MaxByKey(s) == Some(Pick(i, s[i]))
  {
  }

  /**
   On ties the two selections part ways: over a series whose prices are all
   equal, the minimum is the first element and the maximum the last.
   */
  lemma TieBreak(s: seq<U32>)
    requires |s| >= 1
    requires forall j :: 0 <= j < |s| ==> s[j] == s[0]
    ensures MinByKey(s) == Some(Pick(0, s[0]))
    ensures MaxByKey(s) == Some(Pick(|s| - 1, s[0]))
  {
  }

  /** The "i-(i+1)" window label printed for a chosen index. */
  function WindowLabel(index: nat): (window: string)
    ensures |window| == |Show(index)| + 1 + |Show(index + 1)|
    ensures window[|Show(index)|] == '-'
    ensures forall k :: 0 <= k < |window| && window[k] == '-' ==> k == |Show(index)|
  {
    Show(index) + "-" + Show(index + 1)
  }

  /** Distinct indices get distinct window labels. */
  lemma WindowLabelInjective(i: nat, j: nat)
    requires WindowLabel(i) == WindowLabel(j)
    ensures i == j
  {
    var a, b := Show(i), Show(j);
    assert |a| == |b|;
    assert a == WindowLabel(i)[..|a|];
    assert b == WindowLabel(j)[..|b|];
    ShowInjective(i, j);
  }

  /** The window label reads back as the index and its successor. */
  lemma WindowLabelParses(index: nat)
    ensures Parse(WindowLabel(index)[..|Show(index)|]) == Some(index)
    ensures Parse(WindowLabel(index)[|Show(index)| + 1..]) == Some(index + 1)
  {
    var a := Show(index);
    assert WindowLabel(index)[..|a|] == a;
    assert WindowLabel(index)[|a| + 1..] == Show(index + 1);
    ParseShow(index);
    ParseShow(index + 1);
  }

  const Unit: string := " c/kWh"

  /** The line reporting the current hour's price. */
  function NowLine(price: U32): string {
    "Hinta nyt: " + Show(price) + Unit
  }

  /** The line reporting the cheapest window and its price. */
  function CheapestLine(p: Pick): string {
    "Halvin tunti " + WindowLabel(p.index) + ": " + Show(p.price) + Unit
  }

  /** The line reporting the dearest window and its price. */
  function PriciestLine(p: Pick): string {
    "Kallein tunti " + WindowLabel(p.index) + ": " + Show(p.price) + Unit
  }

  /** Why the run aborted. */
  datatype Panic =
    | RemoveFromEmpty                         // removing the first document of an empty fetch
    | IndexOutOfBounds(index: nat, len: nat)  // reading the current hour past the end of the series

  /** How the run ends: a panic, or the summary lines written to standard output. */
  datatype Outcome = Panicked(reason: Panic) | Printed(lines: seq<string>)

  /**
   The summary of `main` for the clock hour `hour`. Reading `prices[hour]`
   aborts when the series is too short; otherwise three lines are printed,
   and since the series is then nonempty both selections exist.
   */
  function Report(prices: seq<U32>, hour: nat): (r: Outcome)
    requires hour < 24
    ensures r.Panicked? <==> hour >= |prices|
    ensures r.Panicked? ==> r.reason == IndexOutOfBounds(hour, |prices|)
    ensures r.Printed? ==> |r.lines| == 3 && r.lines[0] == NowLine(prices[hour])
    ensures r.Printed? ==> forall i: nat :: IsFirstMin(prices, i) ==> r.lines[1] == CheapestLine(Pick(i, prices[i]))
    ensures r.Printed? ==> forall i: nat :: IsLastMax(prices, i) ==> r.lines[2] == PriciestLine(Pick(i, prices[i]))
  {
    if hour >= |prices| then
      Panicked(IndexOutOfBounds(hour, |prices|))
    else
      var now := NowLine(prices[hour]);
      var cheapest := MinByKey(prices);
      var priciest := MaxByKey(prices);
      assert forall i: nat :: IsFirstMin(prices, i) ==> cheapest == Some(Pick(i, prices[i])) by {
        forall i: nat | IsFirstMin(prices, i) ensures cheapest == Some(Pick(i, prices[i])) {
          MinByKeyIsFirstMin(prices, i);
        }
      }
      assert forall i: nat :: IsLastMax(prices, i) ==> priciest == Some(Pick(i, prices[i])) by {
        forall i: nat | IsLastMax(prices, i) ensures priciest == Some(Pick(i, prices[i])) {
          MaxByKeyIsLastMax(prices, i);
        }
      }
      Printed([now, CheapestLine(cheapest.value), PriciestLine(priciest.value)])
  }
}
