/**
 The data shaping inside `fetch_data_from_api` (src/main.rs): the leading
 stale documents are dropped, and every remaining document is flattened,
 hour by hour, into (two-digit hour label, price in hundredths) entries.
 */
module Fetch {

  import opened Options
  import opened Decimal
  import opened PriceData

  /** One element of the series: the hour label and the price in hundredths. */
  type Entry = (string, U64)

  /** Where an entry comes from: a retained document's position and an hour of the day. */
  datatype Slot = Slot(doc: nat, hour: nat)

  /** Document order first, then hour order. */
  predicate Before(a: Slot, b: Slot) {
    a.doc < b.doc || (a.doc == b.doc && a.hour < b.hour)
  }

  /** The hour's slot is a `Map` holding a price for `Year`. */
  predicate Priced(d: Prices, hour: nat)
    requires hour < 24
  {
    var data := GetTimeData(d, hour);
    data.Some? && Year in data.value
  }

  /** The converted price a priced slot contributes. */
  function PriceAt(d: Prices, hour: nat, convert: real -> U64): U64
    requires hour < 24 && Priced(d, hour)
  {
    convert(GetTimeData(d, hour).value[Year])
  }

  /** The entry a priced hour of a document yields: its two-digit label and its converted price. */
  function EntryAt(d: Prices, hour: nat, convert: real -> U64): Entry
    requires hour < 24 && Priced(d, hour)
  {
    (ShowPad2(hour), PriceAt(d, hour, convert))
  }

  function Labels(entries: seq<Entry>): (labels: seq<string>)
    ensures |labels| == |entries|
    ensures forall k :: 0 <= k < |entries| ==> labels[k] == entries[k].0
  {
    seq(|entries|, k requires 0 <= k < |entries| => entries[k].0)
  }

  /**
   The stale leading documents are discarded: the first always, and the
   next one too when more than one is left. Removing from an empty fetch
   panics in the source, so at least one document is required.
   */
  function DropLeading(docs: seq<Prices>): (kept: seq<Prices>)
    requires |docs| >= 1
    ensures |docs| == 1 ==> kept == []
    ensures |docs| == 2 ==> kept == [docs[1]]
    ensures |docs| >= 3 ==> kept == docs[2..]
    ensures exists k :: 1 <= k <= 2 && k <= |docs| && kept == docs[k..]
  {
    var rest := docs[1..];
    assert rest == docs[1..];
    if |rest| > 1 then
      assert rest[1..] == docs[2..];
      rest[1..]
    else
      rest
  }

  /** The entries one document yields for the hours below `n`, in the inner loop's order. */
  function ExtractHours(d: Prices, n: nat, convert: real -> U64): (entries: seq<Entry>)
    requires n <= 24
    ensures |entries| <= n
  {
    if n == 0 then []
    else
      ExtractHours(d, n - 1, convert)
      + (if Priced(d, n - 1) then [EntryAt(d, n - 1, convert)] else [])
  }

  /** All entries of one document: hours 0 through 23. */
  function ExtractDoc(d: Prices, convert: real -> U64): (entries: seq<Entry>)
    ensures |entries| <= 24
  {
    ExtractHours(d, 24, convert)
  }

  /** The entries of the first `i` documents, in the outer loop's order. */
  function ExtractUpTo(docs: seq<Prices>, i: nat, convert: real -> U64): (entries: seq<Entry>)
    requires i <= |docs|
    ensures |entries| <= 24 * i
  {
    if i == 0 then [] else ExtractUpTo(docs, i - 1, convert) + ExtractDoc(docs[i - 1], convert)
  }

  /** The flattened series of all documents. */
  function Extract(docs: seq<Prices>, convert: real -> U64): (entries: seq<Entry>)
    ensures |entries| <= 24 * |docs|
  {
    ExtractUpTo(docs, |docs|, convert)
  }

  /** Reference definition: the priced hours below `n`, in ascending order. */
  function PricedHours(d: Prices, n: nat): (hours: seq<nat>)
    requires n <= 24
    ensures |hours| <= n
    ensures forall k :: 0 <= k < |hours| ==> hours[k] < n && Priced(d, hours[k])
    ensures forall k, l :: 0 <= k < l < |hours| ==> hours[k] < hours[l]
    ensures forall h :: 0 <= h < n && Priced(d, h) ==> h in hours
  {
    if n == 0 then []
    else
      var earlier := PricedHours(d, n - 1);
      if Priced(d, n - 1) then
        assert forall k :: 0 <= k < |earlier| ==> earlier[k] < n - 1;
        earlier + [n - 1]
      else
        earlier
  }

  /** The slot names a document of `docs` and an hour of the day, and is priced. */
  predicate SlotIn(docs: seq<Prices>, s: Slot) {
    s.doc < |docs| && s.hour < 24 && Priced(docs[s.doc], s.hour)
  }

  /** The entry a priced slot yields. */
  function EntryFor(docs: seq<Prices>, s: Slot, convert: real -> U64): Entry
    requires SlotIn(docs, s)
  {
    EntryAt(docs[s.doc], s.hour, convert)
  }

  function SlotsOf(doc: nat, hours: seq<nat>): (slots: seq<Slot>)
    ensures |slots| == |hours|
    ensures forall k :: 0 <= k < |hours| ==> slots[k] == Slot(doc, hours[k])
  {
    seq(|hours|, k requires 0 <= k < |hours| => Slot(doc, hours[k]))
  }

  /**
   Reference definition: the (document, hour) slots of the first `i`
   documents that carry a price, document by document, hours ascending.
   */
  function PricedSlots(docs: seq<Prices>, i: nat): (slots: seq<Slot>)
    requires i <= |docs|
    ensures forall k :: 0 <= k < |slots| ==> slots[k].doc < i && SlotIn(docs, slots[k])
  {
    if i == 0 then [] else PricedSlots(docs, i - 1) + SlotsOf(i - 1, PricedHours(docs[i - 1], 24))
  }

  /** The priced slots are strictly ordered by document, then hour. */
  lemma {:induction false} PricedSlotsOrdered(docs: seq<Prices>, i: nat)
    requires i <= |docs|
    ensures forall k, l :: 0 <= k < l < |PricedSlots(docs, i)| ==>
              Before(PricedSlots(docs, i)[k], PricedSlots(docs, i)[l])
  {
    if i > 0 {
      PricedSlotsOrdered(docs, i - 1);
      var earlier := PricedSlots(docs, i - 1);
      var last := SlotsOf(i - 1, PricedHours(docs[i - 1], 24));
      var all := earlier + last;
      assert PricedSlots(docs, i) == all;
      forall k, l | 0 <= k < l < |all| ensures Before(all[k], all[l]) {
        if l < |earlier| {
          assert all[k] == earlier[k] && all[l] == earlier[l];
        } else if k < |earlier| {
          assert all[k] == earlier[k] && all[l] == last[l - |earlier|];
        } else {
          assert all[k] == last[k - |earlier|] && all[l] == last[l - |earlier|];
        }
      }
    }
  }

  /** Every priced slot of the first `i` documents is listed. */
  lemma {:induction false} PricedSlotsComplete(docs: seq<Prices>, i: nat, j: nat, h: nat)
    requires i <= |docs|
    requires j < i && h < 24 && Priced(docs[j], h)
    ensures Slot(j, h) in PricedSlots(docs, i)
  {
    var earlier := PricedSlots(docs, i - 1);
    var hours := PricedHours(docs[i - 1], 24);
    var last := SlotsOf(i - 1, hours);
    assert PricedSlots(docs, i) == earlier + last;
    if j < i - 1 {
      PricedSlotsComplete(docs, i - 1, j, h);
    } else {
      var k :| 0 <= k < |hours| && hours[k] == h;
      assert last[k] == Slot(j, h);
    }
  }

  /** One document's entries are exactly its priced hours, labelled and converted. */
  lemma {:induction false} ExtractHoursFollowsPricedHours(d: Prices, n: nat, convert: real -> U64)
    requires n <= 24
    ensures |ExtractHours(d, n, convert)| == |PricedHours(d, n)|
    ensures forall k :: 0 <= k < |PricedHours(d, n)| ==>
              ExtractHours(d, n, convert)[k] == EntryAt(d, PricedHours(d, n)[k], convert)
  {
    if n > 0 {
      ExtractHoursFollowsPricedHours(d, n - 1, convert);
      var entries, hours := ExtractHours(d, n - 1, convert), PricedHours(d, n - 1);
      if Priced(d, n - 1) {
        assert ExtractHours(d, n, convert) == entries + [EntryAt(d, n - 1, convert)];
        assert PricedHours(d, n) == hours + [n - 1];
      } else {
        assert ExtractHours(d, n, convert) == entries;
        assert PricedHours(d, n) == hours;
      }
    }
  }

  /** `entries` lists, position by position, what the priced `slots` yield. */
  predicate Follows(docs: seq<Prices>, slots: seq<Slot>, entries: seq<Entry>, convert: real -> U64) {
    && |entries| == |slots|
    && forall k :: 0 <= k < |slots| ==> SlotIn(docs, slots[k]) && entries[k] == EntryFor(docs, slots[k], convert)
  }

  lemma FollowsConcat(docs: seq<Prices>, s1: seq<Slot>, e1: seq<Entry>, s2: seq<Slot>, e2: seq<Entry>,
                      convert: real -> U64)
    requires Follows(docs, s1, e1, convert) && Follows(docs, s2, e2, convert)
    ensures Follows(docs, s1 + s2, e1 + e2, convert)
  {
    forall k | 0 <= k < |s1| + |s2|
      ensures SlotIn(docs, (s1 + s2)[k]) && (e1 + e2)[k] == EntryFor(docs, (s1 + s2)[k], convert)
    {
      if k < |s1| {
        assert (s1 + s2)[k] == s1[k] && (e1 + e2)[k] == e1[k];
      } else {
        assert (s1 + s2)[k] == s2[k - |s1|] && (e1 + e2)[k] == e2[k - |s1|];
      }
    }
  }

  /** Document `j`'s own entries follow its priced hours. */
  lemma DocumentFollowsSlots(docs: seq<Prices>, j: nat, convert: real -> U64)
    requires j < |docs|
    ensures Follows(docs, SlotsOf(j, PricedHours(docs[j], 24)), ExtractDoc(docs[j], convert), convert)
  {
    var hours := PricedHours(docs[j], 24);
    var slots := SlotsOf(j, hours);
    ExtractHoursFollowsPricedHours(docs[j], 24, convert);
    forall k | 0 <= k < |slots|
      ensures SlotIn(docs, slots[k]) && ExtractDoc(docs[j], convert)[k] == EntryFor(docs, slots[k], convert)
    {
      assert slots[k] == Slot(j, hours[k]);
    }
  }

  /**
   The flattened series lists, in order, one entry per priced slot: its
   hour's two-digit label and its converted price. With the ordering of
   `PricedSlots` this says the series runs document by document, hours
   ascending, and skips exactly the unpriced slots.
   */
  lemma {:induction false} ExtractFollowsSlots(docs: seq<Prices>, i: nat, convert: real -> U64)
    requires i <= |docs|
    ensures Follows(docs, PricedSlots(docs, i), ExtractUpTo(docs, i, convert), convert)
  {
    if i > 0 {
      ExtractFollowsSlots(docs, i - 1, convert);
      DocumentFollowsSlots(docs, i - 1, convert);
      FollowsConcat(docs, PricedSlots(docs, i - 1), ExtractUpTo(docs, i - 1, convert),
                    SlotsOf(i - 1, PricedHours(docs[i - 1], 24)), ExtractDoc(docs[i - 1], convert), convert);
    }
  }

  /**
   Hour `h` of a document yields an entry exactly when its slot is a `Map`
   holding a `Year` price, and that entry carries the converted price.
   */
  lemma EmittedIff(d: Prices, h: nat, convert: real -> U64)
    requires h < 24
    ensures ShowPad2(h) in Labels(ExtractDoc(d, convert)) <==> Priced(d, h)
    ensures forall k :: 0 <= k < |ExtractDoc(d, convert)| && ExtractDoc(d, convert)[k].0 == ShowPad2(h) ==>
              Priced(d, h) && ExtractDoc(d, convert)[k].1 == PriceAt(d, h, convert)
  {
    var entries := ExtractDoc(d, convert);
    var hours := PricedHours(d, 24);
    ExtractHoursFollowsPricedHours(d, 24, convert);
    forall k | 0 <= k < |entries| && entries[k].0 == ShowPad2(h)
      ensures hours[k] == h
    {
      ShowPad2Injective(hours[k], h);
    }
    if Priced(d, h) {
      var k :| 0 <= k < |hours| && hours[k] == h;
      assert Labels(entries)[k] == ShowPad2(h);
    }
  }

  /** A slot that is missing or holds the integer placeholder yields no entry and no error. */
  lemma PlaceholderSkipped(d: Prices, h: nat, convert: real -> U64)
    requires h < 24
    requires SlotKey(h) !in d.hours || d.hours[SlotKey(h)].Int?
    ensures ShowPad2(h) !in Labels(ExtractDoc(d, convert))
  {
    EmittedIff(d, h, convert);
  }

  /** Every hour of the day carries a `Year` price. */
  predicate FullDay(d: Prices) {
    forall h :: 0 <= h < 24 ==> Priced(d, h)
  }

  lemma {:induction false} FullHours(d: Prices, n: nat, convert: real -> U64)
    requires n <= 24 && FullDay(d)
    ensures |ExtractHours(d, n, convert)| == n
    ensures forall h :: 0 <= h < n ==> ExtractHours(d, n, convert)[h] == (ShowPad2(h), PriceAt(d, h, convert))
  {
    if n > 0 {
      FullHours(d, n - 1, convert);
    }
  }

  /** A fully priced document contributes exactly 24 entries labelled "00" .. "23" in order. */
  lemma FullDocument(d: Prices, convert: real -> U64)
    requires FullDay(d)
    ensures |ExtractDoc(d, convert)| == 24
    ensures forall h :: 0 <= h < 24 ==> ExtractDoc(d, convert)[h] == (ShowPad2(h), PriceAt(d, h, convert))
    ensures ExtractDoc(d, convert)[0].0 == "00" && ExtractDoc(d, convert)[23].0 == "23"
  {
    FullHours(d, 24, convert);
  }

  /** Of four fetched documents, only the third and fourth contribute, in that order. */
  lemma FourDocuments(docs: seq<Prices>, convert: real -> U64)
    requires |docs| == 4
    ensures Extract(DropLeading(docs), convert) == ExtractDoc(docs[2], convert) + ExtractDoc(docs[3], convert)
  {
    var kept := DropLeading(docs);
    assert kept == [docs[2], docs[3]];
    assert ExtractUpTo(kept, 1, convert) == ExtractDoc(docs[2], convert);
  }

  /**
   The body of `fetch_data_from_api` after the documents have arrived: the
   two removals, then the nested loops over documents and hours 0..23.
   */
  method FetchSeries(fetched: seq<Prices>, convert: real -> U64) returns (finalForm: seq<Entry>)
    requires |fetched| >= 1
    ensures finalForm == Extract(DropLeading(fetched), convert)
  {
    var prices := fetched[1..];
    if |prices| > 1 {
      prices := prices[1..];
    }
    finalForm := [];
    var i := 0;
    while i < |prices|
      invariant 0 <= i <= |prices|
      invariant finalForm == ExtractUpTo(prices, i, convert)
    {
      var entry := prices[i];
      var index := 0;
      while index < 24
        invariant 0 <= index <= 24
        invariant finalForm == ExtractUpTo(prices, i, convert) + ExtractHours(entry, index, convert)
      {
        var kloData := GetTimeData(entry, index);
        if kloData.Some? && Year in kloData.value {
          finalForm := finalForm + [(ShowPad2(index), convert(kloData.value[Year]))];
        }
        index := index + 1;
      }
      i := i + 1;
    }
  }
}
