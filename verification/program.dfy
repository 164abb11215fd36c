/**
 One run of the program with the I/O taken out: the fetched documents,
 the clock hour and the price conversion come in as parameters, and the
 run ends either in a panic or with the summary lines printed.
 */
module Program {

  import opened Options
  import opened Decimal
  import opened PriceData
  import opened Fetch
  import opened Summary

  /**
   `fetch_data_from_api` after the query, then the summary of `main`. The
   removal from an empty fetch and the read past the end of a short series
   are the two aborts modelled.
   */
  function Run(fetched: seq<Prices>, hour: nat, convert: real -> U64): (r: Outcome)
    requires hour < 24
    ensures |fetched| == 0 ==> r == Panicked(RemoveFromEmpty)
    ensures r.Printed? <==> |fetched| >= 1 && hour < |Extract(DropLeading(fetched), convert)|
    ensures r.Printed? ==> |r.lines| == 3
  {
    if |fetched| == 0 then
      Panicked(RemoveFromEmpty)
    else
      Report(PriceSeries(Extract(DropLeading(fetched), convert)), hour)
  }

  /** With a single fetched document nothing is retained, so the hour lookup always aborts. */
  lemma SingleDocumentPanics(fetched: seq<Prices>, hour: nat, convert: real -> U64)
    requires |fetched| == 1 && hour < 24
    ensures Run(fetched, hour, convert) == Panicked(IndexOutOfBounds(hour, 0))
  {
  }

  lemma {:induction false} FullDaysLength(docs: seq<Prices>, i: nat, convert: real -> U64)
    requires i <= |docs|
    requires forall j :: 0 <= j < |docs| ==> FullDay(docs[j])
    ensures |ExtractUpTo(docs, i, convert)| == 24 * i
  {
    if i > 0 {
      FullDaysLength(docs, i - 1, convert);
      FullDocument(docs[i - 1], convert);
    }
  }

  /** The first document's entries open the series. */
  lemma {:induction false} FirstDocumentLeads(docs: seq<Prices>, i: nat, convert: real -> U64)
    requires 1 <= i <= |docs|
    ensures |ExtractDoc(docs[0], convert)| <= |ExtractUpTo(docs, i, convert)|
    ensures ExtractUpTo(docs, i, convert)[..|ExtractDoc(docs[0], convert)|] == ExtractDoc(docs[0], convert)
  {
    if i == 1 {
      assert ExtractUpTo(docs, 1, convert) == [] + ExtractDoc(docs[0], convert);
    } else {
      FirstDocumentLeads(docs, i - 1, convert);
      var earlier := ExtractUpTo(docs, i - 1, convert);
      assert ExtractUpTo(docs, i, convert) == earlier + ExtractDoc(docs[i - 1], convert);
    }
  }

  /**
   A series built from fully priced documents holds 24 entries per
   document, and its first 24 entries are the first document's hours, so
   position `hour` holds that document's entry for `hour`.
   */
  lemma FullSeries(docs: seq<Prices>, hour: nat, convert: real -> U64)
    requires |docs| >= 1 && hour < 24
    requires forall j :: 0 <= j < |docs| ==> FullDay(docs[j])
    ensures |Extract(docs, convert)| == 24 * |docs|
    ensures Priced(docs[0], hour)
    ensures Extract(docs, convert)[hour] == EntryAt(docs[0], hour, convert)
  {
    FullDaysLength(docs, |docs|, convert);
    FullDocument(docs[0], convert);
    FirstDocumentLeads(docs, |docs|, convert);
    assert Extract(docs, convert)[hour] == ExtractDoc(docs[0], convert)[hour];
  }

  /**
   When every retained document is fully priced the run never aborts, and
   the price it reports as current is the clock hour's price in the first
   retained document, narrowed to 32 bits.
   */
  lemma FullDaysPrint(fetched: seq<Prices>, hour: nat, convert: real -> U64)
    requires |fetched| >= 2 && hour < 24
    requires forall j :: 0 <= j < |DropLeading(fetched)| ==> FullDay(DropLeading(fetched)[j])
    ensures Run(fetched, hour, convert).Printed?
    ensures Priced(DropLeading(fetched)[0], hour)
    ensures Run(fetched, hour, convert).lines[0]
            == NowLine(Narrow(PriceAt(DropLeading(fetched)[0], hour, convert)))
  {
    var kept := DropLeading(fetched);
    FullSeries(kept, hour, convert);
    var series := Extract(kept, convert);
    assert PriceSeries(series)[hour] == Narrow(series[hour].1);
  }

  /** A day of prices, in the c/kWh the summary lines print. */
  const SampleDay: seq<U32> :=
    [89, 503, 314, 55, 27, 27, 26, 43, 6, 54, 12, 8, 5, 0, 0, 0, 0, 0, 38, 17, 0, 0, 0, 1]

  /** Of the sample day's eight zero prices, the first, at position 13, is the cheapest. */
  lemma SampleDayCheapest()
    ensures MinByKey(SampleDay) == Some(Pick(13, 0))
  {
    MinByKeyIsFirstMin(SampleDay, 13);
  }

  /** The sample day's single 503, at position 1, is the dearest. */
  lemma SampleDayDearest()
    ensures MaxByKey(SampleDay) == Some(Pick(1, 503))
  {
    MaxByKeyIsLastMax(SampleDay, 1);
  }

  /** The numerals the sample day's summary prints. */
  lemma SampleNumerals()
    ensures Show(0) == "0" && Show(1) == "1" && Show(2) == "2"
    ensures Show(13) == "13" && Show(14) == "14" && Show(54) == "54" && Show(503) == "503"
  {
  }

  /** The three lines printed for the sample day at nine o'clock. */
  lemma SampleDaySummary()
    ensures Report(SampleDay, 9) == Printed([
              "Hinta nyt: 54 c/kWh",
              "Halvin tunti 13-14: 0 c/kWh",
              "Kallein tunti 1-2: 503 c/kWh"])
  {
    SampleDayCheapest();
    SampleDayDearest();
    SampleNumerals();
    assert SampleDay[9] == 54;
    assert NowLine(54) == "Hinta nyt: " + "54" + " c/kWh" == "Hinta nyt: 54 c/kWh";
    assert WindowLabel(13) == "13" + "-" + "14" == "13-14";
    assert WindowLabel(1) == "1" + "-" + "2" == "1-2";
    assert CheapestLine(Pick(13, 0)) == "Halvin tunti " + "13-14" + ": " + "0" + " c/kWh"
           == "Halvin tunti 13-14: 0 c/kWh";
    assert PriciestLine(Pick(1, 503)) == "Kallein tunti " + "1-2" + ": " + "503" + " c/kWh"
           == "Kallein tunti 1-2: 503 c/kWh";
    assert Report(SampleDay, 9)
           == Printed([NowLine(54), CheapestLine(Pick(13, 0)), PriciestLine(Pick(1, 503))]);
  }
}
