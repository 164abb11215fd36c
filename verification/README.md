# cli_sahkonhinta: hourly electricity prices, modelled in Dafny

`cli_sahkonhinta` is a small Rust program. It reads the day's hourly
electricity prices from a MongoDB collection, draws them as a terminal bar
chart, and prints three summary lines. The lines give the current hour's
price, the cheapest one-hour window and the dearest one-hour window. This
project models the program's pure data shaping, all of it in `src/main.rs`:

- **Documents** (`PriceData`). A fetched document is a `Prices` value. It
  holds an optional `_id` and a map from slot key (`"klo 00"` .. `"klo 23"`)
  to a `KloValue`. A `KloValue` is either a year-to-price `Map` or a
  placeholder `Int`. `GetTimeData` looks up one hour's slot.
- **Fetching** (`Fetch`). The first document is dropped. A second one is
  dropped too when more than one remains (`DropLeading`). Each remaining
  document is then flattened, hours 0 to 23 in order, into
  `(two-digit hour label, price in hundredths)` entries. A slot yields an
  entry only when it is a `Map` holding a price for `"2025"`.
  `FetchSeries` is the imperative loop nest. `Extract` is its functional
  counterpart. `PricedSlots` is an independent reference: the list of
  `(document, hour)` slots that carry a price.
- **Summary** (`Summary`). The `u64` prices are narrowed to `u32`. The
  current price is read at the clock hour's index. The cheapest and dearest
  entries are picked with Rust's `min_by_key` and `max_by_key`, each
  modelled as the left fold that `Iterator::reduce` performs. `Report`
  builds the three printed lines, each window labelled `i-(i+1)`.
- **A run** (`Program`). `Run` chains fetching and summary. It ends in
  `Panicked` when the fetch is empty or the series has no entry at the
  clock hour's index. Otherwise it ends in `Printed` with the three lines.

Number formatting (`Decimal`) models Rust's `{}` and `{:02}` for unsigned
integers. A reference parser, used only in proofs, shows that every
formatted number reads back as the number it came from.

Two behaviours of the code are worth spelling out:

- Tie-breaking. `min_by_key` keeps the first of equal minima, while
  `max_by_key` keeps the **last** of equal maxima. `MinByKey`/`IsFirstMin`
  and `MaxByKey`/`IsLastMax` model this, and `TieBreak` shows the two
  selections picking opposite ends of a constant series.
- The window label printed for the cheapest and dearest entry is the
  entry's position in the series, not its hour label. Positions 0..23 are
  hours 00..23 when the first retained document is fully priced
  (`FullSeries`). Positions from 24 on belong to later documents, so a pick
  there prints a window such as `30-31`.

## Model

| member | source | states |
|---|---|---|
| PriceData.GetTimeData | src/main.rs:38-44 | the year map is returned exactly when the hour's slot key is present and holds the `Map` variant, and it is that slot's map; a missing key or an `Int` slot gives None |
| PriceData.SlotKeyInjective | src/main.rs:39 | different hours are looked up under different slot keys |
| PriceData.SlotKeyOfDayHour | src/main.rs:39 | the key of an hour of the day is six characters, starts with "klo " and its last two characters read back as the hour |
| Decimal.Show | src/main.rs:168-171 | the `{}` rendering of a number is a nonempty digit string without a leading zero, one character long exactly for numbers below ten |
| Decimal.ShowPad2 | src/main.rs:84 | the `{:02}` rendering is all digits, at least two long, and exactly two long for numbers below 100 |
| Decimal.ParseShow | src/main.rs:168-171 | reading a `{}`-formatted number back yields the number |
| Decimal.ShowValueOf | src/main.rs:168-171 | every canonical numeral is the `{}` rendering of the value it denotes, so rendering is a bijection onto canonical numerals |
| Decimal.ValueOfShowPad2 | src/main.rs:84 | zero padding does not change the value an hour label denotes |
| Decimal.ShowPad2Injective | src/main.rs:84 | distinct hours get distinct two-digit labels |
| Fetch.DropLeading | src/main.rs:72-76 | one fetched document leaves none, two leave the second, three or more leave all from the third; the result is always a suffix that starts at position 1 or 2 |
| Fetch.ExtractHours | src/main.rs:81-87 | the first n hours of a document yield at most n entries |
| Fetch.Extract | src/main.rs:78-88 | the flattened series has at most 24 entries per retained document |
| Fetch.PricedHours | src/main.rs:81-86 | reference: the priced hours below n are listed strictly ascending, each priced, and every priced hour is listed |
| Fetch.PricedSlots | src/main.rs:80-87 | reference: every listed (document, hour) slot names an existing document, an hour of the day, and a slot that is a `Map` with a 2025 price |
| Fetch.PricedSlotsOrdered | src/main.rs:80-81 | the priced slots are strictly ordered by document first, then hour |
| Fetch.PricedSlotsComplete | src/main.rs:80-85 | every priced slot of the retained documents is listed |
| Fetch.ExtractFollowsSlots | src/main.rs:78-88 | the series lists one entry per priced slot, in slot order, carrying that slot's two-digit hour label and converted 2025 price |
| Fetch.EmittedIff | src/main.rs:82-85 | a document yields an entry labelled with hour h exactly when that slot is a `Map` holding a 2025 price, and that entry carries the converted price |
| Fetch.PlaceholderSkipped | src/main.rs:40-43 | a missing slot or an `Int` placeholder yields no entry for that hour, and the extraction still succeeds |
| Fetch.FullDocument | src/main.rs:81-86 | a document priced in all 24 hours yields exactly 24 consecutive entries labelled "00" through "23", each with its hour's price |
| Fetch.FourDocuments | src/main.rs:72-88 | of four fetched documents only the third and fourth contribute, in that order |
| Fetch.FetchSeries | src/main.rs:72-90 | the two removals followed by the nested document and hour loops produce the series that `Extract` defines on the retained documents |
| Summary.Narrow | src/main.rs:156-159 | the `as u32` cast keeps prices below 2^32 unchanged, never increases a price, and otherwise differs by a multiple of 2^32 |
| Summary.PriceSeries | src/main.rs:156-159 | the price vector has one price per entry, each the entry's price cast to `u32`, so equal to it whenever it fits in 32 bits |
| Summary.ReduceMin | src/main.rs:166 | the fold over the first n prices keeps an index holding the smallest of them, with no earlier index holding it |
| Summary.ReduceMax | src/main.rs:175 | the fold over the first n prices keeps an index holding the largest of them, with no later index holding it |
| Summary.MinByKey | src/main.rs:166-172 | no pick exactly for an empty series; otherwise the pick's price is at most every price and its index is the first one holding that price |
| Summary.MaxByKey | src/main.rs:175-181 | no pick exactly for an empty series; otherwise the pick's price is at least every price and its index is the last one holding that price |
| Summary.MinByKeyIsFirstMin | src/main.rs:166 | whichever index is the first minimum is the one the minimum selection reports |
| Summary.MaxByKeyIsLastMax | src/main.rs:175 | whichever index is the last maximum is the one the maximum selection reports |
| Summary.TieBreak | src/main.rs:166-181 | on a series of equal prices the minimum is position 0 and the maximum the last position |
| Summary.WindowLabel | src/main.rs:168-171 | the window label contains exactly one dash, right after the index's numeral |
| Summary.WindowLabelInjective | src/main.rs:168-171 | different indices are printed with different window labels |
| Summary.WindowLabelParses | src/main.rs:168-171 | the two halves of a window label read back as the index and the index plus one |
| Summary.Report | src/main.rs:161-182 | reading the clock hour aborts exactly when the series is too short; otherwise three lines are printed: the hour's price, the first-minimum window and the last-maximum window |
| Program.Run | src/main.rs:128-182 | an empty fetch panics at the first removal; otherwise the run prints exactly when the clock hour indexes into the extracted series, and then prints three lines |
| Program.SingleDocumentPanics | src/main.rs:72-76 | with a single fetched document nothing is retained, so every run aborts on the current-hour lookup |
| Program.FullDaysLength | src/main.rs:78-88 | fully priced documents yield exactly 24 entries each |
| Program.FullSeries | src/main.rs:80-88 | when every retained document is fully priced, position `hour` of the series holds the first retained document's entry for that hour |
| Program.FullDaysPrint | src/main.rs:156-164 | when every retained document is fully priced the run never aborts, and the current price reported is the clock hour's price in the first retained document, narrowed to 32 bits |
| Program.SampleDayCheapest | src/main.rs:166-172 | in the sample day the cheapest pick is position 13, the first of the zero prices |
| Program.SampleDayDearest | src/main.rs:175-181 | in the sample day the dearest pick is position 1, price 503 |
| Program.SampleDaySummary | src/main.rs:161-182 | at nine o'clock the sample day prints "Hinta nyt: 54 c/kWh", "Halvin tunti 13-14: 0 c/kWh" and "Kallein tunti 1-2: 503 c/kWh" |

## Left out

- The database connection is not modelled. This covers `dotenv`, the `api_key` variable, the connection string, the client and the async cursor loop (src/main.rs:48-70). The fetched documents are an input sequence, and connection or query errors are not modelled.
- Decoding is not modelled: serde's untagged decoding and the logging of documents that fail to decode (src/main.rs:20-36, 66-69). Documents arrive already decoded as `Prices` values, and a document that fails to decode is simply absent from the input.
- The price conversion (src/main.rs:84) is a parameter, `convert: real -> U64`. It multiplies an `f64` by 100 and casts the result to `u64`. Floating-point rounding and the saturating cast are left to whoever supplies `convert`. Prices are reals in the model, not IEEE doubles.
- The clock (src/main.rs:161-162) is a parameter `hour` below 24.
- Terminal rendering is not modelled: the ratatui/crossterm surfaces, the banner and the bar chart (src/main.rs:94-126, 130-154). The chart shows the same series that `Extract` defines.
- The error returns of the terminal code are not modelled: `Terminal::new(..)?` and `terminal.draw(..)?` (src/main.rs:97-98, 112-126, 135-154) can end `main` with an error before any summary line is printed. `Run` models only the two panics.
- The commented-out sample data and banner (src/main.rs:187-228) are left out. That sample data is the same as `Program.SampleDay`.
- Printing is modelled as the list of lines produced. Writing them to standard output is not modelled.
- Fetch.ExtractHours: its own contract gives only the length bound. The full content of a document's entries is stated by `Fetch.ExtractFollowsSlots` and `Fetch.EmittedIff`.
