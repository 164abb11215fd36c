/**
 The documents of the `prices` collection as src/main.rs decodes them: one
 document per day, keyed by hour slot ("klo 00" .. "klo 23"), each slot
 holding either a year-to-price map or a placeholder integer.
 */
module PriceData {

  import opened Options
  import opened Decimal

  /** Rust's `u64`, `u32`, `i32` and `u8`. */
  type U64 = x: int | 0 <= x < 0x1_0000_0000_0000_0000
  type U32 = x: int | 0 <= x < 0x1_0000_0000
  type I32 = x: int | -0x8000_0000 <= x < 0x8000_0000
  type U8 = x: int | 0 <= x < 0x100

  /** The year whose price the program extracts from each slot. */
  const Year: string := "2025"

  /** The raw bytes of a document's `_id`; the program never reads them. */
  datatype ObjectId = ObjectId(bytes: seq<bv8>)

  /**
   One hour slot: a map from year to fractional price (an `f64`, modelled
   as a real), or a bare integer that carries no price.
   */
  datatype KloValue =
    | Map(byYear: map<string, real>)
    | Int(placeholder: I32)

  /** One decoded document: its optional `_id` and every other field as a slot. */
  datatype Prices = Prices(id: Option<ObjectId>, hours: map<string, KloValue>)

  /** The key of an hour's slot: "klo " and the hour padded to two digits. */
  function SlotKey(hour: U8): string {
    "klo " + ShowPad2(hour)
  }

  /** Distinct hours are looked up under distinct keys. */
  lemma SlotKeyInjective(h1: U8, h2: U8)
    requires SlotKey(h1) == SlotKey(h2)
    ensures h1 == h2
  {
    assert SlotKey(h1)[4..] == ShowPad2(h1);
    assert SlotKey(h2)[4..] == ShowPad2(h2);
    ShowPad2Injective(h1, h2);
  }

  /** Every hour of the day has a four-character-plus-two-digit key. */
  lemma SlotKeyOfDayHour(hour: U8)
    requires hour < 24
    ensures |SlotKey(hour)| == 6
    ensures SlotKey(hour)[..4] == "klo "
    ensures ValueOf(SlotKey(hour)[4..]) == hour
  {
    assert SlotKey(hour)[4..] == ShowPad2(hour);
    ValueOfShowPad2(hour);
  }

  /**
   `get_time_data`: the year-to-price map stored for an hour, present
   exactly when the slot key exists and holds the `Map` variant.
   */
  function GetTimeData(prices: Prices, hour: U8): (r: Option<map<string, real>>)
    ensures r.Some? <==> SlotKey(hour) in prices.hours && prices.hours[SlotKey(hour)].Map?
    ensures r.Some? ==> prices.hours[SlotKey(hour)] == Map(r.value)
  {
    var key := SlotKey(hour);
    if key in prices.hours then
      match prices.hours[key]
      case Map(m) => Some(m)
      case Int(_) => None
    else
      None
  }
}
