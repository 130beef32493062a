/**
  The console's `ValueFormatter`: it turns attribute values of Simons
  (counters, stopwatches) into text. Values that only mark "nothing observed
  yet" (the MIN_VALUE / MAX_VALUE sentinels, negative durations, timestamps
  that are not positive, nulls, number types it does not know) all become
  the empty text of `FormatNull`.

  The two library formatters the class delegates to, `TimeFormatType.format`
  and `DateFormat.format`, are not modelled: they are function values here,
  and every property below holds whatever they compute. The methods a
  subclass may override for other export formats are their base-class bodies.
 */
module Console {
  import opened JavaLang
  import Decimal

  /** What the floating-point code needs of a Float or Double: its
      `toString` and whether it compares equal to one of the marker values
      MIN_VALUE, MAX_VALUE or an infinity. */
  datatype FloatingValue = FloatingValue(text: string, isMarker: bool)

  /** A `java.lang.Number` reference, split by its runtime class. */
  datatype Number =
    | NNull
    | NInt(i: Int32)
    | NLong(l: Int64)
    | NFloat(f: FloatingValue)
    | NDouble(d: FloatingValue)
    | NOther(text: string)

  /** A `java.lang.Object` reference for `formatObject`; `toStringResult` is
      what the object's own `toString` returns, which Java allows to be null. */
  datatype Object = ONull | OString(s: string) | OOther(toStringResult: Nullable<string>)

  /** `TimeFormatType`: only the PRESENT constant is treated specially. */
  datatype TimeFormatType = Present | Unit(name: string)

  /** `java.util.Date`, an instant in milliseconds since the epoch. */
  datatype Date = Date(millis: int)

  /** `TimeFormatType.format(long)`: code outside this model. */
  type TimeFormatting = (TimeFormatType, Int64) -> Nullable<string>

  /** A `java.text.DateFormat`: code outside this model. */
  type DateFormat = Date -> Nullable<string>

  /** The two settable fields of a formatter. */
  datatype ValueFormatter = ValueFormatter(timeFormat: TimeFormatType, dateFormat: DateFormat)

  /** The time format a new formatter starts with. */
  const DefaultTimeFormat: TimeFormatType := Unit("MILLISECOND")

  /** A new formatter: MILLISECOND durations and the given date format, which
      stands for the default `SimpleDateFormat` pattern. */
  function DefaultFormatter(dateFormat: DateFormat): (vf: ValueFormatter)
    ensures vf.timeFormat == DefaultTimeFormat && vf.timeFormat != Present
    ensures vf.dateFormat == dateFormat
  {
    ValueFormatter(DefaultTimeFormat, dateFormat)
  }

  function FormatNull(): (r: string)
    ensures |r| == 0
  {
    ""
  }

  function FormatString(s: Nullable<string>): (r: string)
    ensures s.Ref? ==> r == s.value
    ensures s.Null? ==> r == FormatNull()
    ensures r == "" <==> s.Null? || s.value == ""
  {
    if s.Null? then FormatNull() else s.value
  }

  /** `formatEnum`: the constant's `name()`, or the empty text for null. */
  function FormatEnum<T>(t: Nullable<T>, name: T -> string): (r: string)
    ensures t.Null? ==> r == ""
    ensures t.Ref? ==> r == name(t.value)
  {
    FormatString(if t.Null? then Null else Ref(name(t.value)))
  }

  /** The protected `formatNumber(String)` overload. */
  function FormatNumberText(s: Nullable<string>): (r: string)
    ensures r == FormatString(s)
  {
    if s.Null? then FormatNull() else s.value
  }

  predicate IsIntegerSentinel(i: Int32) {
    i == IntegerMinValue || i == IntegerMaxValue
  }

  predicate IsLongSentinel(l: Int64) {
    l == LongMinValue || l == LongMaxValue
  }

  /** `isValidNumber`: false for null, the sentinels and unknown classes. */
  function IsValidNumber(n: Number): (valid: bool)
    ensures valid ==> !n.NNull? && !n.NOther?
    ensures n.NInt? ==> (valid <==> n.i != IntegerMinValue && n.i != IntegerMaxValue)
    ensures n.NLong? ==> (valid <==> n.l != LongMinValue && n.l != LongMaxValue)
  {
    match n
    case NNull => false
    case NInt(i) => !IsIntegerSentinel(i)
    case NLong(l) => !IsLongSentinel(l)
    case NFloat(f) => !f.isMarker
    case NDouble(d) => !d.isMarker
    case NOther(_) => false
  }

  /** `n.toString()` for a non-null number. */
  function NumberText(n: Number): (text: string)
    requires !n.NNull?
    ensures n.NInt? ==> Decimal.IsCanonicalText(text) && Decimal.ParseDecimal(text) == n.i as int
    ensures n.NLong? ==> Decimal.IsCanonicalText(text) && Decimal.ParseDecimal(text) == n.l as int
  {
    match n
    case NInt(i) => Decimal.DecimalRoundTrip(i as int); Decimal.DecimalText(i as int)
    case NLong(l) => Decimal.DecimalRoundTrip(l as int); Decimal.DecimalText(l as int)
    case NFloat(f) => f.text
    case NDouble(d) => d.text
    case NOther(text) => text
  }

  /** The public `formatNumber(Number)`. */
  function FormatNumber(n: Number): (r: string)
    ensures n.NInt? ==> (r == "" <==> IsIntegerSentinel(n.i))
    ensures n.NInt? && !IsIntegerSentinel(n.i) ==> r == Decimal.DecimalText(n.i as int)
    ensures n.NLong? ==> (r == "" <==> IsLongSentinel(n.l))
    ensures n.NLong? && !IsLongSentinel(n.l) ==> r == Decimal.DecimalText(n.l as int)
    ensures n.NNull? || n.NOther? ==> r == ""
    ensures (n.NFloat? || n.NDouble?) && IsValidNumber(n) ==> r == NumberText(n)
    ensures !IsValidNumber(n) ==> r == ""
  {
    FormatNumberText(if IsValidNumber(n) then Ref(NumberText(n)) else Null)
  }

  /** `postFormatTime`: PRESENT goes through `formatString`, every other
      format through `formatNumber(String)`; with the base-class bodies of
      those two, both give the same text. */
  function PostFormatTime(timeFormat: TimeFormatType, s: Nullable<string>): (r: string)
    ensures s.Null? ==> r == ""
    ensures s.Ref? ==> r == s.value
  {
    if timeFormat == Present then FormatString(s) else FormatNumberText(s)
  }

  /** A boxed `Long` seen as a `Number`. */
  function BoxLong(l: Nullable<Int64>): Number {
    if l.Null? then NNull else NLong(l.value)
  }

  /** `formatTime(Long)`: a duration, filtered for sentinels and negatives. */
  function FormatTime(vf: ValueFormatter, timeText: TimeFormatting, l: Nullable<Int64>): (r: string)
    ensures l.Null? ==> r == ""
    ensures l.Ref? && (IsLongSentinel(l.value) || l.value < 0) ==> r == ""
    ensures l.Ref? && !IsLongSentinel(l.value) && 0 <= l.value ==>
              r == FormatString(timeText(vf.timeFormat, l.value))
  {
    var s := if IsValidNumber(BoxLong(l)) && l.value >= 0 then timeText(vf.timeFormat, l.value) else Null;
    PostFormatTime(vf.timeFormat, s)
  }

  /** `formatDate(Date)`. */
  function FormatDate(vf: ValueFormatter, d: Nullable<Date>): (r: string)
    ensures d.Null? ==> r == ""
    ensures d.Ref? ==> r == FormatString(vf.dateFormat(d.value))
  {
    FormatString(if d.Null? then Null else vf.dateFormat(d.value))
  }

  /** `formatDate(Long)`: a timestamp in milliseconds; only null and values
      that are not positive are filtered. */
  function FormatTimestamp(vf: ValueFormatter, l: Nullable<Int64>): (r: string)
    ensures l.Null? || l.value <= 0 ==> r == ""
    ensures l.Ref? && 0 < l.value ==> r == FormatString(vf.dateFormat(Date(l.value as int)))
  {
    FormatDate(vf, if l.Null? || l.value <= 0 then Null else Ref(Date(l.value as int)))
  }

  /** `formatObject`: its result is the object's `toString` for anything that
      is neither null nor a String, so it can be null like that `toString`. */
  function FormatObject(o: Object): (r: Nullable<string>)
    ensures o.ONull? ==> r == Ref("")
    ensures o.OString? ==> r == Ref(o.s)
    ensures o.OOther? ==> r == o.toStringResult
  {
    match o
    case ONull => Ref(FormatNull())
    case OString(s) => Ref(s)
    case OOther(t) => t
  }

  /** A String reference seen as an Object. */
  function StringObject(s: Nullable<string>): Object {
    if s.Null? then ONull else OString(s.value)
  }

  // ---------------------------------------------------------------------
  // Properties relating the operations to each other
  // ---------------------------------------------------------------------

  /** On a String, `formatObject` and `formatString` agree. */
  lemma FormatObjectOnStrings(s: Nullable<string>)
    ensures FormatObject(StringObject(s)) == Ref(FormatString(s))
  {
  }

  /** The exact partition of `formatNumber`: a valid number is printed by its
      `toString`, everything else is the empty text; and apart from the
      floating-point classes, whose text is not modelled, the empty text
      means the number was rejected. */
  lemma FormatNumberPartition(n: Number)
    ensures IsValidNumber(n) ==> FormatNumber(n) == NumberText(n)
    ensures !IsValidNumber(n) ==> FormatNumber(n) == ""
    ensures !n.NFloat? && !n.NDouble? ==> (FormatNumber(n) == "" <==> !IsValidNumber(n))
  {
    if n.NInt? || n.NLong? {
      assert IsValidNumber(n) ==> FormatNumber(n) == NumberText(n);
    }
  }

  /** Printing a valid integer or long and parsing the text back gives the
      number: the console never shows a number other than the one it got. */
  lemma FormatNumberRoundTrip(n: Number)
    requires n.NInt? || n.NLong?
    requires IsValidNumber(n)
    ensures Decimal.IsCanonicalText(FormatNumber(n))
    ensures Decimal.ParseDecimal(FormatNumber(n)) == if n.NInt? then n.i as int else n.l as int
  {
    Decimal.DecimalRoundTrip(if n.NInt? then n.i as int else n.l as int);
  }

  /** With the base-class `formatString` and `formatNumber(String)`, both
      branches of `postFormatTime` behave the same, so the configured time
      format only matters through `TimeFormatType.format` itself. */
  lemma PostFormatTimeIgnoresFormat(a: TimeFormatType, b: TimeFormatType, s: Nullable<string>)
    ensures PostFormatTime(a, s) == PostFormatTime(b, s)
  {
  }

  /** `formatTime(Long)` is empty exactly when the duration is rejected or
      when the time formatter itself yields null or empty text. */
  lemma FormatTimeEmptyIff(vf: ValueFormatter, timeText: TimeFormatting, l: Nullable<Int64>)
    ensures FormatTime(vf, timeText, l) == "" <==>
              l.Null? || IsLongSentinel(l.value) || l.value < 0
              || timeText(vf.timeFormat, l.value) == Null
              || timeText(vf.timeFormat, l.value) == Ref("")
  {
  }

  /** `formatEnum` is empty exactly for a null constant or an empty name. */
  lemma FormatEnumEmptyIff<T>(t: Nullable<T>, name: T -> string)
    ensures FormatEnum(t, name) == "" <==> t.Null? || name(t.value) == ""
  {
  }

  /** `formatDate(Date)` is empty exactly for a null date or when the date
      formatter yields null or empty text. */
  lemma FormatDateEmptyIff(vf: ValueFormatter, d: Nullable<Date>)
    ensures FormatDate(vf, d) == "" <==>
              d.Null? || vf.dateFormat(d.value) == Null || vf.dateFormat(d.value) == Ref("")
  {
  }

  /** `formatDate(Long)` is `formatDate(Date)` on the instant of a positive
      timestamp, and is empty exactly when the timestamp is null or not
      positive or when the date formatter yields null or empty text. */
  lemma FormatTimestampEmptyIff(vf: ValueFormatter, l: Nullable<Int64>)
    ensures l.Ref? && 0 < l.value ==> FormatTimestamp(vf, l) == FormatDate(vf, Ref(Date(l.value as int)))
    ensures FormatTimestamp(vf, l) == "" <==>
              l.Null? || l.value <= 0
              || vf.dateFormat(Date(l.value as int)) == Null
              || vf.dateFormat(Date(l.value as int)) == Ref("")
  {
  }

  /** A new formatter prints a valid duration in milliseconds through the
      non-PRESENT branch of `postFormatTime`. */
  lemma DefaultFormatterTime(dateFormat: DateFormat, timeText: TimeFormatting, l: Nullable<Int64>)
    ensures IsValidNumber(BoxLong(l)) && 0 <= l.value ==>
              FormatTime(DefaultFormatter(dateFormat), timeText, l)
              == FormatNumberText(timeText(Unit("MILLISECOND"), l.value))
  {
  }

  /** Long.MAX_VALUE is filtered as a duration but not as a timestamp. */
  lemma MaxLongTimeAndTimestamp(vf: ValueFormatter, timeText: TimeFormatting)
    ensures FormatTime(vf, timeText, Ref(LongMaxValue)) == ""
    ensures FormatTimestamp(vf, Ref(LongMaxValue)) == FormatString(vf.dateFormat(Date(LongMaxValue as int)))
  {
  }
}
