/** The time-of-day column of a sar row: finding `HH:MM:SS` with an
    optional AM/PM marker, and turning it into an instant on the report's
    current date (`canonicalise_timestamp` in both parsers, and the legacy
    `_ignore_timestamp`). */
module Timestamps {
  import opened Wrappers
  import opened Text
  import opened Calendar

  datatype Meridiem = AM | PM

  datatype TimeError =
    | NoTimestamp      // the text holds no HH:MM:SS (the parsers raise)
    | InvalidDateTime  // `datetime(...)` rejects the fields (ValueError)

  /** `(\d{2}):(\d{2}):(\d{2})` matches at position `i`. */
  predicate TimeAt(s: string, i: nat) {
    i + 8 <= |s|
    && IsDigit(s[i]) && IsDigit(s[i + 1]) && s[i + 2] == ':'
    && IsDigit(s[i + 3]) && IsDigit(s[i + 4]) && s[i + 5] == ':'
    && IsDigit(s[i + 6]) && IsDigit(s[i + 7])
  }

  /** Where `re.search` finds the time: the leftmost match. */
  function FindTime(s: string): (r: Option<nat>)
    ensures r.Some? ==> TimeAt(s, r.value)
    ensures r.Some? ==> forall j: nat :: j < r.value ==> !TimeAt(s, j)
    ensures r.None? <==> forall j: nat :: !TimeAt(s, j)
  {
    FindTimeFrom(s, 0)
  }

  function FindTimeFrom(s: string, from: nat): (r: Option<nat>)
    requires forall j: nat :: j < from ==> !TimeAt(s, j)
    ensures r.Some? ==> TimeAt(s, r.value)
    ensures r.Some? ==> forall j: nat :: j < r.value ==> !TimeAt(s, j)
    ensures r.None? <==> forall j: nat :: !TimeAt(s, j)
    decreases |s| - from
  {
    if from + 8 > |s| then None
    else if TimeAt(s, from) then Some(from)
    else FindTimeFrom(s, from + 1)
  }

  function TwoDigits(s: string, i: nat): (n: nat)
    requires i + 2 <= |s| && IsDigit(s[i]) && IsDigit(s[i + 1])
    ensures n < 100
  {
    10 * DigitValue(s[i]) + DigitValue(s[i + 1])
  }

  /** `\s?(AM|PM)?` after the seconds: one optional whitespace character,
      then the marker if it is there. */
  function MeridiemAfter(s: string, k: nat): Option<Meridiem> {
    var m := if k < |s| && IsSpace(s[k]) then k + 1 else k;
    if m + 2 <= |s| && s[m..m + 2] == "AM" then Some(AM)
    else if m + 2 <= |s| && s[m..m + 2] == "PM" then Some(PM)
    else None
  }

  /** The hour after the 12-hour and the 24:00 corrections. */
  function ClockHour(h: nat, mer: Option<Meridiem>): (r: nat)
    ensures mer == Some(AM) && h == 12 ==> r == 0
    ensures mer == Some(PM) && h < 12 ==> r == (if h == 0 then 12 else h + 12) % 24
    ensures mer == None && h == 24 ==> r == 0
    ensures mer == None && h != 24 ==> r == h
  {
    var h1 := if mer == Some(AM) && h == 12 then 0 else h;
    var h2 := if mer == Some(PM) && h1 < 12 then h1 + 12 else h1;
    if h2 == 24 then 0 else h2
  }

  /** `canonicalise_timestamp(date, ts)`. */
  function Canonicalise(date: Date, ts: string): (r: Result<Instant, TimeError>)
    ensures r == Err(NoTimestamp) <==> FindTime(ts).None?
    ensures r.Ok? ==> ValidInstant(r.value) && r.value.date == date
  {
    match FindTime(ts)
    case None => Err(NoTimestamp)
    case Some(i) =>
      var t := Instant(date, ClockHour(TwoDigits(ts, i), MeridiemAfter(ts, i + 8)),
                       TwoDigits(ts, i + 3), TwoDigits(ts, i + 6));
      if ValidInstant(t) then Ok(t) else Err(InvalidDateTime)
  }

  /** A time of day that reads on one valid date reads on any other: the
      second reading after a midnight rollover cannot fail, and it gives
      the same time on the new date. */
  lemma CanonicaliseOnAnyDate(d1: Date, d2: Date, ts: string)
    requires Canonicalise(d1, ts).Ok? && ValidDate(d2)
    ensures Canonicalise(d2, ts) == Ok(Canonicalise(d1, ts).value.(date := d2))
  {
    var i := FindTime(ts).value;
    var t1 := Instant(d1, ClockHour(TwoDigits(ts, i), MeridiemAfter(ts, i + 8)),
                      TwoDigits(ts, i + 3), TwoDigits(ts, i + 6));
    assert ValidInstant(t1);
    assert ValidInstant(t1.(date := d2));
  }

  /** The fields of the instant are the ones read from the leftmost time;
      only the hour is adjusted. */
  lemma CanonicaliseFields(date: Date, ts: string)
    requires Canonicalise(date, ts).Ok?
    ensures var i := FindTime(ts).value;
      var t := Canonicalise(date, ts).value;
      t.minute == TwoDigits(ts, i + 3) && t.second == TwoDigits(ts, i + 6)
      && t.hour == ClockHour(TwoDigits(ts, i), MeridiemAfter(ts, i + 8))
  {
  }

  /** Midnight and noon in 12-hour notation: "12:MM:SS AM" is hour 0,
      "HH:MM:SS PM" with HH < 12 is HH + 12. */
  lemma TwelveHourRules(date: Date, ts: string)
    requires Canonicalise(date, ts).Ok?
    ensures var i := FindTime(ts).value;
      var h := TwoDigits(ts, i);
      var mer := MeridiemAfter(ts, i + 8);
      (mer == Some(AM) && h == 12 ==> Canonicalise(date, ts).value.hour == 0)
      && (mer == Some(PM) && 1 <= h < 12 ==> Canonicalise(date, ts).value.hour == h + 12)
      && (mer == None && h == 24 ==> Canonicalise(date, ts).value.hour == 0)
  {
  }

  /** `_ignore_timestamp(ts)` of the legacy parser: the seconds field is
      not a multiple of 60. */
  function IgnoreTimestamp(ts: string): (r: Result<bool, TimeError>)
    ensures r.Err? <==> FindTime(ts).None?
    ensures r.Ok? ==> (r.value <==> TwoDigits(ts, FindTime(ts).value + 6) !in {0, 60})
  {
    match FindTime(ts)
    case None => Err(NoTimestamp)
    case Some(i) => Ok(TwoDigits(ts, i + 6) % 60 != 0)
  }
}
