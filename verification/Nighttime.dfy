/** Whether a moment lies in a daily interval that may run past midnight. */
module Nighttime {
  import opened Wrappers

  /** Milliseconds in a day. Moments are counted from the start of today. */
  const DAY := 86400000

  /** Hours 0-23 with an optional leading zero, a colon, minutes 00-59. */
  predicate IsHourTime(text: string) {
    || (|text| == 5 && IsHour(text[..2]) && text[2] == ':' && IsMinute(text[3..]))
    || (|text| == 4 && IsHour(text[..1]) && text[1] == ':' && IsMinute(text[2..]))
  }

  predicate IsHour(text: string) {
    || (|text| == 1 && '0' <= text[0] <= '9')
    || (|text| == 2 && '0' <= text[0] <= '1' && '0' <= text[1] <= '9')
    || (|text| == 2 && text[0] == '2' && '0' <= text[1] <= '3')
  }

  predicate IsMinute(text: string) {
    |text| == 2 && '0' <= text[0] <= '5' && '0' <= text[1] <= '9'
  }

  /** An empty text is accepted as no time at all. */
  predicate ValidateHourTimeFormat(text: string) {
    text == "" || IsHourTime(text)
  }

  function Digit(d: nat): string
    requires d < 10
  {
    [('0' as int + d) as char]
  }

  /** An hour of one digit may be written with or without a zero before it. */
  predicate Writes(text: string, h: nat, m: nat) {
    && h < 24 && m < 60
    && var minutes := Digit(m / 10) + Digit(m % 10);
       || text == Digit(h / 10) + Digit(h % 10) + ":" + minutes
       || (h < 10 && text == Digit(h) + ":" + minutes)
  }

  lemma WritingIsWellFormed(text: string, h: nat, m: nat)
    requires Writes(text, h, m)
    ensures IsHourTime(text)
  {
    var minutes := Digit(m / 10) + Digit(m % 10);
    if text == Digit(h / 10) + Digit(h % 10) + ":" + minutes {
      assert text[..2] == Digit(h / 10) + Digit(h % 10) && text[3..] == minutes;
    } else {
      assert text == Digit(h) + ":" + minutes;
      assert text[..1] == Digit(h) && text[2..] == minutes;
    }
  }

  lemma HourOf(text: string) returns (h: nat)
    requires IsHour(text)
    ensures h < 24
    ensures |text| == 1 ==> h < 10 && text == Digit(h)
    ensures |text| != 1 ==> text == Digit(h / 10) + Digit(h % 10)
  {
    h := if |text| == 1 then text[0] as int - 48 else 10 * (text[0] as int - 48) + (text[1] as int - 48);
  }

  lemma MinuteOf(text: string) returns (m: nat)
    requires IsMinute(text)
    ensures m < 60 && text == Digit(m / 10) + Digit(m % 10)
  {
    m := 10 * (text[0] as int - 48) + (text[1] as int - 48);
  }

  lemma TimeOf(text: string) returns (h: nat, m: nat)
    requires IsHourTime(text)
    ensures Writes(text, h, m)
  {
    var cut := |text| - 3;
    h := HourOf(text[..cut]);
    m := MinuteOf(text[cut + 1..]);
    hide IsHour, IsMinute;
    assert text == text[..cut] + ":" + text[cut + 1..];
  }

  /** The format is that of the times of a day, 00:00 to 23:59. */
  lemma WellFormedExactly(text: string)
    ensures IsHourTime(text) <==> exists h: nat, m: nat :: Writes(text, h, m)
  {
    if IsHourTime(text) { var h, m := TimeOf(text); }
    if h: nat, m: nat :| Writes(text, h, m) { WritingIsWellFormed(text, h, m); }
  }

  /** How far `end` lies ahead of `start`, going forward; midnight may be given as the end of the day. */
  function Span(start: int, end: int): int {
    if start <= end then end - start else end + DAY - start
  }

  /** Going forward from `start`, is `base` met before `end`? Nothing is, when they are equal. */
  predicate OnArc(start: int, end: int, base: int) {
    (base - start) % DAY < Span(start, end)
  }

  /** Within the day the span is the circular distance. */
  lemma SpanIsCircular(start: int, end: int)
    requires 0 <= start < DAY && 0 <= end < DAY
    ensures Span(start, end) == (end - start) % DAY
  {
  }

  /**
   * The arithmetic of both interval tests: start and end are today's moments, the base any moment. Both ends are
   * shifted by a day at most. The answer is circular membership for a base less than a day away from the start.
   */
  method IsBetweenShifted(start: int, end: int, base: int) returns (inside: bool)
    requires 0 <= start <= DAY && 0 <= end <= DAY
    ensures inside <==> start - DAY <= base < start + DAY && OnArc(start, end, base)
    ensures 0 <= base < DAY ==> (inside <==> OnArc(start, end, base))
  {
    var s, e := start, end;
    if s > e { e := e + DAY; }
    if base < s { s, e := s - DAY, e - DAY; }
    inside := s <= base < e;
    if start - DAY <= base < start + DAY { ArcByShifts(start, base); }
  }

  lemma ArcByShifts(start: int, base: int)
    requires 0 <= start <= DAY && start - DAY <= base < start + DAY
    ensures (base - start) % DAY == if start <= base then base - start else base + DAY - start
  {
  }

  /** Reads a time of day, if the text can be read as one; 24:00 is the end of the day. */
  ghost predicate ReadsTimes(read: string -> Option<int>) {
    && (forall text: string :: read(text).Some? ==> 0 <= read(text).value <= DAY)
    && (forall text: string :: IsHourTime(text) ==> read(text).Some? && read(text).value < DAY)
    && read("24:00") == Some(DAY)
  }

  /** A limit has a night if both its texts are well-formed times. */
  predicate HasNighttime(startText: string, endText: string) {
    startText != "" && endText != "" && ValidateHourTimeFormat(startText) && ValidateHourTimeFormat(endText)
  }

  /** The test of the limit entity, for a base moment of any day. */
  method LimitIsInNighttimeInterval(startText: string, endText: string, read: string -> Option<int>, base: int)
    returns (inside: bool)
    requires ReadsTimes(read)
    ensures inside <==>
      HasNighttime(startText, endText)
      && var start := read(startText).value;
         start - DAY <= base < start + DAY && OnArc(start, read(endText).value, base)
  {
    if startText == "" || endText == "" || !ValidateHourTimeFormat(startText) || !ValidateHourTimeFormat(endText) {
      return false;
    }
    inside := IsBetweenShifted(read(startText).value, read(endText).value, base);
  }

  /**
   * The tracker script's test, called only with two texts. Its guard gives up exactly when both are well-formed
   * times, so a limit with regular night times never counts. A text that cannot be read compares as false with
   * everything.
   */
  method IsInNighttimeInterval(startText: string, endText: string, read: string -> Option<int>, now: int)
    returns (inside: bool)
    requires startText != "" && endText != "" && ReadsTimes(read) && 0 <= now < DAY
    ensures inside <==>
      !(IsHourTime(startText) && IsHourTime(endText))
      && read(startText).Some? && read(endText).Some?
      && OnArc(read(startText).value, read(endText).value, now)
  {
    if ValidateHourTimeFormat(startText) && ValidateHourTimeFormat(endText) { return false; }
    var start, end := read(startText), read(endText);
    if start.None? || end.None? { return false; }
    inside := IsBetweenShifted(start.value, end.value, now);
  }

  /** A night from 00:00 to 24:00 is the whole day, and its end is no well-formed time; from 00:00 to 00:00 is none. */
  lemma NightFromMidnightToMidnight(now: int)
    requires 0 <= now < DAY
    ensures !IsHourTime("24:00") && OnArc(0, DAY, now) && !OnArc(0, 0, now)
  {
    assert "24:00"[..2] == "24" && "24"[1] == '4';
    ArcByShifts(0, now);
  }

  /** An interval and the interval from its end to its start split the day between them. */
  lemma ComplementaryArcs(start: int, end: int, base: int)
    requires 0 <= start <= DAY && 0 <= end <= DAY && start != end
    ensures OnArc(start, end, base) <==> !OnArc(end, start, base)
  {
    ShiftedRemainder(base, start, end);
  }

  lemma ShiftedRemainder(base: int, start: int, end: int)
    requires 0 <= start <= DAY && 0 <= end <= DAY
    ensures var a, c := (base - start) % DAY, Span(start, end);
      (base - end) % DAY == if a >= c then a - c else a - c + DAY
  {
    var a, c := (base - start) % DAY, Span(start, end);
    var q := (base - start) / DAY;
    assert base - start == DAY * q + a;
    var d := if start <= end then 0 else 1;
    assert base - end == DAY * (q + d) + (a - c);
    if a >= c {
      if a - c < DAY { assert (base - end) % DAY == a - c; }
    } else {
      assert base - end == DAY * (q + d - 1) + (a - c + DAY);
    }
  }
}
