/**
 * `datetime.strptime(s, "%d/%m/%Y %H:%M")` followed by `.strftime("%Y-%m-%d %H:%M:%S")`.
 *
 * strptime turns its format into a regular expression: `%d` is `3[01]|[12]\d|0[1-9]|[1-9]| [1-9]`,
 * `%m` is `1[0-2]|0[1-9]|[1-9]`, `%Y` is four digits, `%H` is `2[0-3]|[0-1]\d|\d`, `%M` is
 * `[0-5]\d|\d`, the space becomes `\s+`, and the whole text must be consumed. The parsed
 * fields must then form a real date (year 1 at least, a day that exists in its month).
 */
module Timestamps {

  import opened Wrappers
  import opened Text
  import opened Decimal

  datatype DateTime = DateTime(year: int, month: int, day: int, hour: int, minute: int)

  predicate IsLeapYear(y: int) {
    y % 4 == 0 && (y % 100 != 0 || y % 400 == 0)
  }

  function DaysInMonth(y: int, m: int): int
    requires 1 <= m <= 12
  {
    if m == 2 then (if IsLeapYear(y) then 29 else 28)
    else if m == 4 || m == 6 || m == 9 || m == 11 then 30
    else 31
  }

  /** What `datetime(...)` accepts. */
  predicate Valid(dt: DateTime) {
    && 1 <= dt.year <= 9999
    && 1 <= dt.month <= 12
    && 1 <= dt.day <= DaysInMonth(dt.year, dt.month)
    && 0 <= dt.hour <= 23
    && 0 <= dt.minute <= 59
  }

  /** A one- or two-digit field: one digit at least `low`, or two digits between `low` and `high`. */
  function NumberField(t: string, low: nat, high: nat): Option<int> {
    if |t| == 1 && IsDigit(t[0]) && DigitsValue(t) >= low then Some(DigitsValue(t))
    else if |t| == 2 && AllDigits(t) && low <= DigitsValue(t) <= high then Some(DigitsValue(t))
    else None
  }

  /** `%d`, which also takes a space followed by one non-zero digit. */
  function DayField(t: string): Option<int> {
    if |t| == 2 && t[0] == ' ' && '1' <= t[1] <= '9' then Some((t[1] - '0') as int)
    else NumberField(t, 1, 31)
  }

  /** `strptime(s, "%d/%m/%Y %H:%M")`; None where it raises ValueError. The day and the
      month cannot contain `/`, so the first two slashes end them. */
  function ParseSource(s: string): (r: Option<DateTime>)
    ensures r.Some? ==> Valid(r.value)
  {
    match Find(s, '/')
    case None => None
    case Some(i) => ParseAfterDay(s[..i], s[i + 1..])
  }

  function ParseAfterDay(dayText: string, rest: string): (r: Option<DateTime>)
    ensures r.Some? ==> Valid(r.value)
  {
    match Find(rest, '/')
    case None => None
    case Some(j) => ParseAfterMonth(dayText, rest[..j], rest[j + 1..])
  }

  function ParseAfterMonth(dayText: string, monthText: string, rest: string): (r: Option<DateTime>)
    ensures r.Some? ==> Valid(r.value)
  {
    if |rest| < 4 || !AllDigits(rest[..4]) then None
    else ParseClock(dayText, monthText, rest[..4], rest[4..])
  }

  /** `\s+%H:%M` after the year; the hour cannot contain `:`, so the first colon ends it. */
  function ParseClock(dayText: string, monthText: string, yearText: string, rest: string): (r: Option<DateTime>)
    requires AllDigits(yearText)
    ensures r.Some? ==> Valid(r.value)
  {
    var clock := TrimLeft(rest);
    if |clock| == |rest| then None   // `\s+` needs one whitespace character at least
    else
      match Find(clock, ':')
      case None => None
      case Some(k) => Assemble(dayText, monthText, yearText, clock[..k], clock[k + 1..])
  }

  /** The fields, each matched against its own pattern, then the calendar check. */
  function Assemble(dayText: string, monthText: string, yearText: string, hourText: string, minuteText: string)
    : (r: Option<DateTime>)
    requires AllDigits(yearText)
    ensures r.Some? ==> Valid(r.value)
  {
    var day, month := DayField(dayText), NumberField(monthText, 1, 12);
    var hour, minute := NumberField(hourText, 0, 23), NumberField(minuteText, 0, 59);
    if day.None? || month.None? || hour.None? || minute.None? then None
    else
      var dt := DateTime(DigitsValue(yearText), month.value, day.value, hour.value, minute.value);
      if Valid(dt) then Some(dt) else None
  }

  /** `n` written with exactly `width` digits, zero-padded on the left. */
  function Digits(n: nat, width: nat): (r: string)
    ensures |r| == width && AllDigits(r)
  {
    if width == 0 then "" else Digits(n / 10, width - 1) + [('0' as int + n % 10) as char]
  }

  /** `strftime("%Y-%m-%d %H:%M:%S")`; strptime leaves the seconds at zero. */
  function FormatIso(dt: DateTime): string
    requires Valid(dt)
  {
    Digits(dt.year, 4) + "-" + Digits(dt.month, 2) + "-" + Digits(dt.day, 2) + " "
      + Digits(dt.hour, 2) + ":" + Digits(dt.minute, 2) + ":00"
  }

  /** The source format, zero-padded: the text ParseSource reads back. */
  function FormatSource(dt: DateTime): string
    requires 0 <= dt.year && 0 <= dt.month && 0 <= dt.day && 0 <= dt.hour && 0 <= dt.minute
  {
    Digits(dt.day, 2) + "/" + Digits(dt.month, 2) + "/" + Digits(dt.year, 4) + " "
      + Digits(dt.hour, 2) + ":" + Digits(dt.minute, 2)
  }

  /** The timestamp rewrite of the transformer: None where strptime raises. */
  function Reformat(s: string): Option<string> {
    match ParseSource(s)
    case None => None
    case Some(dt) => Some(FormatIso(dt))
  }

  // ---------------------------------------------------------------- lemmas

  lemma {:induction false} DigitsValueOf(n: nat, width: nat)
    requires n < Pow10(width)
    ensures DigitsValue(Digits(n, width)) == n
  {
    if width > 0 {
      var front := Digits(n / 10, width - 1);
      DigitsValueOf(n / 10, width - 1);
      var r := Digits(n, width);
      assert r[..|r| - 1] == front;
    }
  }

  /** The fields of a date whose every field fits the source format's digit patterns. */
  predicate FieldsInRange(dt: DateTime) {
    && 0 <= dt.year <= 9999 && 1 <= dt.month <= 12 && 1 <= dt.day <= 31
    && 0 <= dt.hour <= 23 && 0 <= dt.minute <= 59
  }

  lemma NumberFieldOfDigits(n: nat, low: nat, high: nat)
    requires low <= n <= high < 100
    ensures NumberField(Digits(n, 2), low, high) == Some(n)
  {
    DigitsValueOf(n, 2);
  }

  lemma LeadingSpaceDropped(t: string)
    requires |t| > 0 && IsSpace(t[0]) && (|t| == 1 || !IsSpace(t[1]))
    ensures TrimLeft(t) == t[1..]
  {
  }

  lemma AssembleDigits(dt: DateTime)
    requires FieldsInRange(dt)
    ensures Assemble(Digits(dt.day, 2), Digits(dt.month, 2), Digits(dt.year, 4), Digits(dt.hour, 2), Digits(dt.minute, 2))
            == if Valid(dt) then Some(dt) else None
  {
    DigitsValueOf(dt.year, 4);
    NumberFieldOfDigits(dt.day, 1, 31);
    NumberFieldOfDigits(dt.month, 1, 12);
    NumberFieldOfDigits(dt.hour, 0, 23);
    NumberFieldOfDigits(dt.minute, 0, 59);
    assert Digits(dt.day, 2)[0] != ' ';
  }

  lemma ClockOfDigits(dayText: string, monthText: string, yearText: string, h: string, mi: string)
    requires AllDigits(yearText) && AllDigits(h) && |h| == 2
    ensures ParseClock(dayText, monthText, yearText, " " + h + ":" + mi)
            == Assemble(dayText, monthText, yearText, h, mi)
  {
    var clock := h + ":" + mi;
    assert " " + h + ":" + mi == " " + clock;
    assert (" " + clock)[1..] == clock;
    assert IsDigit(clock[0]);
    LeadingSpaceDropped(" " + clock);
    assert clock == h + (":" + mi);
    FindAfterDigits(h, ":" + mi, ':');
    assert clock[..2] == h && clock[3..] == mi;
  }

  lemma AfterMonthOfDigits(dayText: string, monthText: string, y: string, rest: string)
    requires AllDigits(y) && |y| == 4
    ensures ParseAfterMonth(dayText, monthText, y + rest) == ParseClock(dayText, monthText, y, rest)
  {
    assert (y + rest)[..4] == y && (y + rest)[4..] == rest;
  }

  lemma SplitAtSlash(a: string, rest: string)
    requires AllDigits(a) && |a| == 2
    ensures Find(a + "/" + rest, '/') == Some(2)
    ensures (a + "/" + rest)[..2] == a && (a + "/" + rest)[3..] == rest
  {
    assert a + "/" + rest == a + ("/" + rest);
    FindAfterDigits(a, "/" + rest, '/');
  }

  /** The source-format text of a date is read back as that date when the calendar allows
      it, and refused when it does not (the 31st of April, the 29th of February of 2023). */
  lemma SourceRoundTrip(dt: DateTime)
    requires FieldsInRange(dt)
    ensures ParseSource(FormatSource(dt)) == if Valid(dt) then Some(dt) else None
  {
    var d, m, y := Digits(dt.day, 2), Digits(dt.month, 2), Digits(dt.year, 4);
    var h, mi := Digits(dt.hour, 2), Digits(dt.minute, 2);
    var clockPart := " " + h + ":" + mi;
    var afterMonth := y + clockPart;
    var afterDay := m + "/" + afterMonth;
    assert FormatSource(dt) == d + "/" + afterDay;
    SplitAtSlash(d, afterDay);
    SplitAtSlash(m, afterMonth);
    AfterMonthOfDigits(d, m, y, clockPart);
    ClockOfDigits(d, m, y, h, mi);
    AssembleDigits(dt);
  }

  /** A text of the source format's shape: day, `/`, month, `/`, year, whitespace, hour, `:`,
      minute. */
  function SourceText(d: string, m: string, y: string, w: string, h: string, mi: string): string {
    d + "/" + m + "/" + y + w + h + ":" + mi
  }

  /** Each piece of such a text matches its own directive: `%d`, `%m`, four-digit `%Y`, the
      `\s+` the space of the format becomes, `%H` and `%M`. */
  predicate PiecesMatch(d: string, m: string, y: string, w: string, h: string, mi: string) {
    && DayField(d).Some? && NumberField(m, 1, 12).Some?
    && |y| == 4 && AllDigits(y)
    && |w| > 0 && AllSpace(w)
    && NumberField(h, 0, 23).Some? && NumberField(mi, 0, 59).Some?
  }

  /** The date the pieces spell, before the calendar check. */
  function Spelled(d: string, m: string, y: string, h: string, mi: string): DateTime
    requires DayField(d).Some? && NumberField(m, 1, 12).Some? && AllDigits(y)
    requires NumberField(h, 0, 23).Some? && NumberField(mi, 0, 59).Some?
  {
    DateTime(DigitsValue(y), NumberField(m, 1, 12).value, DayField(d).value,
      NumberField(h, 0, 23).value, NumberField(mi, 0, 59).value)
  }

  lemma FindFirst(a: string, rest: string, c: char)
    requires c !in a && |rest| > 0 && rest[0] == c
    ensures Find(a + rest, c) == Some(|a|)
  {
    var s := a + rest;
    assert s[|a|] == c;
  }

  lemma FieldsHaveNoSeparator(t: string, u: string, h: string)
    requires DayField(t).Some? && NumberField(u, 1, 12).Some? && NumberField(h, 0, 23).Some?
    ensures '/' !in t && '/' !in u && |h| > 0 && AllDigits(h)
  {
  }

  // Each stage of the parse, read forwards (a text of the right shape is passed on) and
  // backwards (a text passed on has the right shape).

  lemma DayJoin(d: string, rest: string)
    requires '/' !in d
    ensures ParseSource(d + "/" + rest) == ParseAfterDay(d, rest)
  {
    var s := d + "/" + rest;
    assert s == d + ("/" + rest);
    FindFirst(d, "/" + rest, '/');
    assert s[..|d|] == d && s[|d| + 1..] == rest;
  }

  lemma MonthJoin(d: string, m: string, rest: string)
    requires '/' !in m
    ensures ParseAfterDay(d, m + "/" + rest) == ParseAfterMonth(d, m, rest)
  {
    var s := m + "/" + rest;
    assert s == m + ("/" + rest);
    FindFirst(m, "/" + rest, '/');
    assert s[..|m|] == m && s[|m| + 1..] == rest;
  }

  lemma ClockJoin(d: string, m: string, y: string, w: string, h: string, mi: string)
    requires AllDigits(y) && |w| > 0 && AllSpace(w) && |h| > 0 && AllDigits(h)
    ensures ParseClock(d, m, y, w + h + ":" + mi) == Assemble(d, m, y, h, mi)
  {
    var clock := h + (":" + mi);
    assert w + h + ":" + mi == w + clock;
    TrimLeftSpacePrefix(w, clock);
    assert TrimLeft(clock) == clock by { assert IsDigit(clock[0]); }
    FindAfterDigits(h, ":" + mi, ':');
    assert clock[..|h|] == h && clock[|h| + 1..] == mi;
  }

  lemma AssembleComplete(d: string, m: string, y: string, h: string, mi: string)
    requires DayField(d).Some? && NumberField(m, 1, 12).Some? && AllDigits(y)
    requires NumberField(h, 0, 23).Some? && NumberField(mi, 0, 59).Some?
    ensures var dt := Spelled(d, m, y, h, mi); Assemble(d, m, y, h, mi) == if Valid(dt) then Some(dt) else None
  {
  }

  lemma DayCut(s: string) returns (d: string, rest: string)
    requires ParseSource(s).Some?
    ensures s == d + "/" + rest && ParseSource(s) == ParseAfterDay(d, rest)
  {
    var i := Find(s, '/').value;
    d, rest := s[..i], s[i + 1..];
  }

  lemma MonthCut(d: string, r: string) returns (m: string, rest: string)
    requires ParseAfterDay(d, r).Some?
    ensures r == m + "/" + rest && ParseAfterDay(d, r) == ParseAfterMonth(d, m, rest)
  {
    var j := Find(r, '/').value;
    m, rest := r[..j], r[j + 1..];
  }

  lemma YearCut(d: string, m: string, r: string) returns (y: string, rest: string)
    requires ParseAfterMonth(d, m, r).Some?
    ensures r == y + rest && |y| == 4 && AllDigits(y) && ParseAfterMonth(d, m, r) == ParseClock(d, m, y, rest)
  {
    y, rest := r[..4], r[4..];
  }

  lemma ClockCut(d: string, m: string, y: string, r: string) returns (w: string, h: string, mi: string)
    requires AllDigits(y) && ParseClock(d, m, y, r).Some?
    ensures r == w + h + ":" + mi && |w| > 0 && AllSpace(w)
    ensures ParseClock(d, m, y, r) == Assemble(d, m, y, h, mi)
  {
    var k := ClockOpen(d, m, y, r);
    w, h, mi := SplitClock(r, k);
  }

  lemma ClockOpen(d: string, m: string, y: string, r: string) returns (k: nat)
    requires AllDigits(y) && ParseClock(d, m, y, r).Some?
    ensures |TrimLeft(r)| < |r| && k < |TrimLeft(r)| && TrimLeft(r)[k] == ':'
    ensures ParseClock(d, m, y, r) == Assemble(d, m, y, TrimLeft(r)[..k], TrimLeft(r)[k + 1..])
  {
    TrimLeftShape(r);
    k := Find(TrimLeft(r), ':').value;
  }

  lemma SplitClock(r: string, k: nat) returns (w: string, h: string, mi: string)
    requires |TrimLeft(r)| < |r| && k < |TrimLeft(r)| && TrimLeft(r)[k] == ':'
    ensures r == w + h + ":" + mi && |w| > 0 && AllSpace(w)
    ensures h == TrimLeft(r)[..k] && mi == TrimLeft(r)[k + 1..]
  {
    var clock := TrimLeft(r);
    TrimLeftShape(r);
    w := r[..|r| - |clock|];
    h, mi := clock[..k], clock[k + 1..];
    CutAtColon(clock, k);
    PrependBlanks(r, w, clock, h, mi);
  }

  lemma CutAtColon(clock: string, k: nat)
    requires k < |clock| && clock[k] == ':'
    ensures clock == clock[..k] + ":" + clock[k + 1..]
  {
  }

  lemma PrependBlanks(r: string, w: string, clock: string, h: string, mi: string)
    requires |w| <= |r| && w == r[..|w|] && clock == r[|w|..] && clock == h + ":" + mi
    ensures r == w + h + ":" + mi
  {
    assert r == w + clock;
  }

  lemma AssembleSound(d: string, m: string, y: string, h: string, mi: string)
    requires AllDigits(y) && Assemble(d, m, y, h, mi).Some?
    ensures DayField(d).Some? && NumberField(m, 1, 12).Some?
    ensures NumberField(h, 0, 23).Some? && NumberField(mi, 0, 59).Some?
    ensures Assemble(d, m, y, h, mi) == Some(Spelled(d, m, y, h, mi))
  {
  }

  lemma Rejoin(s: string, d: string, r1: string, m: string, r2: string, y: string, r3: string,
               w: string, h: string, mi: string)
    requires s == d + "/" + r1 && r1 == m + "/" + r2 && r2 == y + r3 && r3 == w + h + ":" + mi
    ensures s == SourceText(d, m, y, w, h, mi)
  {
    assert s == d + "/" + (m + "/" + (y + (w + h + ":" + mi)));
  }

  /** Completeness: every text of the source format's shape, padded or not, is read as the
      date its pieces spell, and refused exactly when the calendar refuses that date. */
  lemma ParseSourceComplete(d: string, m: string, y: string, w: string, h: string, mi: string)
    requires PiecesMatch(d, m, y, w, h, mi)
    ensures var dt := Spelled(d, m, y, h, mi);
            ParseSource(SourceText(d, m, y, w, h, mi)) == if Valid(dt) then Some(dt) else None
  {
    var clockPart := w + h + ":" + mi;
    var afterMonth := y + clockPart;
    assert SourceText(d, m, y, w, h, mi) == d + "/" + (m + "/" + afterMonth);
    FieldsHaveNoSeparator(d, m, h);
    DayJoin(d, m + "/" + afterMonth);
    MonthJoin(d, m, afterMonth);
    AfterMonthOfDigits(d, m, y, clockPart);
    ClockJoin(d, m, y, w, h, mi);
    AssembleComplete(d, m, y, h, mi);
  }

  /** Soundness: a text that strptime accepts has the source format's shape, and the date
      returned is the one its pieces spell. */
  lemma ParseSourceSound(s: string) returns (d: string, m: string, y: string, w: string, h: string, mi: string)
    requires ParseSource(s).Some?
    ensures PiecesMatch(d, m, y, w, h, mi) && s == SourceText(d, m, y, w, h, mi)
    ensures ParseSource(s) == Some(Spelled(d, m, y, h, mi))
  {
    var r1, r2, r3;
    d, r1 := DayCut(s);
    m, r2 := MonthCut(d, r1);
    y, r3 := YearCut(d, m, r2);
    w, h, mi := ClockCut(d, m, y, r3);
    AssembleSound(d, m, y, h, mi);
    Rejoin(s, d, r1, m, r2, y, r3, w, h, mi);
  }

  lemma UnpaddedFields()
    ensures DayField("1") == Some(1) && NumberField("1", 1, 12) == Some(1)
    ensures NumberField("9", 0, 23) == Some(9) && NumberField("05", 0, 59) == Some(5)
    ensures AllDigits("2024") && DigitsValue("2024") == 2024
  {
    assert DigitsValue("1") == 1 && DigitsValue("9") == 9 && DigitsValue("05") == 5;
    assert "2024"[..3] == "202" && "202"[..2] == "20" && "20"[..1] == "2";
  }

  lemma UnpaddedText()
    ensures SourceText("1", "1", "2024", " ", "9", "05") == "1/1/2024 9:05"
  {
  }

  /** strptime also takes unpadded fields: `1/1/2024 9:05` is the 1st of January, 9:05. */
  lemma ExampleUnpadded()
    ensures ParseSource("1/1/2024 9:05") == Some(DateTime(2024, 1, 1, 9, 5))
  {
    UnpaddedFields();
    UnpaddedText();
    assert Spelled("1", "1", "2024", "9", "05") == DateTime(2024, 1, 1, 9, 5);
    assert Valid(DateTime(2024, 1, 1, 9, 5));
    ParseSourceComplete("1", "1", "2024", " ", "9", "05");
  }

  /** The output is the zero-padded `YYYY-MM-DD HH:MM:00` form, from which every field
      of the date reads back. */
  lemma IsoShape(dt: DateTime)
    requires Valid(dt)
    ensures var r := FormatIso(dt);
      && |r| == 19
      && r[4] == '-' && r[7] == '-' && r[10] == ' ' && r[13] == ':' && r[16] == ':'
      && r[17..] == "00"
      && AllDigits(r[..4]) && DigitsValue(r[..4]) == dt.year
      && AllDigits(r[5..7]) && DigitsValue(r[5..7]) == dt.month
      && AllDigits(r[8..10]) && DigitsValue(r[8..10]) == dt.day
      && AllDigits(r[11..13]) && DigitsValue(r[11..13]) == dt.hour
      && AllDigits(r[14..16]) && DigitsValue(r[14..16]) == dt.minute
  {
    var r := FormatIso(dt);
    assert r[..4] == Digits(dt.year, 4);
    assert r[5..7] == Digits(dt.month, 2);
    assert r[8..10] == Digits(dt.day, 2);
    assert r[11..13] == Digits(dt.hour, 2);
    assert r[14..16] == Digits(dt.minute, 2);
    DigitsValueOf(dt.year, 4);
    DigitsValueOf(dt.month, 2);
    DigitsValueOf(dt.day, 2);
    DigitsValueOf(dt.hour, 2);
    DigitsValueOf(dt.minute, 2);
  }

  /** The rewrite raises exactly when strptime does; otherwise its output is the ISO form
      from which the parsed date's year, month, day, hour and minute read back. */
  lemma ReformatFields(s: string)
    ensures Reformat(s).None? <==> ParseSource(s).None?
    ensures Reformat(s).Some? ==>
      var r := Reformat(s).value;
      var dt := ParseSource(s).value;
      && |r| == 19 && r[17..] == "00"
      && DigitsValue(r[..4]) == dt.year && DigitsValue(r[5..7]) == dt.month
      && DigitsValue(r[8..10]) == dt.day && DigitsValue(r[11..13]) == dt.hour
      && DigitsValue(r[14..16]) == dt.minute
  {
    if ParseSource(s).Some? {
      IsoShape(ParseSource(s).value);
    }
  }

  lemma YearTexts()
    ensures Digits(2023, 4) == "2023" && Digits(2024, 4) == "2024"
  {
    assert Digits(2, 1) == "2";
    assert Digits(20, 2) == "20";
    assert Digits(202, 3) == "202";
  }

  lemma PairTexts()
    ensures Digits(4, 2) == "04" && Digits(21, 2) == "21" && Digits(9, 2) == "09" && Digits(0, 2) == "00"
    ensures Digits(2, 2) == "02" && Digits(29, 2) == "29" && Digits(10, 2) == "10"
  {
  }

  lemma SampleSourceText()
    ensures FormatSource(DateTime(2024, 4, 21, 9, 0)) == "21/04/2024 09:00"
  {
    YearTexts();
    PairTexts();
    assert FormatSource(DateTime(2024, 4, 21, 9, 0)) == "21" + "/" + "04" + "/" + "2024" + " " + "09" + ":" + "00";
  }

  lemma SampleIsoText()
    ensures FormatIso(DateTime(2024, 4, 21, 9, 0)) == "2024-04-21 09:00:00"
  {
    YearTexts();
    PairTexts();
    assert FormatIso(DateTime(2024, 4, 21, 9, 0)) == "2024" + "-" + "04" + "-" + "21" + " " + "09" + ":" + "00" + ":00";
  }

  lemma ExampleReformat()
    ensures Reformat("21/04/2024 09:00") == Some("2024-04-21 09:00:00")
  {
    SampleSourceText();
    SampleIsoText();
    SourceRoundTrip(DateTime(2024, 4, 21, 9, 0));
  }

  lemma LeapDayText(year: nat)
    requires year == 2023 || year == 2024
    ensures FormatSource(DateTime(year, 2, 29, 10, 0)) == "29/02/" + Digits(year, 4) + " 10:00"
  {
    PairTexts();
    assert FormatSource(DateTime(year, 2, 29, 10, 0)) == "29" + "/" + "02" + "/" + Digits(year, 4) + " " + "10" + ":" + "00";
  }

  /** The 29th of February is refused in 2023 and accepted in the leap year 2024. */
  lemma ExampleNotLeapYear()
    ensures ParseSource("29/02/2023 10:00") == None
  {
    var dt := DateTime(2023, 2, 29, 10, 0);
    YearTexts();
    LeapDayText(2023);
    assert FormatSource(dt) == "29/02/2023 10:00";
    assert !Valid(dt);
    SourceRoundTrip(dt);
  }

  lemma ExampleLeapYear()
    ensures ParseSource("29/02/2024 10:00") == Some(DateTime(2024, 2, 29, 10, 0))
  {
    var dt := DateTime(2024, 2, 29, 10, 0);
    YearTexts();
    LeapDayText(2024);
    assert FormatSource(dt) == "29/02/2024 10:00";
    assert Valid(dt);
    SourceRoundTrip(dt);
  }
}
