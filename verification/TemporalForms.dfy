/**
 The forms people write: German dates with long and short years, and `heute`
 (src/mailhelp/temporal_answers.py). Each may be followed by a start and an end time.
 */
module TemporalForms {
  import opened PyText
  import opened TemporalAnswers

  function Four(n: nat): string
    requires n < 10000
  {
    Two(n / 100) + Two(n % 100)
  }

  /** The times that may follow a date, read in the captures `g`. */
  datatype Times = NoTimes | From(start: Clock, end: Option<Clock>)

  predicate ValidTimes(t: Times) {
    t.From? ==> ValidClock(t.start) && (t.end.Some? ==> ValidClock(t.end.value))
  }

  function TimesText(t: Times): string
    requires ValidTimes(t)
  {
    match t case NoTimes => "" case From(start, end) => " " + ClockPart(start, end)
  }

  function WithTimes(g: Captures, t: Times): Captures {
    match t case NoTimes => g case From(start, end) => Captured(g, start, end)
  }

  /** The answer these words stand for. */
  function AnswerOf(d: Day, t: Times): Answer {
    match t case NoTimes => Answer(Some(d), None, None) case From(start, end) => Answer(Some(d), Some(start), end)
  }

  lemma TimesStart(digit: char -> Option<nat>, t: Times)
    requires DigitLaw(digit) && ValidTimes(t)
    ensures TimesText(t) == "" || (TimesText(t)[0] == ' ' && digit(TimesText(t)[0]).None?)
  {
  }

  lemma ReadTimes(digit: char -> Option<nat>, t: Times, g: Captures)
    requires DigitLaw(digit) && ValidTimes(t)
    ensures Match(digit, Clocks(true), TimesText(t), g) == Some(WithTimes(g, t))
  {
    match t
    case NoTimes => NoClocks(digit, g);
    case From(start, end) => ReadClocks(digit, start, end, g);
  }

  // ---------------------------------------------------------- German dates

  function AfterMonth(next: Pattern): Pattern {
    One(Dot, Either(Digits(Year, 4, 4, next), Digits(Year, 2, 2, next)))
  }

  function AfterDay(next: Pattern): Pattern {
    One(Dot, Digits(Month, 1, 2, AfterMonth(next)))
  }

  lemma ReadLongYear(digit: char -> Option<nat>, next: Pattern, y: nat, rest: string, g: Captures)
    requires DigitLaw(digit) && y < 10000 && (rest == "" || digit(rest[0]).None?)
    requires Match(digit, next, rest, g[Year := y]).Some?
    ensures Match(digit, AfterMonth(next), ['.'] + (Four(y) + rest), g) == Match(digit, next, rest, g[Year := y])
  {
    FourDigits(digit, y, rest);
    var s := Four(y) + rest;
    assert Match(digit, Digits(Year, 4, 4, next), s, g) == Match(digit, next, rest, g[Year := y]);
    FirstHits(digit, Digits(Year, 4, 4, next), Digits(Year, 2, 2, next), s, g);
    ReadOne(digit, Dot, Either(Digits(Year, 4, 4, next), Digits(Year, 2, 2, next)), '.', s, g);
  }

  lemma ReadShortYear(digit: char -> Option<nat>, next: Pattern, y: nat, rest: string, g: Captures)
    requires DigitLaw(digit) && y < 100 && (rest == "" || digit(rest[0]).None?)
    requires Match(digit, next, rest, g[Year := y]).Some?
    ensures Match(digit, AfterMonth(next), ['.'] + (Two(y) + rest), g) == Match(digit, next, rest, g[Year := y])
  {
    var s := Two(y) + rest;
    TwoDigits(digit, y, rest);
    ReadTwo(digit, Year, 2, next, y, rest, g);
    assert Match(digit, Digits(Year, 4, 4, next), s, g) == None;
    FirstMisses(digit, Digits(Year, 4, 4, next), Digits(Year, 2, 2, next), s, g);
    ReadOne(digit, Dot, Either(Digits(Year, 4, 4, next), Digits(Year, 2, 2, next)), '.', s, g);
  }

  /** Day, month, and whatever year follows. */
  lemma ReadDayMonth(digit: char -> Option<nat>, next: Pattern, day: nat, month: nat, rest: string, g: Captures)
    requires DigitLaw(digit) && day < 100 && month < 100
    requires Match(digit, AfterMonth(next), ['.'] + rest, g[Group.Day := day][Month := month]).Some?
    ensures Match(digit, GermanDate(next), Two(day) + (['.'] + (Two(month) + (['.'] + rest))), g)
         == Match(digit, AfterMonth(next), ['.'] + rest, g[Group.Day := day][Month := month])
  {
    var h, tail := g[Group.Day := day], Two(month) + (['.'] + rest);
    ReadTwo(digit, Month, 1, AfterMonth(next), month, ['.'] + rest, h);
    ReadOne(digit, Dot, Digits(Month, 1, 2, AfterMonth(next)), '.', tail, h);
    ReadTwo(digit, Group.Day, 1, AfterDay(next), day, ['.'] + tail, g);
  }

  predicate TwoDigitDay(d: Day) {
    d.month < 100 && d.day < 100
  }

  /** The calendar: twelve months with their lengths, and a leap day every four years but three times in 400. */
  predicate Exists(d: Day) {
    && 1 <= d.year <= 9999 && 1 <= d.month <= 12
    && 1 <= d.day <= [31, if d.year % 4 > 0 || (d.year % 100 == 0 && d.year % 400 > 0) then 28 else 29, 31, 30,
                      31, 30, 31, 31, 30, 31, 30, 31][d.month - 1]
  }

  lemma ExistsExactly(d: Day)
    ensures ValidDay(d) <==> Exists(d)
  {
  }

  function German(d: Day, year: string, t: Times): string
    requires TwoDigitDay(d) && ValidTimes(t)
  {
    Two(d.day) + (['.'] + (Two(d.month) + (['.'] + (year + TimesText(t)))))
  }

  function GermanCaptures(d: Day, year: nat, t: Times): Captures {
    WithTimes(map[Group.Day := d.day][Month := d.month][Year := year], t)
  }

  /** The date form reads it, and `heute` does not. */
  lemma GermanIsMatched(digit: char -> Option<nat>, d: Day, year: string, y: nat, t: Times)
    requires DigitLaw(digit) && TwoDigitDay(d) && ValidTimes(t)
    requires (y < 10000 && year == Four(y)) || (y < 100 && year == Two(y))
    ensures Match(digit, Today(), German(d, year, t), map[]) == None
    ensures Match(digit, DateForm(), German(d, year, t), map[]) == Some(GermanCaptures(d, y, t))
  {
    var c, s := Clocks(true), German(d, year, t);
    var g: Captures := map[];
    var h := g[Group.Day := d.day][Month := d.month];
    TimesStart(digit, t);
    ReadTimes(digit, t, h[Year := y]);
    if year == Four(y) {
      ReadLongYear(digit, c, y, TimesText(t), h);
    } else {
      ReadShortYear(digit, c, y, TimesText(t), h);
    }
    ReadDayMonth(digit, c, d.day, d.month, year + TimesText(t), g);
    FirstHits(digit, GermanDate(c), IsoDate(c), s, g);
    TwoDigits(digit, d.day, ['.'] + (Two(d.month) + (['.'] + (year + TimesText(t)))));
    assert s[0..] == s && '0' <= s[0] <= '9';
    ReadSpaces(digit, Either(GermanDate(c), IsoDate(c)), s, g, 0);
    NotToday(digit, s);
  }

  lemma FactsOfTimes(d: Day, t: Times, g: Captures)
    requires ValidTimes(t) && StartHour !in g && EndHour !in g
    ensures Facts(Some(d), WithTimes(g, t)) == if Exists(d) then Some(AnswerOf(d, t)) else None
  {
    ExistsExactly(d);
  }

  /** The answer these words stand for, if the day exists. */
  function Reading(d: Day, t: Times): Option<Answer> {
    if Exists(d) then Some(AnswerOf(d, t)) else None
  }

  lemma ParsedDate(digit: char -> Option<nat>, s: string, g: Captures, reference: Option<Day>)
    requires Match(digit, Today(), s, map[]) == None && Match(digit, DateForm(), s, map[]) == Some(g)
    ensures Parse(digit, s, reference) == Dated(g, reference)
  {
  }

  lemma DatedGerman(d: Day, y: nat, t: Times, reference: Option<Day>)
    requires ValidTimes(t)
    ensures Dated(GermanCaptures(d, y, t), reference)
         == if y >= 100 then Reading(OnDay(y, d.month, d.day), t)
            else if reference.None? || y != reference.value.year % 100 then None
            else Reading(OnDay(reference.value.year, d.month, d.day), t)
  {
    var g: Captures := map[Group.Day := d.day][Month := d.month][Year := y];
    var h := GermanCaptures(d, y, t);
    assert h[Year] == y && h[Month] == d.month && h[Group.Day] == d.day;
    FactsOfTimes(OnDay(y, d.month, d.day), t, g);
    if reference.Some? {
      FactsOfTimes(OnDay(reference.value.year, d.month, d.day), t, g);
    }
  }

  /**
   `31.12.2026 10:00 bis 11:30`: day, month, year, start and end, whatever the reference.
   A day that does not exist is no answer.
   */
  lemma GermanIsRead(digit: char -> Option<nat>, d: Day, t: Times, reference: Option<Day>)
    requires DigitLaw(digit) && TwoDigitDay(d) && 100 <= d.year < 10000 && ValidTimes(t)
    ensures Parse(digit, German(d, Four(d.year), t), reference) == Reading(d, t)
  {
    GermanIsMatched(digit, d, Four(d.year), d.year, t);
    ParsedDate(digit, German(d, Four(d.year), t), GermanCaptures(d, d.year, t), reference);
    DatedGerman(d, d.year, t, reference);
  }

  /**
   `31.12.26`: a short year is an answer only if the reference is of a year that ends so,
   and then it is that year.
   */
  lemma ShortYearIsConfirmed(digit: char -> Option<nat>, d: Day, t: Times, reference: Option<Day>)
    requires DigitLaw(digit) && TwoDigitDay(d) && ValidTimes(t)
    ensures var answer := Parse(digit, German(d, Two(d.year % 100), t), reference);
      && (reference.None? || reference.value.year % 100 != d.year % 100 ==> answer == None)
      && (reference.Some? && reference.value.year == d.year ==> answer == Reading(d, t))
  {
    var y := d.year % 100;
    GermanIsMatched(digit, d, Two(y), y, t);
    ParsedDate(digit, German(d, Two(y), t), GermanCaptures(d, y, t), reference);
    DatedGerman(d, y, t, reference);
  }

  // ----------------------------------------------------------------- heute

  function Unseparated(): Pattern {
    Either(One(Comma, StartTime()), Either(One(Letter('u'), One(Letter('m'), StartTime())), StartTime()))
  }

  lemma ReadTodayTimes(digit: char -> Option<nat>, t: Times, g: Captures)
    requires DigitLaw(digit) && ValidTimes(t)
    ensures Match(digit, Clocks(false), TimesText(t), g) == Some(WithTimes(g, t))
  {
    var st := StartTime();
    match t
    case NoTimes =>
      TailEmpty(digit, g);
      assert LeadingSpaces("") == 0 && LeadingDigits(digit, "") == 0 && ""[0..] == "";
      assert Match(digit, st, "", g) == None;
      assert Match(digit, Unseparated(), "", g) == None;
      ReadSpaces(digit, Either(Unseparated(), Tail()), "", g, 0);
    case From(start, end) =>
      var s := ClockPart(start, end);
      ClockPartShape(digit, start, end);
      ReadStart(digit, start, end, g);
      SkipOne(digit, Letter('u'), One(Letter('m'), st), st, s, g);
      SkipOne(digit, Comma, st, Either(One(Letter('u'), One(Letter('m'), st)), st), s, g);
      assert (" " + s)[1..] == s && LeadingSpaces(" " + s) == 1;
      ReadSpaces(digit, Either(Unseparated(), Tail()), " " + s, g, 1);
  }

  lemma ReadPair(digit: char -> Option<nat>, a: char, b: char, next: Pattern, r: string, g: Captures)
    requires 'a' <= a <= 'z' && 'a' <= b <= 'z' && Match(digit, next, r, g).Some?
    ensures Match(digit, One(Letter(a), One(Letter(b), next)), [a] + ([b] + r), g) == Match(digit, next, r, g)
  {
    ReadOne(digit, Letter(b), next, b, r, g);
    ReadOne(digit, Letter(a), One(Letter(b), next), a, [b] + r, g);
  }

  lemma ReadHeute(digit: char -> Option<nat>, next: Pattern, r: string, g: Captures)
    requires Match(digit, next, r, g).Some?
    ensures Match(digit, One(Letter('h'), One(Letter('e'), One(Letter('u'), One(Letter('t'), One(Letter('e'), next))))),
                  "heute" + r, g) == Match(digit, next, r, g)
  {
    var e := One(Letter('e'), next);
    var ute := One(Letter('u'), One(Letter('t'), e));
    ReadOne(digit, Letter('e'), next, 'e', r, g);
    ReadPair(digit, 'u', 't', e, ['e'] + r, g);
    ReadPair(digit, 'h', 'e', ute, ['u'] + (['t'] + (['e'] + r)), g);
    assert "heute" + r == ['h'] + (['e'] + (['u'] + (['t'] + (['e'] + r))));
  }

  lemma MatchedToday(digit: char -> Option<nat>, r: string)
    requires Match(digit, Clocks(false), r, map[]).Some?
    ensures Match(digit, Today(), "heute" + r, map[]) == Match(digit, Clocks(false), r, map[])
  {
    var c, s := Clocks(false), "heute" + r;
    ReadHeute(digit, c, r, map[]);
    assert s[0] == 'h' && LeadingSpaces(s) == 0 && s[0..] == s;
    ReadSpaces(digit, One(Letter('h'), One(Letter('e'), One(Letter('u'), One(Letter('t'), One(Letter('e'), c))))), s,
               map[], 0);
  }

  lemma TodayIsMatched(digit: char -> Option<nat>, t: Times)
    requires DigitLaw(digit) && ValidTimes(t)
    ensures Match(digit, Today(), "heute" + TimesText(t), map[]) == Some(WithTimes(map[], t))
  {
    ReadTodayTimes(digit, t, map[]);
    MatchedToday(digit, TimesText(t));
  }

  lemma ParsedToday(digit: char -> Option<nat>, s: string, g: Captures, reference: Option<Day>)
    requires Match(digit, Today(), s, map[]) == Some(g)
    ensures Parse(digit, s, reference) == if reference.None? then None else Facts(reference, g)
  {
  }

  /** `heute`, with or without times: the day of the reference, and no answer without one. */
  lemma TodayIsRead(digit: char -> Option<nat>, t: Times, reference: Option<Day>)
    requires DigitLaw(digit) && ValidTimes(t) && (reference.Some? ==> Exists(reference.value))
    ensures Parse(digit, "heute" + TimesText(t), reference)
         == if reference.None? then None else Some(AnswerOf(reference.value, t))
  {
    TodayIsMatched(digit, t);
    ParsedToday(digit, "heute" + TimesText(t), WithTimes(map[], t), reference);
    if reference.Some? { FactsOfTimes(reference.value, t, map[]); }
  }

  // ----------------------------------------------------------- spoken times

  lemma ReadUhr(digit: char -> Option<nat>, next: Pattern, g: Captures)
    requires Match(digit, next, "", g).Some?
    ensures Match(digit, AfterClock(next), " Uhr", g) == Match(digit, next, "", g)
  {
    var r := One(Letter('r'), next);
    var uhr := One(Letter('u'), One(Letter('h'), r));
    ReadOne(digit, Letter('r'), next, 'r', "", g);
    ReadOne(digit, Letter('h'), r, 'h', ['r'] + "", g);
    ReadOne(digit, Letter('u'), One(Letter('h'), r), 'U', ['h'] + (['r'] + ""), g);
    assert " Uhr"[1..] == ['U'] + (['h'] + (['r'] + "")) && LeadingSpaces(" Uhr"[1..]) == 0;
    FirstHits(digit, uhr, next, " Uhr"[1..], g);
    ReadSpaces(digit, Either(uhr, next), " Uhr", g, 1);
  }

  /** A full hour without minutes. */
  lemma ReadHour(digit: char -> Option<nat>, hour: Group, minute: Group, next: Pattern, h: nat, tail: string,
                 g: Captures)
    requires DigitLaw(digit) && h < 100 && tail != "" && digit(tail[0]).None? && tail[0] != ':'
    requires Match(digit, AfterClock(next), tail, g[hour := h]).Some?
    ensures Match(digit, Time(hour, minute, next), Two(h) + tail, g)
         == Match(digit, AfterClock(next), tail, g[hour := h])
  {
    var after := AfterClock(next);
    SkipOne(digit, Colon, Digits(minute, 2, 2, after), after, tail, g[hour := h]);
    ReadTwo(digit, hour, 1, Either(One(Colon, Digits(minute, 2, 2, after)), after), h, tail, g);
  }

  lemma ReadEndTime(digit: char -> Option<nat>, h: nat, g: Captures)
    requires DigitLaw(digit) && h < 100
    ensures Match(digit, UntilTime(Tail()), Two(h) + " Uhr", g) == Some(g[EndHour := h])
  {
    var s := Two(h) + " Uhr";
    TailEmpty(digit, g[EndHour := h]);
    ReadUhr(digit, Tail(), g[EndHour := h]);
    ReadHour(digit, EndHour, EndMinute, Tail(), h, " Uhr", g);
    TwoDigits(digit, h, " Uhr");
    assert s[0..] == s;
    ReadSpaces(digit, Time(EndHour, EndMinute, Tail()), s, g, 0);
  }

  lemma ReadDash(digit: char -> Option<nat>, s: string, g: Captures)
    requires Match(digit, UntilTime(Tail()), s, g).Some?
    ensures Match(digit, Until(Tail()), "-" + s, g) == Match(digit, UntilTime(Tail()), s, g)
  {
    var time, t := UntilTime(Tail()), ['-'] + s;
    var bis, dash := One(Letter('b'), One(Letter('i'), One(Letter('s'), time))), One(Dash, time);
    ReadOne(digit, Dash, time, '-', s, g);
    FirstMisses(digit, bis, dash, t, g);
    assert "-" + s == t && t[0..] == t && LeadingSpaces(t) == 0;
    ReadSpaces(digit, Either(bis, dash), t, g, 0);
  }

  lemma ReadEndHour(digit: char -> Option<nat>, h: nat, g: Captures)
    requires DigitLaw(digit) && h < 100
    ensures Match(digit, Until(Tail()), "-" + (Two(h) + " Uhr"), g) == Some(g[EndHour := h])
  {
    ReadEndTime(digit, h, g);
    ReadDash(digit, Two(h) + " Uhr", g);
  }

  function HourRange(a: nat, b: nat): string
    requires a < 100 && b < 100
  {
    Two(a) + ("-" + (Two(b) + " Uhr"))
  }

  lemma HourRangeIsMatched(digit: char -> Option<nat>, a: nat, b: nat)
    requires DigitLaw(digit) && a < 100 && b < 100
    ensures Match(digit, RangeForm(), HourRange(a, b), map[]) == Some(map[StartHour := a][EndHour := b])
  {
    var g: Captures := map[];
    var tail, s := "-" + (Two(b) + " Uhr"), HourRange(a, b);
    ReadEndHour(digit, b, g[StartHour := a]);
    assert tail[0..] == tail && LeadingSpaces(tail) == 0;
    ReadAfterClock(digit, Until(Tail()), tail, g[StartHour := a], 0);
    ReadHour(digit, StartHour, StartMinute, Until(Tail()), a, tail, g);
    TwoDigits(digit, a, tail);
    assert s[0..] == s;
    ReadSpaces(digit, Time(StartHour, StartMinute, Until(Tail())), s, g, 0);
  }

  lemma HourRangeIsNoDate(digit: char -> Option<nat>, a: nat, b: nat)
    requires DigitLaw(digit) && a < 100 && b < 100
    ensures Match(digit, Today(), HourRange(a, b), map[]) == None
    ensures Match(digit, DateForm(), HourRange(a, b), map[]) == None
  {
    var s, c := HourRange(a, b), Clocks(true);
    TwoDigits(digit, a, "-" + (Two(b) + " Uhr"));
    NotToday(digit, s);
    NotGerman(digit, c, s, map[]);
    assert Match(digit, IsoDate(c), s, map[]) == None && s[0..] == s;
  }

  /** `10-12 Uhr`: full hours, if they are hours of a day. */
  lemma HoursAreRead(digit: char -> Option<nat>, a: nat, b: nat, reference: Option<Day>)
    requires DigitLaw(digit) && a < 100 && b < 100
    ensures Parse(digit, HourRange(a, b), reference)
         == if a <= 23 && b <= 23 then Some(Answer(None, Some(At(a, 0)), Some(At(b, 0)))) else None
  {
    HourRangeIsMatched(digit, a, b);
    HourRangeIsNoDate(digit, a, b);
  }

  /** `heute um 10 Uhr`. */
  lemma TodayAtIsRead(digit: char -> Option<nat>, h: nat, reference: Option<Day>)
    requires DigitLaw(digit) && h < 100 && (reference.Some? ==> Exists(reference.value))
    ensures Parse(digit, "heute um " + (Two(h) + " Uhr"), reference)
         == if reference.None? || h > 23 then None else Some(Answer(reference, Some(At(h, 0)), None))
  {
    var r := " um " + (Two(h) + " Uhr");
    TodayAtIsMatched(digit, h);
    assert "heute um " + (Two(h) + " Uhr") == "heute" + r;
    ParsedToday(digit, "heute" + r, map[StartHour := h], reference);
    if reference.Some? { ExistsExactly(reference.value); }
  }

  lemma ReadUm(digit: char -> Option<nat>, h: nat, g: Captures)
    requires DigitLaw(digit) && h < 100
    ensures Match(digit, Clocks(false), " um " + (Two(h) + " Uhr"), g) == Some(g[StartHour := h])
  {
    var st, s := StartTime(), " " + (Two(h) + " Uhr");
    var rest := Either(Until(Tail()), Tail());
    TailEmpty(digit, g[StartHour := h]);
    FirstMisses(digit, Until(Tail()), Tail(), "", g[StartHour := h]);
    ReadUhr(digit, rest, g[StartHour := h]);
    ReadHour(digit, StartHour, StartMinute, rest, h, " Uhr", g);
    TwoDigits(digit, h, " Uhr");
    assert s[1..] == Two(h) + " Uhr";
    ReadSpaces(digit, Time(StartHour, StartMinute, rest), s, g, 1);
    ReadPair(digit, 'u', 'm', st, s, g);
    var t := ['u'] + (['m'] + s);
    FirstHits(digit, One(Letter('u'), One(Letter('m'), st)), st, t, g);
    SkipOne(digit, Comma, st, Either(One(Letter('u'), One(Letter('m'), st)), st), t, g);
    FirstHits(digit, Unseparated(), Tail(), t, g);
    assert " um " + (Two(h) + " Uhr") == " " + t && (" " + t)[1..] == t && LeadingSpaces(" " + t) == 1;
    ReadSpaces(digit, Either(Unseparated(), Tail()), " " + t, g, 1);
  }

  lemma TodayAtIsMatched(digit: char -> Option<nat>, h: nat)
    requires DigitLaw(digit) && h < 100
    ensures Match(digit, Today(), "heute" + (" um " + (Two(h) + " Uhr")), map[]) == Some(map[StartHour := h])
  {
    var g: Captures := map[];
    ReadUm(digit, h, g);
    MatchedToday(digit, " um " + (Two(h) + " Uhr"));
  }

  // ------------------------------------------------------- the normal form

  lemma TwoIsDecimal(n: nat)
    requires n < 100
    ensures |Two(n)| == 2 && Decimal(Two(n)) == Some(n)
  {
    var t := Two(n);
    assert t[..1] == [t[0]] && Decimal([t[0]]) == Some(n / 10);
  }

  /** A date is printed year first, in ten characters; a time is `HH:MM`. */
  lemma NormalShapes(d: Day, c: Clock)
    requires ValidDay(d) && ValidClock(c)
    ensures var s := IsoText(d);
      && |s| == 10 && s[4] == '-' && s[7] == '-'
      && Decimal(s[..2]) == Some(d.year / 100) && Decimal(s[2..4]) == Some(d.year % 100)
      && Decimal(s[5..7]) == Some(d.month) && Decimal(s[8..]) == Some(d.day)
    ensures var s := ClockText(c);
      |s| == 5 && s[2] == ':' && Decimal(s[..2]) == Some(c.hour) && Decimal(s[3..]) == Some(c.minute)
  {
    TwoIsDecimal(d.year / 100);
    TwoIsDecimal(d.year % 100);
    TwoIsDecimal(d.month);
    TwoIsDecimal(d.day);
    TwoIsDecimal(c.hour);
    TwoIsDecimal(c.minute);
    var s, t := IsoText(d), ClockText(c);
    assert s[..2] == Two(d.year / 100) && s[2..4] == Two(d.year % 100);
    assert s[5..7] == Two(d.month) && s[8..] == Two(d.day);
    assert t[..2] == Two(c.hour) && t[3..] == Two(c.minute);
  }
}
