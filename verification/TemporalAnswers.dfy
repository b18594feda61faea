/**
 Dates and clock times in an answer: the ordered, backtracking match of the accepted
 forms, and the normal form that no longer depends on the reference date
 (src/mailhelp/temporal_answers.py).
 */
module TemporalAnswers {
  import opened PyText

  // ----------------------------------------------------------- characters

  /** One character of a pattern; letters match both cases and the case variants of `i` and `s`. */
  datatype Class = Dot | Hyphen | Comma | Colon | Dash | Letter(lower: char)

  predicate Is(c: char, k: Class) {
    match k
    case Dot => c == '.'
    case Hyphen => c == '-'
    case Comma => c == ','
    case Colon => c == ':'
    case Dash => c == '-' || c as int == 0x2013
    case Letter(l) =>
      || c == l || (97 <= l as int <= 122 && c as int == l as int - 32)
      || (l == 'i' && (c as int == 0x130 || c as int == 0x131)) || (l == 's' && c as int == 0x17F)
  }

  // ------------------------------------------------------------- patterns

  datatype Group =
    | Day | Month | Year | IsoYear | IsoMonth | IsoDay | StartHour | StartMinute | EndHour | EndMinute

  /** A regular expression together with everything that follows it. */
  datatype Pattern =
    | End
    | Spaces(next: Pattern)                                  // \s*
    | Digits(group: Group, least: nat, most: nat, next: Pattern)
    | One(class_: Class, next: Pattern)
    | Either(first: Pattern, second: Pattern)

  type Captures = map<Group, nat>

  function LeadingSpaces(s: string): (n: nat)
    ensures n <= |s|
  {
    if s != "" && IsSpace(s[0]) then 1 + LeadingSpaces(s[1..]) else 0
  }

  function LeadingDigits(digit: char -> Option<nat>, s: string): (n: nat)
    ensures n <= |s|
    ensures forall i :: 0 <= i < n ==> digit(s[i]).Some?
  {
    if s != "" && digit(s[0]).Some? then 1 + LeadingDigits(digit, s[1..]) else 0
  }

  /** `fullmatch`: longest repetition first, first alternative first, with backtracking. */
  function Match(digit: char -> Option<nat>, p: Pattern, s: string, g: Captures): Option<Captures>
    decreases p, 0
  {
    match p
    case End => if s == "" then Some(g) else None
    case Spaces(next) => SpacesFrom(digit, next, s, g, LeadingSpaces(s))
    case Digits(group, least, most, next) =>
      var n := LeadingDigits(digit, s);
      DigitsFrom(digit, group, least, next, s, g, if n < most then n else most)
    case One(k, next) => if s != "" && Is(s[0], k) then Match(digit, next, s[1..], g) else None
    case Either(first, second) =>
      var r := Match(digit, first, s, g);
      if r.Some? then r else Match(digit, second, s, g)
  }

  function SpacesFrom(digit: char -> Option<nat>, next: Pattern, s: string, g: Captures, n: nat): Option<Captures>
    requires n <= |s|
    decreases next, n + 1
  {
    var r := Match(digit, next, s[n..], g);
    if r.Some? || n == 0 then r else SpacesFrom(digit, next, s, g, n - 1)
  }

  function DigitsFrom(digit: char -> Option<nat>, group: Group, least: nat, next: Pattern, s: string, g: Captures,
                      n: nat)
    : Option<Captures>
    requires n <= LeadingDigits(digit, s)
    decreases next, n + 1
  {
    if n < least then None
    else
      var r := Match(digit, next, s[n..], g[group := Number(digit, s[..n])]);
      if r.Some? || n == 0 then r else DigitsFrom(digit, group, least, next, s, g, n - 1)
  }

  // -------------------------------------------------------- accepted forms

  function Tail(): Pattern {
    Spaces(End)
  }

  function Optional(with: Pattern, without: Pattern): Pattern {
    Either(with, without)
  }

  /** A clock time: hour, optional minute, optional `Uhr`. */
  function Time(hour: Group, minute: Group, next: Pattern): Pattern {
    Digits(hour, 1, 2, Optional(One(Colon, Digits(minute, 2, 2, AfterClock(next))), AfterClock(next)))
  }

  function AfterClock(next: Pattern): Pattern {
    Spaces(Optional(One(Letter('u'), One(Letter('h'), One(Letter('r'), next))), next))
  }

  /** `bis` or a dash, then the end time. */
  function Until(next: Pattern): Pattern {
    Spaces(Either(One(Letter('b'), One(Letter('i'), One(Letter('s'), UntilTime(next)))), One(Dash, UntilTime(next))))
  }

  function UntilTime(next: Pattern): Pattern {
    Spaces(Time(EndHour, EndMinute, next))
  }

  /** An optional end after the start. */
  function StartTime(): Pattern {
    Spaces(Time(StartHour, StartMinute, Optional(Until(Tail()), Tail())))
  }

  function Clocks(withT: bool): Pattern {
    var comma := One(Comma, StartTime());
    var um := One(Letter('u'), One(Letter('m'), StartTime()));
    var separated := Either(comma, Either(um, StartTime()));
    Spaces(Optional(if withT then Either(One(Letter('t'), StartTime()), separated) else separated, Tail()))
  }

  function GermanDate(next: Pattern): Pattern {
    Digits(Day, 1, 2, One(Dot, Digits(Month, 1, 2,
      One(Dot, Either(Digits(Year, 4, 4, next), Digits(Year, 2, 2, next))))))
  }

  function IsoDate(next: Pattern): Pattern {
    Digits(IsoYear, 4, 4, One(Hyphen, Digits(IsoMonth, 2, 2, One(Hyphen, Digits(IsoDay, 2, 2, next)))))
  }

  function Today(): Pattern {
    Spaces(One(Letter('h'), One(Letter('e'), One(Letter('u'), One(Letter('t'), One(Letter('e'), Clocks(false)))))))
  }

  function DateForm(): Pattern {
    Spaces(Either(GermanDate(Clocks(true)), IsoDate(Clocks(true))))
  }

  function RangeForm(): Pattern {
    Spaces(Time(StartHour, StartMinute, Until(Tail())))
  }

  function ClockForm(): Pattern {
    Spaces(Time(StartHour, StartMinute, Tail()))
  }

  // --------------------------------------------------------------- answers

  datatype Day = OnDay(year: nat, month: nat, day: nat)

  datatype Clock = At(hour: nat, minute: nat)

  datatype Answer = Answer(date: Option<Day>, start: Option<Clock>, end: Option<Clock>)

  predicate LeapYear(y: nat) {
    y % 4 == 0 && (y % 100 != 0 || y % 400 == 0)
  }

  function DaysIn(y: nat, m: nat): nat {
    if m == 2 then (if LeapYear(y) then 29 else 28)
    else if m == 4 || m == 6 || m == 9 || m == 11 then 30
    else 31
  }

  /** What `date(year, month, day)` accepts. */
  predicate ValidDay(d: Day) {
    1 <= d.year <= 9999 && 1 <= d.month <= 12 && 1 <= d.day <= DaysIn(d.year, d.month)
  }

  predicate ValidClock(c: Clock) {
    c.hour < 24 && c.minute < 60
  }

  function Get(g: Captures, k: Group): nat {
    if k in g then g[k] else 0
  }

  /** `_clock`; a missing minute is 0. */
  function ClockOf(g: Captures, hour: Group, minute: Group): Option<Clock> {
    if hour in g then Some(At(g[hour], Get(g, minute))) else None
  }

  /** Dates and times that do not exist are no answer. */
  function Facts(date: Option<Day>, g: Captures): Option<Answer> {
    var a := Answer(date, ClockOf(g, StartHour, StartMinute), ClockOf(g, EndHour, EndMinute));
    if (a.date.Some? ==> ValidDay(a.date.value)) && (a.start.Some? ==> ValidClock(a.start.value))
       && (a.end.Some? ==> ValidClock(a.end.value)) then Some(a) else None
  }

  function FirstForm(digit: char -> Option<nat>, s: string): Option<Captures> {
    var date := Match(digit, DateForm(), s, map[]);
    if date.Some? then date
    else
      var range := Match(digit, RangeForm(), s, map[]);
      if range.Some? then range else Match(digit, ClockForm(), s, map[])
  }

  /** `parse_deterministic_temporal_answer`. */
  function Parse(digit: char -> Option<nat>, s: string, reference: Option<Day>): Option<Answer> {
    var today := Match(digit, Today(), s, map[]);
    if today.Some? then (if reference.None? then None else Facts(reference, today.value))
    else
      var m := FirstForm(digit, s);
      if m.None? then None else Dated(m.value, reference)
  }

  /** A short year is accepted only where the reference confirms it. */
  function Dated(g: Captures, reference: Option<Day>): Option<Answer> {
    if Year in g then
      if g[Year] >= 100 then Facts(Some(OnDay(g[Year], Get(g, Month), Get(g, Group.Day))), g)
      else if reference.None? || g[Year] != reference.value.year % 100 then None
      else Facts(Some(OnDay(reference.value.year, Get(g, Month), Get(g, Group.Day))), g)
    else if IsoYear in g then Facts(Some(OnDay(g[IsoYear], Get(g, IsoMonth), Get(g, IsoDay))), g)
    else Facts(None, g)
  }

  // ------------------------------------------------------------ normal form

  function Char10(n: nat): char
    requires n < 10
  {
    (n + 48) as char
  }

  function Two(n: nat): string
    requires n < 100
  {
    [Char10(n / 10), Char10(n % 10)]
  }

  function IsoText(d: Day): string
    requires ValidDay(d)
  {
    Two(d.year / 100) + Two(d.year % 100) + "-" + Two(d.month) + "-" + Two(d.day)
  }

  function ClockText(c: Clock): string
    requires ValidClock(c)
  {
    Two(c.hour) + ":" + Two(c.minute)
  }

  predicate ValidAnswer(a: Answer) {
    && (a.date.Some? ==> ValidDay(a.date.value)) && (a.start.Some? ==> ValidClock(a.start.value))
    && (a.end.Some? ==> ValidClock(a.end.value))
  }

  function Joined(parts: seq<string>): string {
    if parts == [] then "" else if |parts| == 1 then parts[0]
    else Joined(parts[..|parts| - 1]) + " " + parts[|parts| - 1]
  }

  function Parts(a: Answer): seq<string>
    requires ValidAnswer(a)
  {
    (if a.date.Some? then [IsoText(a.date.value)] else [])
    + (if a.start.Some? then [ClockText(a.start.value)] else [])
    + (if a.end.Some? then ["bis", ClockText(a.end.value)] else [])
  }

  function Normalized(a: Answer): string
    requires ValidAnswer(a)
  {
    Joined(Parts(a))
  }

  /** `normalize_deterministic_temporal_answer`: the list of parts, joined. */
  method NormalizeAnswer(a: Answer) returns (text: string)
    requires ValidAnswer(a)
    ensures text == Normalized(a)
  {
    var parts: seq<string> := if a.date.Some? then [IsoText(a.date.value)] else [];
    if a.start.Some? {
      parts := parts + [ClockText(a.start.value)];
    }
    if a.end.Some? {
      parts := parts + ["bis", ClockText(a.end.value)];
    }
    assert parts == Parts(a);
    text := Joined(parts);
  }

  // -------------------------------------------------- what a match captured

  /** Whether a date and a start hour have been captured. */
  datatype Seen = Seen(date: bool, start: bool)

  function Seeing(seen: Seen, k: Group): Seen {
    match k
    case Year => seen.(date := true)
    case IsoYear => seen.(date := true)
    case StartHour => seen.(start := true)
    case _ => seen
  }

  /** On every way through the pattern an end hour follows a start hour, and a date or a start is captured. */
  predicate Sound(p: Pattern, seen: Seen) {
    match p
    case End => seen.date || seen.start
    case Spaces(next) => Sound(next, seen)
    case One(_, next) => Sound(next, seen)
    case Either(a, b) => Sound(a, seen) && Sound(b, seen)
    case Digits(k, _, _, next) => (k.EndHour? ==> seen.start) && Sound(next, Seeing(seen, k))
  }

  /** `today`: the date comes from the reference instead. */
  predicate Recorded(g: Captures, seen: Seen, today: bool) {
    && (seen.date ==> today || Year in g || IsoYear in g) && (seen.start ==> StartHour in g)
    && (EndHour in g ==> StartHour in g)
  }

  predicate Complete(g: Captures, today: bool) {
    (EndHour in g ==> StartHour in g) && (today || Year in g || IsoYear in g || StartHour in g)
  }

  lemma {:induction false} MatchIsSound(digit: char -> Option<nat>, p: Pattern, s: string, g: Captures, seen: Seen,
                                        today: bool)
    requires Sound(p, seen) && Recorded(g, seen, today) && Match(digit, p, s, g).Some?
    ensures Complete(Match(digit, p, s, g).value, today)
    decreases p, 0
  {
    match p
    case End =>
    case Spaces(next) => SpacesAreSound(digit, next, s, g, LeadingSpaces(s), seen, today);
    case One(_, next) => MatchIsSound(digit, next, s[1..], g, seen, today);
    case Either(a, b) =>
      if Match(digit, a, s, g).Some? { MatchIsSound(digit, a, s, g, seen, today); }
      else { MatchIsSound(digit, b, s, g, seen, today); }
    case Digits(k, least, most, next) =>
      var n := LeadingDigits(digit, s);
      DigitsAreSound(digit, k, least, next, s, g, if n < most then n else most, seen, today);
  }

  lemma {:induction false} SpacesAreSound(digit: char -> Option<nat>, next: Pattern, s: string, g: Captures, n: nat,
                                          seen: Seen, today: bool)
    requires n <= |s| && Sound(next, seen) && Recorded(g, seen, today)
    requires SpacesFrom(digit, next, s, g, n).Some?
    ensures Complete(SpacesFrom(digit, next, s, g, n).value, today)
    decreases next, n + 1
  {
    if Match(digit, next, s[n..], g).Some? { MatchIsSound(digit, next, s[n..], g, seen, today); }
    else { SpacesAreSound(digit, next, s, g, n - 1, seen, today); }
  }

  lemma {:induction false} DigitsAreSound(digit: char -> Option<nat>, k: Group, least: nat, next: Pattern, s: string,
                                          g: Captures, n: nat, seen: Seen, today: bool)
    requires n <= LeadingDigits(digit, s) && (k.EndHour? ==> seen.start)
    requires Sound(next, Seeing(seen, k)) && Recorded(g, seen, today)
    requires DigitsFrom(digit, k, least, next, s, g, n).Some?
    ensures Complete(DigitsFrom(digit, k, least, next, s, g, n).value, today)
    decreases next, n + 1
  {
    var h := g[k := Number(digit, s[..n])];
    if Match(digit, next, s[n..], h).Some? {
      MatchIsSound(digit, next, s[n..], h, Seeing(seen, k), today);
    } else {
      DigitsAreSound(digit, k, least, next, s, g, n - 1, seen, today);
    }
  }

  lemma DigitsSound(k: Group, least: nat, most: nat, next: Pattern, seen: Seen, then_: Seen)
    requires (k.EndHour? ==> seen.start) && then_ == Seeing(seen, k) && Sound(next, then_)
    ensures Sound(Digits(k, least, most, next), seen)
  {
  }

  lemma TailIsSound(seen: Seen)
    requires seen.date || seen.start
    ensures Sound(Tail(), seen)
  {
  }

  lemma AfterClockIsSound(next: Pattern, seen: Seen)
    requires Sound(next, seen)
    ensures Sound(AfterClock(next), seen)
  {
    assert Sound(One(Letter('h'), One(Letter('r'), next)), seen);
  }

  lemma TimeIsSound(hour: Group, minute: Group, next: Pattern, seen: Seen, then_: Seen)
    requires hour.StartHour? || (hour.EndHour? && seen.start)
    requires minute.StartMinute? || minute.EndMinute?
    requires then_ == Seeing(seen, hour) && Sound(next, then_)
    ensures Sound(Time(hour, minute, next), seen)
  {
    var after := AfterClock(next);
    AfterClockIsSound(next, then_);
    DigitsSound(minute, 2, 2, after, then_, then_);
    DigitsSound(hour, 1, 2, Either(One(Colon, Digits(minute, 2, 2, after)), after), seen, then_);
  }

  lemma UntilIsSound(seen: Seen)
    requires seen.start
    ensures Sound(Until(Tail()), seen)
  {
    TailIsSound(seen);
    TimeIsSound(EndHour, EndMinute, Tail(), seen, seen);
    var time := UntilTime(Tail());
    assert Sound(time, seen);
    assert Sound(One(Letter('i'), One(Letter('s'), time)), seen);
  }

  lemma StartTimeIsSound(seen: Seen)
    ensures Sound(StartTime(), seen)
  {
    var started := Seeing(seen, StartHour);
    TailIsSound(started);
    UntilIsSound(started);
    TimeIsSound(StartHour, StartMinute, Either(Until(Tail()), Tail()), seen, started);
  }

  lemma ClocksAreSound(withT: bool, seen: Seen)
    requires seen.date
    ensures Sound(Clocks(withT), seen)
  {
    StartTimeIsSound(seen);
    TailIsSound(seen);
    var comma := One(Comma, StartTime());
    var um := One(Letter('u'), One(Letter('m'), StartTime()));
    var separated := Either(comma, Either(um, StartTime()));
    assert Sound(um, seen) && Sound(comma, seen);
    assert Sound(separated, seen);
    assert Sound(One(Letter('t'), StartTime()), seen);
  }

  lemma TodayIsSound(seen: Seen)
    requires seen.date
    ensures Sound(Today(), seen)
  {
    ClocksAreSound(false, seen);
    var te := One(Letter('t'), One(Letter('e'), Clocks(false)));
    assert Sound(te, seen);
    assert Sound(One(Letter('e'), One(Letter('u'), te)), seen);
  }

  lemma GermanDateIsSound(c: Pattern, seen: Seen)
    requires Sound(c, Seeing(seen, Year))
    ensures Sound(GermanDate(c), seen)
  {
    DigitsSound(Year, 4, 4, c, seen, Seeing(seen, Year));
    DigitsSound(Year, 2, 2, c, seen, Seeing(seen, Year));
    var years := Either(Digits(Year, 4, 4, c), Digits(Year, 2, 2, c));
    assert Sound(One(Dot, years), seen);
    DigitsSound(Month, 1, 2, One(Dot, years), seen, seen);
    assert Sound(One(Dot, Digits(Month, 1, 2, One(Dot, years))), seen);
    DigitsSound(Group.Day, 1, 2, One(Dot, Digits(Month, 1, 2, One(Dot, years))), seen, seen);
  }

  lemma IsoDateIsSound(c: Pattern, seen: Seen)
    requires Sound(c, Seeing(seen, IsoYear))
    ensures Sound(IsoDate(c), seen)
  {
    var dated := Seeing(seen, IsoYear);
    DigitsSound(IsoDay, 2, 2, c, dated, dated);
    var day := One(Hyphen, Digits(IsoDay, 2, 2, c));
    DigitsSound(IsoMonth, 2, 2, day, dated, dated);
    DigitsSound(IsoYear, 4, 4, One(Hyphen, Digits(IsoMonth, 2, 2, day)), seen, dated);
  }

  lemma DateFormIsSound(seen: Seen)
    ensures Sound(DateForm(), seen)
  {
    ClocksAreSound(true, Seeing(seen, Year));
    GermanDateIsSound(Clocks(true), seen);
    IsoDateIsSound(Clocks(true), seen);
  }

  lemma ClockFormsAreSound(seen: Seen)
    ensures Sound(RangeForm(), seen) && Sound(ClockForm(), seen)
  {
    var started := Seeing(seen, StartHour);
    UntilIsSound(started);
    TailIsSound(started);
    TimeIsSound(StartHour, StartMinute, Until(Tail()), seen, started);
    TimeIsSound(StartHour, StartMinute, Tail(), seen, started);
  }

  /** What an accepted answer can be. */
  predicate Proper(a: Answer) {
    ValidAnswer(a) && (a.end.Some? ==> a.start.Some?) && (a.date.Some? || a.start.Some?)
  }

  /** Every accepted answer is made of existing dates and times; an end comes with a start. */
  lemma ParsedIsProper(digit: char -> Option<nat>, s: string, reference: Option<Day>)
    requires Parse(digit, s, reference).Some?
    ensures Proper(Parse(digit, s, reference).value)
  {
    var today := Match(digit, Today(), s, map[]);
    if today.Some? {
      TodayIsSound(Seen(true, false));
      MatchIsSound(digit, Today(), s, map[], Seen(true, false), true);
    } else {
      var date := Match(digit, DateForm(), s, map[]);
      var range := Match(digit, RangeForm(), s, map[]);
      DateFormIsSound(Seen(false, false));
      ClockFormsAreSound(Seen(false, false));
      if date.Some? {
        MatchIsSound(digit, DateForm(), s, map[], Seen(false, false), false);
      } else if range.Some? {
        MatchIsSound(digit, RangeForm(), s, map[], Seen(false, false), false);
      } else {
        MatchIsSound(digit, ClockForm(), s, map[], Seen(false, false), false);
      }
    }
  }

  // ------------------------------------------------- reading a normal form

  /** No repetition of digits or spaces reaches beyond two digits that something else follows. */
  lemma TwoDigits(digit: char -> Option<nat>, n: nat, rest: string)
    requires DigitLaw(digit) && n < 100 && (rest == "" || digit(rest[0]).None?)
    ensures var s := Two(n) + rest;
      && LeadingDigits(digit, s) == 2 && LeadingSpaces(s) == 0 && s[2..] == rest && s[..2] == Two(n)
      && Number(digit, s[..2]) == n
  {
    var s := Two(n) + rest;
    NumberOfTwo(digit, n);
    assert s[0] == Char10(n / 10) && s[1] == Char10(n % 10);
    assert s[1..][1..] == rest && s[1..][0] == s[1];
    assert LeadingDigits(digit, rest) == 0;
    assert LeadingDigits(digit, s[1..]) == 1;
    assert s[..2] == Two(n) && s[2..] == rest;
  }

  lemma NumberOfTwo(digit: char -> Option<nat>, n: nat)
    requires DigitLaw(digit) && n < 100
    ensures digit(Two(n)[0]) == Some(n / 10) && digit(Two(n)[1]) == Some(n % 10) && Number(digit, Two(n)) == n
  {
    var t := Two(n);
    assert t[..1] == [t[0]] && t[..1][..0] == "";
    assert Number(digit, t[..1]) == n / 10;
  }

  lemma ReadTwo(digit: char -> Option<nat>, k: Group, least: nat, next: Pattern, n: nat, rest: string, g: Captures)
    requires DigitLaw(digit) && n < 100 && (rest == "" || digit(rest[0]).None?) && least <= 2
    requires Match(digit, next, rest, g[k := n]).Some?
    ensures Match(digit, Digits(k, least, 2, next), Two(n) + rest, g) == Match(digit, next, rest, g[k := n])
  {
    TwoDigits(digit, n, rest);
  }

  lemma ReadSpaces(digit: char -> Option<nat>, next: Pattern, s: string, g: Captures, n: nat)
    requires LeadingSpaces(s) == n && Match(digit, next, s[n..], g).Some?
    ensures Match(digit, Spaces(next), s, g) == Match(digit, next, s[n..], g)
  {
  }

  /** After the minutes: no `Uhr`, all spaces taken. */
  lemma ReadAfterClock(digit: char -> Option<nat>, next: Pattern, s: string, g: Captures, n: nat)
    requires LeadingSpaces(s) == n && (s[n..] == "" || !Is(s[n], Letter('u')))
    requires Match(digit, next, s[n..], g).Some?
    ensures Match(digit, AfterClock(next), s, g) == Match(digit, next, s[n..], g)
  {
    var uhr := One(Letter('u'), One(Letter('h'), One(Letter('r'), next)));
    assert Match(digit, uhr, s[n..], g).None?;
    assert Match(digit, Either(uhr, next), s[n..], g) == Match(digit, next, s[n..], g);
    ReadSpaces(digit, Either(uhr, next), s, g, n);
  }

  function WithClock(g: Captures, hour: Group, minute: Group, c: Clock): Captures {
    g[hour := c.hour][minute := c.minute]
  }

  lemma ReadMinutes(digit: char -> Option<nat>, minute: Group, after: Pattern, n: nat, rest: string, g: Captures)
    requires DigitLaw(digit) && n < 100 && (rest == "" || digit(rest[0]).None?)
    requires Match(digit, after, rest, g[minute := n]).Some?
    ensures var s := [':'] + (Two(n) + rest);
      Match(digit, Either(One(Colon, Digits(minute, 2, 2, after)), after), s, g)
        == Match(digit, after, rest, g[minute := n])
  {
    ReadTwo(digit, minute, 2, after, n, rest, g);
    ReadOne(digit, Colon, Digits(minute, 2, 2, after), ':', Two(n) + rest, g);
  }

  lemma ClockTextIs(c: Clock, rest: string)
    requires ValidClock(c)
    ensures ClockText(c) + rest == Two(c.hour) + ([':'] + (Two(c.minute) + rest))
  {
  }

  lemma ReadTime(digit: char -> Option<nat>, hour: Group, minute: Group, next: Pattern, c: Clock, rest: string,
                 g: Captures)
    requires DigitLaw(digit) && ValidClock(c) && (rest == "" || digit(rest[0]).None?)
    requires Match(digit, AfterClock(next), rest, WithClock(g, hour, minute, c)).Some?
    ensures Match(digit, Time(hour, minute, next), ClockText(c) + rest, g)
         == Match(digit, AfterClock(next), rest, WithClock(g, hour, minute, c))
  {
    var after := AfterClock(next);
    ReadMinutes(digit, minute, after, c.minute, rest, g[hour := c.hour]);
    ReadTwo(digit, hour, 1, Either(One(Colon, Digits(minute, 2, 2, after)), after), c.hour,
            [':'] + (Two(c.minute) + rest), g);
    ClockTextIs(c, rest);
  }

  lemma TailEmpty(digit: char -> Option<nat>, g: Captures)
    ensures Match(digit, Tail(), "", g) == Some(g)
    ensures Match(digit, Until(Tail()), "", g) == None
    ensures Match(digit, AfterClock(Tail()), "", g) == Some(g)
  {
    assert LeadingSpaces("") == 0 && ""[0..] == "";
    ReadSpaces(digit, End, "", g, 0);
    var b := One(Letter('b'), One(Letter('i'), One(Letter('s'), UntilTime(Tail()))));
    assert Match(digit, Either(b, One(Dash, UntilTime(Tail()))), "", g) == None;
    ReadAfterClock(digit, Tail(), "", g, 0);
  }

  function Bis(c: Clock): string
    requires ValidClock(c)
  {
    "bis " + ClockText(c)
  }

  lemma SpaceThenClock(digit: char -> Option<nat>, c: Clock)
    requires DigitLaw(digit) && ValidClock(c)
    ensures var s := " " + ClockText(c); s[1..] == ClockText(c) && LeadingSpaces(s) == 1
  {
    TwoDigits(digit, c.hour, ":" + Two(c.minute));
    assert ClockText(c) == Two(c.hour) + (":" + Two(c.minute));
    assert (" " + ClockText(c))[1..] == ClockText(c);
  }

  lemma ReadUntilTime(digit: char -> Option<nat>, c: Clock, g: Captures)
    requires DigitLaw(digit) && ValidClock(c)
    ensures Match(digit, UntilTime(Tail()), " " + ClockText(c), g) == Some(WithClock(g, EndHour, EndMinute, c))
  {
    TailEmpty(digit, WithClock(g, EndHour, EndMinute, c));
    ReadTime(digit, EndHour, EndMinute, Tail(), c, "", g);
    assert ClockText(c) + "" == ClockText(c);
    SpaceThenClock(digit, c);
    ReadSpaces(digit, Time(EndHour, EndMinute, Tail()), " " + ClockText(c), g, 1);
  }

  lemma ReadOne(digit: char -> Option<nat>, k: Class, next: Pattern, c: char, s: string, g: Captures)
    requires Is(c, k)
    ensures Match(digit, One(k, next), [c] + s, g) == Match(digit, next, s, g)
  {
    assert ([c] + s)[1..] == s;
  }

  lemma BisText(c: Clock)
    requires ValidClock(c)
    ensures Bis(c) == ['b'] + (['i'] + (['s'] + (" " + ClockText(c))))
    ensures LeadingSpaces(Bis(c)) == 0 && Bis(c)[0..] == Bis(c)
  {
  }

  lemma ReadUntil(digit: char -> Option<nat>, c: Clock, g: Captures)
    requires DigitLaw(digit) && ValidClock(c)
    ensures Match(digit, Until(Tail()), Bis(c), g) == Some(WithClock(g, EndHour, EndMinute, c))
  {
    var time, s := UntilTime(Tail()), " " + ClockText(c);
    ReadUntilTime(digit, c, g);
    ReadOne(digit, Letter('s'), time, 's', s, g);
    ReadOne(digit, Letter('i'), One(Letter('s'), time), 'i', ['s'] + s, g);
    ReadOne(digit, Letter('b'), One(Letter('i'), One(Letter('s'), time)), 'b', ['i'] + (['s'] + s), g);
    var t := Bis(c);
    BisText(c);
    ReadSpaces(digit, Either(One(Letter('b'), One(Letter('i'), One(Letter('s'), time))), One(Dash, time)), t, g, 0);
  }

  function EndText(end: Option<Clock>): string
    requires end.Some? ==> ValidClock(end.value)
  {
    if end.Some? then " " + Bis(end.value) else ""
  }

  function Captured(g: Captures, start: Clock, end: Option<Clock>): Captures {
    var h := WithClock(g, StartHour, StartMinute, start);
    if end.Some? then WithClock(h, EndHour, EndMinute, end.value) else h
  }

  /** What follows the start time: nothing, or the end. */
  lemma ReadRest(digit: char -> Option<nat>, end: Option<Clock>, g: Captures)
    requires DigitLaw(digit) && (end.Some? ==> ValidClock(end.value))
    ensures Match(digit, AfterClock(Optional(Until(Tail()), Tail())), EndText(end), g)
         == Some(if end.Some? then WithClock(g, EndHour, EndMinute, end.value) else g)
  {
    if end.Some? {
      ReadUntil(digit, end.value, g);
      BisFollows(end.value);
      FirstHits(digit, Until(Tail()), Tail(), Bis(end.value), g);
      ReadAfterClock(digit, Either(Until(Tail()), Tail()), EndText(end), g, 1);
    } else {
      TailEmpty(digit, g);
      FirstMisses(digit, Until(Tail()), Tail(), "", g);
      ReadAfterClock(digit, Either(Until(Tail()), Tail()), "", g, 0);
    }
  }

  lemma FirstHits(digit: char -> Option<nat>, a: Pattern, b: Pattern, s: string, g: Captures)
    requires Match(digit, a, s, g).Some?
    ensures Match(digit, Either(a, b), s, g) == Match(digit, a, s, g)
  {
  }

  lemma FirstMisses(digit: char -> Option<nat>, a: Pattern, b: Pattern, s: string, g: Captures)
    requires Match(digit, a, s, g).None?
    ensures Match(digit, Either(a, b), s, g) == Match(digit, b, s, g)
  {
  }

  lemma BisFollows(c: Clock)
    requires ValidClock(c)
    ensures var s := " " + Bis(c); s[1..] == Bis(c) && LeadingSpaces(s) == 1 && s[1] == 'b'
  {
    var s := " " + Bis(c);
    assert s[1..] == Bis(c) && LeadingSpaces(s[1..]) == 0;
  }

  /** The text of a start and perhaps an end. */
  function ClockPart(start: Clock, end: Option<Clock>): string
    requires ValidClock(start) && (end.Some? ==> ValidClock(end.value))
  {
    ClockText(start) + EndText(end)
  }

  lemma ClockPartShape(digit: char -> Option<nat>, start: Clock, end: Option<Clock>)
    requires DigitLaw(digit) && ValidClock(start) && (end.Some? ==> ValidClock(end.value))
    ensures var s := ClockPart(start, end);
      && |s| >= 5 && s[2] == ':' && LeadingSpaces(s) == 0 && LeadingDigits(digit, s) == 2
      && '0' <= s[0] <= '9' && '0' <= s[1] <= '9'
      && (EndText(end) == "" || digit(EndText(end)[0]).None?)
  {
    TwoDigits(digit, start.hour, ":" + Two(start.minute) + EndText(end));
    assert ClockPart(start, end) == Two(start.hour) + (":" + Two(start.minute) + EndText(end));
    assert EndText(end) != "" ==> EndText(end)[0] == ' ';
  }

  lemma ReadStart(digit: char -> Option<nat>, start: Clock, end: Option<Clock>, g: Captures)
    requires DigitLaw(digit) && ValidClock(start) && (end.Some? ==> ValidClock(end.value))
    ensures Match(digit, StartTime(), ClockPart(start, end), g) == Some(Captured(g, start, end))
  {
    var s := ClockPart(start, end);
    ClockPartShape(digit, start, end);
    ReadRest(digit, end, WithClock(g, StartHour, StartMinute, start));
    ReadTime(digit, StartHour, StartMinute, Either(Until(Tail()), Tail()), start, EndText(end), g);
    assert s[0..] == s;
    ReadSpaces(digit, Time(StartHour, StartMinute, Either(Until(Tail()), Tail())), s, g, 0);
  }

  /** A blank, then the times, directly after the date. */
  lemma ReadClocks(digit: char -> Option<nat>, start: Clock, end: Option<Clock>, g: Captures)
    requires DigitLaw(digit) && ValidClock(start) && (end.Some? ==> ValidClock(end.value))
    ensures Match(digit, Clocks(true), " " + ClockPart(start, end), g) == Some(Captured(g, start, end))
  {
    var t := ClockPart(start, end);
    var s := " " + t;
    var st := StartTime();
    ClockPartShape(digit, start, end);
    ReadStart(digit, start, end, g);
    assert s[1..] == t && LeadingSpaces(s) == 1;
    NoSeparator(digit, t, g);
    ReadSpaces(digit, Either(Separated(), Tail()), s, g, 1);
  }

  /** The optional separator between date and time. */
  function Separated(): Pattern {
    Either(One(Letter('t'), StartTime()),
           Either(One(Comma, StartTime()), Either(One(Letter('u'), One(Letter('m'), StartTime())), StartTime())))
  }

  lemma NoSeparator(digit: char -> Option<nat>, t: string, g: Captures)
    requires t == "" || '0' <= t[0] <= '9'
    ensures Match(digit, Separated(), t, g) == Match(digit, StartTime(), t, g)
  {
    var st := StartTime();
    SkipOne(digit, Letter('u'), One(Letter('m'), st), st, t, g);
    SkipOne(digit, Comma, st, Either(One(Letter('u'), One(Letter('m'), st)), st), t, g);
    SkipOne(digit, Letter('t'), st, Either(One(Comma, st), Either(One(Letter('u'), One(Letter('m'), st)), st)), t, g);
  }

  lemma SkipOne(digit: char -> Option<nat>, k: Class, next: Pattern, other: Pattern, t: string, g: Captures)
    requires t == "" || !Is(t[0], k)
    ensures Match(digit, Either(One(k, next), other), t, g) == Match(digit, other, t, g)
  {
  }

  lemma NoClocks(digit: char -> Option<nat>, g: Captures)
    requires DigitLaw(digit)
    ensures Match(digit, Clocks(true), "", g) == Some(g)
  {
    var st := StartTime();
    TailEmpty(digit, g);
    assert LeadingSpaces("") == 0 && LeadingDigits(digit, "") == 0 && ""[0..] == "";
    assert Match(digit, st, "", g) == None;
    NoSeparator(digit, "", g);
    ReadSpaces(digit, Either(Separated(), Tail()), "", g, 0);
  }

  // ------------------------------------------------------------ the dates

  /** A day before its point: no such form starts with three digits, or with two and a colon. */
  lemma NotGerman(digit: char -> Option<nat>, next: Pattern, s: string, g: Captures)
    requires |s| >= 3 && s[1] != '.' && s[2] != '.'
    ensures Match(digit, GermanDate(next), s, g) == None
  {
    var dot := One(Dot, Digits(Month, 1, 2, One(Dot, Either(Digits(Year, 4, 4, next), Digits(Year, 2, 2, next)))));
    var n := LeadingDigits(digit, s);
    if n >= 1 {
      assert Match(digit, dot, s[1..], g[Group.Day := Number(digit, s[..1])]) == None;
      assert DigitsFrom(digit, Group.Day, 1, dot, s, g, 1) == None;
    }
    if n >= 2 {
      assert Match(digit, dot, s[2..], g[Group.Day := Number(digit, s[..2])]) == None;
      assert DigitsFrom(digit, Group.Day, 1, dot, s, g, 2) == None;
    }
  }

  lemma FourDigits(digit: char -> Option<nat>, y: nat, rest: string)
    requires DigitLaw(digit) && y < 10000 && (rest == "" || digit(rest[0]).None?)
    ensures var s := Two(y / 100) + Two(y % 100) + rest;
      && LeadingDigits(digit, s) == 4 && LeadingSpaces(s) == 0 && s[4..] == rest && Number(digit, s[..4]) == y
  {
    var a, b := Two(y / 100), Two(y % 100);
    var s := a + b + rest;
    TwoDigits(digit, y % 100, rest);
    NumberOfTwo(digit, y / 100);
    NumberOfTwo(digit, y % 100);
    assert s[1..][1..] == b + rest && s[0] == a[0] && s[1..][0] == a[1];
    assert LeadingDigits(digit, s[1..]) == 3;
    var f := s[..4];
    assert f[..3] == a + b[..1] && f[..3][..2] == a;
    assert Number(digit, f[..3]) == 10 * (y / 100) + (y % 100) / 10;
    assert s[4..] == rest;
  }

  function IsoDayAfter(next: Pattern): Pattern {
    One(Hyphen, Digits(IsoDay, 2, 2, next))
  }

  lemma ReadIsoDay(digit: char -> Option<nat>, next: Pattern, n: nat, rest: string, g: Captures)
    requires DigitLaw(digit) && n < 100 && (rest == "" || digit(rest[0]).None?)
    requires Match(digit, next, rest, g[IsoDay := n]).Some?
    ensures Match(digit, IsoDayAfter(next), ['-'] + (Two(n) + rest), g) == Match(digit, next, rest, g[IsoDay := n])
  {
    ReadTwo(digit, IsoDay, 2, next, n, rest, g);
    ReadOne(digit, Hyphen, Digits(IsoDay, 2, 2, next), '-', Two(n) + rest, g);
  }

  lemma ReadIsoMonth(digit: char -> Option<nat>, next: Pattern, n: nat, rest: string, g: Captures)
    requires DigitLaw(digit) && n < 100 && rest != "" && digit(rest[0]).None?
    requires Match(digit, next, rest, g[IsoMonth := n]).Some?
    ensures Match(digit, One(Hyphen, Digits(IsoMonth, 2, 2, next)), ['-'] + (Two(n) + rest), g)
         == Match(digit, next, rest, g[IsoMonth := n])
  {
    ReadTwo(digit, IsoMonth, 2, next, n, rest, g);
    ReadOne(digit, Hyphen, Digits(IsoMonth, 2, 2, next), '-', Two(n) + rest, g);
  }

  function DayText(d: Day, rest: string): string
    requires ValidDay(d)
  {
    ['-'] + (Two(d.day) + rest)
  }

  function MonthText(d: Day, rest: string): string
    requires ValidDay(d)
  {
    ['-'] + (Two(d.month) + DayText(d, rest))
  }

  lemma IsoShape(digit: char -> Option<nat>, d: Day, rest: string)
    requires DigitLaw(digit) && ValidDay(d)
    ensures var s := IsoText(d) + rest;
      && |s| >= 10 && '0' <= s[0] <= '9' && s[1] != '.' && s[2] != '.' && s[4..] == MonthText(d, rest)
      && LeadingDigits(digit, s) == 4 && LeadingSpaces(s) == 0 && Number(digit, s[..4]) == d.year
  {
    var s := IsoText(d) + rest;
    var m := MonthText(d, rest);
    assert s == Two(d.year / 100) + Two(d.year % 100) + m;
    FourDigits(digit, d.year, m);
  }

  function DateCaptures(g: Captures, d: Day): Captures {
    g[IsoYear := d.year][IsoMonth := d.month][IsoDay := d.day]
  }

  lemma ReadIso(digit: char -> Option<nat>, next: Pattern, d: Day, rest: string, g: Captures)
    requires DigitLaw(digit) && ValidDay(d) && (rest == "" || digit(rest[0]).None?)
    requires Match(digit, next, rest, DateCaptures(g, d)).Some?
    ensures Match(digit, IsoDate(next), IsoText(d) + rest, g) == Match(digit, next, rest, DateCaptures(g, d))
  {
    ReadIsoDay(digit, next, d.day, rest, g[IsoYear := d.year][IsoMonth := d.month]);
    ReadIsoMonth(digit, IsoDayAfter(next), d.month, DayText(d, rest), g[IsoYear := d.year]);
    IsoShape(digit, d, rest);
  }

  /** A normalized date with its times is read by the date form. */
  lemma ReadDateForm(digit: char -> Option<nat>, d: Day, rest: string, g: Captures)
    requires DigitLaw(digit) && ValidDay(d) && (rest == "" || digit(rest[0]).None?)
    requires Match(digit, Clocks(true), rest, DateCaptures(map[], d)) == Some(g)
    ensures Match(digit, DateForm(), IsoText(d) + rest, map[]) == Some(g)
    ensures Match(digit, Today(), IsoText(d) + rest, map[]) == None
  {
    var s, c := IsoText(d) + rest, Clocks(true);
    ReadIso(digit, c, d, rest, map[]);
    IsoShape(digit, d, rest);
    NotGerman(digit, c, s, map[]);
    assert Match(digit, Either(GermanDate(c), IsoDate(c)), s, map[]) == Some(g);
    assert s[0..] == s;
    ReadSpaces(digit, Either(GermanDate(c), IsoDate(c)), s, map[], 0);
    NotToday(digit, s);
  }

  lemma NotToday(digit: char -> Option<nat>, s: string)
    requires s != "" && '0' <= s[0] <= '9'
    ensures Match(digit, Today(), s, map[]) == None
  {
    assert LeadingSpaces(s) == 0 && s[0..] == s;
  }

  /** Times alone are no date. */
  lemma ClocksAreNoDate(digit: char -> Option<nat>, start: Clock, end: Option<Clock>)
    requires DigitLaw(digit) && ValidClock(start) && (end.Some? ==> ValidClock(end.value))
    ensures Match(digit, DateForm(), ClockPart(start, end), map[]) == None
    ensures Match(digit, Today(), ClockPart(start, end), map[]) == None
  {
    var s := ClockPart(start, end);
    ClockPartShape(digit, start, end);
    NotGerman(digit, Clocks(true), s, map[]);
    NotToday(digit, s);
    assert s[0..] == s;
    assert Match(digit, IsoDate(Clocks(true)), s, map[]) == None;
  }

  lemma ReadRange(digit: char -> Option<nat>, start: Clock, end: Clock)
    requires DigitLaw(digit) && ValidClock(start) && ValidClock(end)
    ensures Match(digit, RangeForm(), ClockPart(start, Some(end)), map[]) == Some(Captured(map[], start, Some(end)))
  {
    var s := ClockPart(start, Some(end));
    var h := WithClock(map[], StartHour, StartMinute, start);
    ClockPartShape(digit, start, Some(end));
    ReadUntil(digit, end, h);
    BisFollows(end);
    ReadAfterClock(digit, Until(Tail()), " " + Bis(end), h, 1);
    ReadTime(digit, StartHour, StartMinute, Until(Tail()), start, " " + Bis(end), map[]);
    assert s[0..] == s;
    ReadSpaces(digit, Time(StartHour, StartMinute, Until(Tail())), s, map[], 0);
  }

  /** Neither `bis` nor a dash is left to be found. */
  lemma NoUntil(digit: char -> Option<nat>, s: string, g: Captures)
    requires LeadingSpaces(s) == 0 && (s == "" || (!Is(s[0], Letter('u')) && !Is(s[0], Letter('b')) && !Is(s[0], Dash)))
    ensures Match(digit, AfterClock(Until(Tail())), s, g) == None
  {
    var time := UntilTime(Tail());
    assert s[0..] == s;
    var b := One(Letter('b'), One(Letter('i'), One(Letter('s'), time)));
    assert Match(digit, Either(b, One(Dash, time)), s, g) == None;
    assert Match(digit, Until(Tail()), s, g) == None;
    var uhr := One(Letter('u'), One(Letter('h'), One(Letter('r'), Until(Tail()))));
    assert Match(digit, Either(uhr, Until(Tail())), s, g) == None;
  }

  lemma ClockIsNoRange(digit: char -> Option<nat>, c: Clock)
    requires DigitLaw(digit) && ValidClock(c)
    ensures Match(digit, RangeForm(), ClockText(c), map[]) == None
  {
    var s := ClockText(c);
    TwoDigits(digit, c.hour, ":" + Two(c.minute));
    assert s == Two(c.hour) + (":" + Two(c.minute));
    assert s[2..] == ":" + Two(c.minute) && s[0..] == s;
    var until := Until(Tail());
    var minutes := One(Colon, Digits(StartMinute, 2, 2, AfterClock(until)));
    NoMinuteRange(digit, c, map[StartHour := c.hour]);
    NoUntil(digit, s[2..], map[StartHour := c.hour]);
    assert Match(digit, Either(minutes, AfterClock(until)), s[2..], map[StartHour := c.hour]) == None;
    var one := Number(digit, s[..1]);
    NoUntil(digit, s[1..], map[StartHour := one]);
    assert Match(digit, minutes, s[1..], map[StartHour := one]) == None;
    assert Match(digit, Either(minutes, AfterClock(until)), s[1..], map[StartHour := one]) == None;
    var g0: Captures := map[];
    assert g0[StartHour := one] == map[StartHour := one] && g0[StartHour := c.hour] == map[StartHour := c.hour];
    assert Match(digit, Time(StartHour, StartMinute, until), s, g0) == None;
  }

  lemma NoMinuteRange(digit: char -> Option<nat>, c: Clock, g: Captures)
    requires DigitLaw(digit) && ValidClock(c)
    ensures Match(digit, One(Colon, Digits(StartMinute, 2, 2, AfterClock(Until(Tail())))), ":" + Two(c.minute), g)
         == None
  {
    var t := ":" + Two(c.minute);
    TwoDigits(digit, c.minute, "");
    assert t[1..] == Two(c.minute) && Two(c.minute) + "" == Two(c.minute);
    NoUntil(digit, "", g[StartMinute := c.minute]);
  }

  lemma ReadClockForm(digit: char -> Option<nat>, c: Clock)
    requires DigitLaw(digit) && ValidClock(c)
    ensures Match(digit, ClockForm(), ClockText(c), map[]) == Some(Captured(map[], c, None))
  {
    var s := ClockText(c);
    TailEmpty(digit, WithClock(map[], StartHour, StartMinute, c));
    ReadTime(digit, StartHour, StartMinute, Tail(), c, "", map[]);
    TwoDigits(digit, c.hour, ":" + Two(c.minute));
    assert s == Two(c.hour) + (":" + Two(c.minute)) && s + "" == s && s[0..] == s;
    ReadSpaces(digit, Time(StartHour, StartMinute, Tail()), s, map[], 0);
  }

  // -------------------------------------------------------------- theorem

  lemma JoinedMore(parts: seq<string>, x: string)
    requires parts != []
    ensures Joined(parts + [x]) == Joined(parts) + " " + x
  {
    assert (parts + [x])[..|parts|] == parts;
  }

  lemma JoinedEnd(parts: seq<string>, c: Clock)
    requires parts != [] && ValidClock(c)
    ensures Joined(parts + ["bis", ClockText(c)]) == Joined(parts) + (" " + Bis(c))
  {
    assert parts + ["bis", ClockText(c)] == (parts + ["bis"]) + [ClockText(c)];
    JoinedMore(parts, "bis");
    JoinedMore(parts + ["bis"], ClockText(c));
    assert Joined(parts) + " " + "bis" + " " + ClockText(c) == Joined(parts) + (" " + Bis(c));
  }

  lemma ClockOnlyText(a: Answer)
    requires Proper(a) && a.date.None?
    ensures Normalized(a) == ClockPart(a.start.value, a.end)
  {
    var c := ClockText(a.start.value);
    if a.end.Some? {
      assert Parts(a) == [c] + ["bis", ClockText(a.end.value)];
      JoinedEnd([c], a.end.value);
    } else {
      assert Parts(a) == [c];
    }
  }

  lemma DatedText(a: Answer)
    requires Proper(a) && a.date.Some? && a.start.Some?
    ensures Normalized(a) == IsoText(a.date.value) + (" " + ClockPart(a.start.value, a.end))
  {
    var d, c := IsoText(a.date.value), ClockText(a.start.value);
    JoinedMore([d], c);
    assert [d] + [c] == [d, c];
    if a.end.Some? {
      assert Parts(a) == [d, c] + ["bis", ClockText(a.end.value)];
      JoinedEnd([d, c], a.end.value);
      assert d + " " + c + (" " + Bis(a.end.value)) == d + (" " + (c + (" " + Bis(a.end.value))));
    } else {
      assert Parts(a) == [d, c];
      assert d + " " + c == d + (" " + (c + ""));
    }
  }

  /** Where the date form is the one that matches, the facts are its own. */
  lemma DateFormFacts(digit: char -> Option<nat>, s: string, g: Captures, d: Day, reference: Option<Day>)
    requires Match(digit, Today(), s, map[]) == None && Match(digit, DateForm(), s, map[]) == Some(g)
    requires Year !in g && IsoYear in g && OnDay(g[IsoYear], Get(g, IsoMonth), Get(g, IsoDay)) == d
    ensures Parse(digit, s, reference) == Facts(Some(d), g)
  {
  }

  lemma CapturedFacts(a: Answer, g: Captures)
    requires Proper(a) && a.start.Some? && StartHour !in g && EndHour !in g
    ensures Facts(a.date, Captured(g, a.start.value, a.end)) == Some(a)
  {
  }

  lemma DateIsRead(digit: char -> Option<nat>, d: Day, reference: Option<Day>)
    requires DigitLaw(digit) && ValidDay(d)
    ensures Parse(digit, IsoText(d), reference) == Some(Answer(Some(d), None, None))
  {
    var g := DateCaptures(map[], d);
    NoClocks(digit, g);
    ReadDateForm(digit, d, "", g);
    assert IsoText(d) + "" == IsoText(d);
    DateFormFacts(digit, IsoText(d), g, d, reference);
  }

  lemma DatedIsRead(digit: char -> Option<nat>, a: Answer, reference: Option<Day>)
    requires DigitLaw(digit) && Proper(a) && a.date.Some? && a.start.Some?
    ensures Parse(digit, Normalized(a), reference) == Some(a)
  {
    var d := a.date.value;
    var g0 := DateCaptures(map[], d);
    var g := Captured(g0, a.start.value, a.end);
    DatedText(a);
    ReadClocks(digit, a.start.value, a.end, g0);
    ReadDateForm(digit, d, " " + ClockPart(a.start.value, a.end), g);
    DateFormFacts(digit, Normalized(a), g, d, reference);
    CapturedFacts(a, g0);
  }

  lemma ClocksAreRead(digit: char -> Option<nat>, a: Answer, reference: Option<Day>)
    requires DigitLaw(digit) && Proper(a) && a.date.None?
    ensures Parse(digit, Normalized(a), reference) == Some(a)
  {
    var c := a.start.value;
    ClockOnlyText(a);
    ClocksAreNoDate(digit, c, a.end);
    if a.end.Some? {
      ReadRange(digit, c, a.end.value);
    } else {
      assert ClockPart(c, None) == ClockText(c);
      ClockIsNoRange(digit, c);
      ReadClockForm(digit, c);
    }
    CapturedFacts(a, map[]);
  }

  lemma NormalizedIsRead(digit: char -> Option<nat>, a: Answer, reference: Option<Day>)
    requires DigitLaw(digit) && Proper(a)
    ensures Parse(digit, Normalized(a), reference) == Some(a)
  {
    if a.date.None? {
      ClocksAreRead(digit, a, reference);
    } else if a.start.Some? {
      DatedIsRead(digit, a, reference);
    } else {
      DateIsRead(digit, a.date.value, reference);
      assert Parts(a) == [IsoText(a.date.value)];
    }
  }

  /**
   Whatever answer was accepted under whatever reference date: its normal form is read as
   the same date, start and end under every reference date, and under none.
   */
  lemma RecoveryNeedsNoReference(digit: char -> Option<nat>, answer: string, reference: Option<Day>, later: Option<Day>)
    requires DigitLaw(digit) && Parse(digit, answer, reference).Some?
    ensures ValidAnswer(Parse(digit, answer, reference).value)
    ensures Parse(digit, Normalized(Parse(digit, answer, reference).value), later) == Parse(digit, answer, reference)
  {
    ParsedIsProper(digit, answer, reference);
    NormalizedIsRead(digit, Parse(digit, answer, reference).value, later);
  }
}
