/**
 Resources Mailhelp writes: a confirmed change of an existing VEVENT and a new
 VTODO (src/mailhelp/external/icalendar_data.py). Time values arrive printed.
 */
module ICalEvent {
  import opened PyText
  import opened ICalText
  import opened ICalTree
  import opened ICalRoundTrip

  // --------------------------------------------------- reading a component

  function Get(ps: seq<Property>, name: string): Option<Property> {
    if ps == [] then None
    else if ps[0].name == name then Some(ps[0])
    else Get(ps[1..], name)
  }

  function TextOf(ps: seq<Property>, name: string): string {
    match Get(ps, name)
    case None => ""
    case Some(p) => UnescapeText(p.value)
  }

  /** The properties whose name is not in the set, in their order. */
  function Without(ps: seq<Property>, names: set<string>): seq<Property> {
    if ps == [] then []
    else (if ps[0].name in names then [] else [ps[0]]) + Without(ps[1..], names)
  }

  /** The properties of one name, in their order. */
  function Only(ps: seq<Property>, name: string): seq<Property> {
    if ps == [] then []
    else (if ps[0].name == name then [ps[0]] else []) + Only(ps[1..], name)
  }

  function FirstOfKind(cs: seq<Component>, kind: string): (i: nat)
    ensures i <= |cs|
    ensures i < |cs| ==> cs[i].name == kind
    ensures forall j :: 0 <= j < i ==> cs[j].name != kind
  {
    if cs == [] then 0 else if cs[0].name == kind then 0 else 1 + FirstOfKind(cs[1..], kind)
  }

  /** The only component of its kind, and not a recurring one. */
  predicate IsMaster(cs: seq<Component>, kind: string, i: nat) {
    && i < |cs|
    && (forall j :: 0 <= j < |cs| ==> (cs[j].name == kind <==> j == i))
    && Get(cs[i].properties, "RRULE").None? && Get(cs[i].properties, "RECURRENCE-ID").None?
  }

  /** The index of the master; `None` is the error, which comes exactly when there is none. */
  function Master(calendar: Component, kind: string): (r: Option<nat>)
    ensures r.Some? ==> IsMaster(calendar.children, kind, r.value)
    ensures r.None? ==> forall i: nat :: !IsMaster(calendar.children, kind, i)
  {
    var cs := calendar.children;
    var i := FirstOfKind(cs, kind);
    if i == |cs| then None
    else
      var rest := FirstOfKind(cs[i + 1..], kind);
      assert forall j :: i < j < |cs| ==> cs[j] == cs[i + 1..][j - i - 1];
      if rest < |cs[i + 1..]| || Get(cs[i].properties, "RRULE").Some?
         || Get(cs[i].properties, "RECURRENCE-ID").Some? then None
      else Some(i)
  }

  // ------------------------------------------------ a change of an event

  /** A boundary as printed: an instant in UTC or a calendar day. */
  datatype Boundary = Moment(value: string) | Day(value: string)

  datatype EventBody = EventBody(
    summary: Option<string>, description: string, location: string,
    start: Option<Boundary>, end: Option<Boundary>, cancelled: bool)

  function TimeProperty(name: string, b: Boundary): Property {
    match b
    case Moment(v) => Property(name, [], v)
    case Day(v) => Property(name, [Param("VALUE", "DATE")], v)
  }

  function TextProperty(name: string, value: string): Property {
    Property(name, [], IcalText(value))
  }

  function When(condition: bool, p: Property): seq<Property> {
    if condition then [p] else []
  }

  function OptionalText(name: string, value: Option<string>): seq<Property> {
    if value.Some? then [TextProperty(name, value.value)] else []
  }

  function OptionalTime(name: string, b: Option<Boundary>): seq<Property> {
    if b.Some? then [TimeProperty(name, b.value)] else []
  }

  function Replacements(body: EventBody, key: string): seq<Property> {
    OptionalText("SUMMARY", body.summary)
    + When(body.description != "", TextProperty("DESCRIPTION", body.description))
    + When(body.location != "", TextProperty("LOCATION", body.location))
    + OptionalTime("DTSTART", body.start)
    + OptionalTime("DTEND", body.end)
    + When(body.cancelled, Property("STATUS", [], "CANCELLED"))
    + [TextProperty("X-MAILHELP-KEY", key)]
  }

  function Names(ps: seq<Property>): set<string> {
    set i | 0 <= i < |ps| :: ps[i].name
  }

  function ReplacedNames(body: EventBody, key: string): set<string> {
    var names := Names(Replacements(body, key));
    if "DTEND" in names then names + {"DURATION"} else names
  }

  function Apply(ps: seq<Property>, body: EventBody, key: string): seq<Property> {
    Without(ps, ReplacedNames(body, key)) + Replacements(body, key)
  }

  const BOOKKEEPING: set<string> := {"SEQUENCE", "DTSTAMP", "LAST-MODIFIED"}

  /** The host language's digits: what `str.isdigit` accepts, and the decimal value that `int` reads. */
  datatype Digits = Digits(isDigit: char -> bool, value: char -> Option<nat>)

  /** Every decimal digit is accepted; beyond ASCII other characters may be, such as superscripts. */
  ghost predicate DigitsLaw(d: Digits) {
    DigitLaw(d.value)
    && forall c: char {:trigger d.isDigit(c)} ::
         && (d.value(c).Some? ==> d.isDigit(c))
         && (c as int < 128 && d.isDigit(c) ==> d.value(c).Some?)
  }

  predicate AllDigits(d: Digits, s: string) {
    s != "" && forall i :: 0 <= i < |s| ==> d.isDigit(s[i])
  }

  predicate AllDecimal(d: Digits, s: string) {
    forall i :: 0 <= i < |s| ==> d.value(s[i]).Some?
  }

  /** The next sequence number; `int` raises on a digit without decimal value. */
  function NextSequence(ps: seq<Property>, d: Digits): Option<nat> {
    match Get(ps, "SEQUENCE")
    case None => Some(1)
    case Some(p) =>
      var s := Strip(p.value);
      if !AllDigits(d, s) then Some(1)
      else if AllDecimal(d, s) then Some(Number(d.value, s) + 1)
      else None
  }

  function Bookkeeping(n: nat, stamp: string): seq<Property> {
    [Property("SEQUENCE", [], NatText(n)), Property("DTSTAMP", [], stamp)]
  }

  function Changed(ps: seq<Property>, body: EventBody, key: string, n: nat, stamp: string): seq<Property> {
    Without(Apply(ps, body, key), BOOKKEEPING) + Bookkeeping(n, stamp)
  }

  function UpdatedEvent(content: Content, body: EventBody, key: string, stamp: string, d: Digits, up: char -> string)
    : Option<Content>
  {
    match Parse(content, up)
    case Rejected => None
    case Calendar(root) =>
      match Master(root, "VEVENT")
      case None => None
      case Some(i) =>
        var event := root.children[i];
        match NextSequence(event.properties, d)
        case None => None
        case Some(n) =>
          var changed := event.(properties := Changed(event.properties, body, key, n, stamp));
          Some(Serialize(root.(children := root.children[i := changed])))
  }

  // ---------------------------------------------------- properties of lists

  lemma {:induction false} WithoutConcat(a: seq<Property>, b: seq<Property>, names: set<string>)
    ensures Without(a + b, names) == Without(a, names) + Without(b, names)
  {
    if a == [] {
      assert a + b == b;
    } else {
      assert (a + b)[1..] == a[1..] + b;
      WithoutConcat(a[1..], b, names);
    }
  }

  lemma {:induction false} WithoutTwice(ps: seq<Property>, a: set<string>, b: set<string>)
    ensures Without(Without(ps, a), b) == Without(ps, a + b)
  {
    if ps != [] {
      WithoutConcat(if ps[0].name in a then [] else [ps[0]], Without(ps[1..], a), b);
      WithoutTwice(ps[1..], a, b);
    }
  }

  lemma {:induction false} OnlyConcat(a: seq<Property>, b: seq<Property>, name: string)
    ensures Only(a + b, name) == Only(a, name) + Only(b, name)
  {
    if a == [] {
      assert a + b == b;
      NothingBefore(Only(b, name));
    } else {
      var head := if a[0].name == name then [a[0]] else [];
      assert (a + b)[0] == a[0] && (a + b)[1..] == a[1..] + b;
      OnlyConcat(a[1..], b, name);
      Associative(head, Only(a[1..], name), Only(b, name));
    }
  }

  lemma {:induction false} OnlyWithout(ps: seq<Property>, names: set<string>, name: string)
    ensures Only(Without(ps, names), name) == if name in names then [] else Only(ps, name)
  {
    if ps != [] {
      OnlyWithout(ps[1..], names, name);
      OnlyConcat(if ps[0].name in names then [] else [ps[0]], Without(ps[1..], names), name);
    }
  }

  lemma {:induction false} OnlyAbsent(ps: seq<Property>, name: string)
    requires forall i :: 0 <= i < |ps| ==> ps[i].name != name
    ensures Only(ps, name) == []
  {
    if ps != [] { OnlyAbsent(ps[1..], name); }
  }

  lemma {:induction false} WithoutIn(ps: seq<Property>, names: set<string>)
    ensures forall i :: 0 <= i < |Without(ps, names)| ==> Without(ps, names)[i] in ps
  {
    if ps != [] { WithoutIn(ps[1..], names); }
  }

  lemma {:induction false} WithoutAll(ps: seq<Property>, names: set<string>)
    requires forall i :: 0 <= i < |ps| ==> ps[i].name in names
    ensures Without(ps, names) == []
  {
    if ps != [] { WithoutAll(ps[1..], names); }
  }

  lemma {:induction false} WithoutNone(ps: seq<Property>, names: set<string>)
    requires forall i :: 0 <= i < |ps| ==> ps[i].name !in names
    ensures Without(ps, names) == ps
  {
    if ps != [] {
      WithoutNone(ps[1..], names);
      assert ps == [ps[0]] + ps[1..];
    }
  }

  // ------------------------------------------ what is written is printable

  predicate KeywordName(name: string) {
    && name != "" && name != "BEGIN" && name != "END"
    && forall i :: 0 <= i < |name| ==> 'A' <= name[i] <= 'Z' || name[i] == '-'
  }

  lemma KeywordNameGood(name: string, up: char -> string)
    requires CaseMapping(up) && KeywordName(name)
    ensures PlainField(name) && Fixed(name, up) && !IsSpace(name[0])
  {
  }

  /** A property Mailhelp writes: a fixed name, at most `VALUE=DATE`, one line of value. */
  predicate Writable(p: Property) {
    KeywordName(p.name) && p.params in {[], [Param("VALUE", "DATE")]} && SingleLine(p.value)
  }

  lemma WritableIsGood(p: Property, up: char -> string)
    requires CaseMapping(up) && Writable(p)
    ensures GoodProperty(p, up)
  {
    KeywordNameGood(p.name, up);
    if p.params != [] {
      KeywordNameGood("VALUE", up);
      KeywordNameGood("DATE", up);
      assert GoodParam(p.params[0], up);
    }
  }

  predicate PlainBoundary(b: Option<Boundary>) {
    b.Some? ==> SingleLine(b.value.value)
  }

  predicate PlainBody(body: EventBody) {
    PlainBoundary(body.start) && PlainBoundary(body.end)
  }

  /** The names Mailhelp's replacements can have. */
  const REPLACEABLE: set<string> :=
    {"SUMMARY", "DESCRIPTION", "LOCATION", "DTSTART", "DTEND", "STATUS", "X-MAILHELP-KEY"}

  predicate Replacing(ps: seq<Property>) {
    forall i :: 0 <= i < |ps| ==> Writable(ps[i]) && ps[i].name in REPLACEABLE
  }

  lemma ReplacingAll(a: seq<Property>, b: seq<Property>, c: seq<Property>, d: seq<Property>,
                     e: seq<Property>, f: seq<Property>, g: seq<Property>)
    requires Replacing(a) && Replacing(b) && Replacing(c) && Replacing(d)
    requires Replacing(e) && Replacing(f) && Replacing(g)
    ensures Replacing(a + b + c + d + e + f + g)
  {
  }

  lemma TextReplacing(name: string, value: string)
    requires KeywordName(name) && name in REPLACEABLE
    ensures Replacing([TextProperty(name, value)])
  {
    IcalTextIsEscaped(value);
    EscapedIsSingleLine(value);
  }

  lemma OptionalReplacing(name: string, value: Option<string>, b: Option<Boundary>)
    requires KeywordName(name) && name in REPLACEABLE && PlainBoundary(b)
    ensures Replacing(OptionalText(name, value)) && Replacing(OptionalTime(name, b))
  {
    if value.Some? { TextReplacing(name, value.value); }
  }

  lemma Keywords()
    ensures forall name :: name in REPLACEABLE ==> KeywordName(name)
  {
  }

  lemma ReplacementsReplacing(body: EventBody, key: string)
    requires PlainBody(body)
    ensures Replacing(Replacements(body, key))
  {
    var description := When(body.description != "", TextProperty("DESCRIPTION", body.description));
    var location := When(body.location != "", TextProperty("LOCATION", body.location));
    var status := When(body.cancelled, Property("STATUS", [], "CANCELLED"));
    Keywords();
    OptionalReplacing("SUMMARY", body.summary, None);
    TextReplacing("DESCRIPTION", body.description);
    TextReplacing("LOCATION", body.location);
    OptionalReplacing("DTSTART", None, body.start);
    OptionalReplacing("DTEND", None, body.end);
    TextReplacing("X-MAILHELP-KEY", key);
    ReplacingAll(OptionalText("SUMMARY", body.summary), description, location,
                 OptionalTime("DTSTART", body.start), OptionalTime("DTEND", body.end),
                 status, [TextProperty("X-MAILHELP-KEY", key)]);
  }

  lemma BookkeepingWritable(n: nat, stamp: string)
    requires SingleLine(stamp)
    ensures Writable(Property("SEQUENCE", [], NatText(n))) && Writable(Property("DTSTAMP", [], stamp))
  {
    DecimalOfText(n);
  }

  // ---------------------------------------- the changed event is read back

  function Kept(ps: seq<Property>, body: EventBody, key: string): seq<Property> {
    Without(ps, ReplacedNames(body, key) + BOOKKEEPING)
  }

  function Written(body: EventBody, key: string, n: nat, stamp: string): seq<Property> {
    Replacements(body, key) + Bookkeeping(n, stamp)
  }

  lemma Associative<T>(a: seq<T>, b: seq<T>, c: seq<T>)
    ensures (a + b) + c == a + (b + c)
  {
  }

  lemma ReplacingIsNotBookkeeping(ps: seq<Property>)
    requires Replacing(ps)
    ensures Without(ps, BOOKKEEPING) == ps
  {
    WithoutNone(ps, BOOKKEEPING);
  }

  lemma ChangedIsKeptThenWritten(ps: seq<Property>, body: EventBody, key: string, n: nat, stamp: string)
    requires PlainBody(body)
    ensures Changed(ps, body, key, n, stamp) == Kept(ps, body, key) + Written(body, key, n, stamp)
  {
    var r := Replacements(body, key);
    var names := ReplacedNames(body, key);
    ReplacementsReplacing(body, key);
    ReplacingIsNotBookkeeping(r);
    WithoutConcat(Without(ps, names), r, BOOKKEEPING);
    WithoutTwice(ps, names, BOOKKEEPING);
    Associative(Without(ps, names + BOOKKEEPING), r, Bookkeeping(n, stamp));
  }

  lemma WrittenWritable(body: EventBody, key: string, n: nat, stamp: string)
    requires PlainBody(body) && SingleLine(stamp)
    ensures forall i :: 0 <= i < |Written(body, key, n, stamp)| ==> Writable(Written(body, key, n, stamp)[i])
  {
    ReplacementsReplacing(body, key);
    BookkeepingWritable(n, stamp);
  }

  lemma TrimConcat(a: seq<Property>, b: seq<Property>)
    ensures TrimProperties(a + b) == TrimProperties(a) + TrimProperties(b)
  {
  }

  lemma ChangedGood(event: Component, body: EventBody, key: string, n: nat, stamp: string, up: char -> string)
    requires CaseMapping(up) && ReadTree(event, up) && PlainBody(body) && SingleLine(stamp)
    ensures var kept, written := Kept(event.properties, body, key), Written(body, key, n, stamp);
      && GoodProperties(kept + written, up)
      && TrimProperties(kept + written) == kept + TrimProperties(written)
  {
    var kept, written := Kept(event.properties, body, key), Written(body, key, n, stamp);
    WithoutIn(event.properties, ReplacedNames(body, key) + BOOKKEEPING);
    WrittenWritable(body, key, n, stamp);
    forall i | 0 <= i < |written| ensures GoodProperty(written[i], up) {
      WritableIsGood(written[i], up);
    }
    forall i | 0 <= i < |kept| ensures GoodProperty(kept[i], up) && RStrip(kept[i].value) == kept[i].value {
      assert kept[i] in event.properties;
    }
    TrimConcat(kept, written);
    assert TrimProperties(kept) == kept;
  }

  /** The calendar after the change, as it is read back. */
  function AfterChange(root: Component, i: nat, body: EventBody, key: string, n: nat, stamp: string): Component
    requires i < |root.children|
  {
    var event := root.children[i];
    root.(children := root.children[i := event.(properties :=
      Kept(event.properties, body, key) + TrimProperties(Written(body, key, n, stamp)))])
  }

  lemma {:induction false} TrimOneChild(cs: seq<Component>, i: nat, c: Component, up: char -> string)
    requires i < |cs| && forall j :: 0 <= j < |cs| ==> ReadTree(cs[j], up)
    ensures TrimChildren(cs[i := c]) == cs[i := Trim(c)]
  {
    SetOne(cs, i, c);
    SetOne(cs, i, Trim(c));
    if i == 0 {
      ReadChildrenGood(cs[1..], up);
      TrimFirst(c, cs[1..]);
    } else {
      ReadTreeIsGood(cs[0], up);
      TrimOneChild(cs[1..], i - 1, c, up);
      TrimFirst(cs[0], cs[1..][i - 1 := c]);
    }
  }

  lemma SetOne<T>(s: seq<T>, i: nat, x: T)
    requires i < |s|
    ensures s[i := x] == if i == 0 then [x] + s[1..] else [s[0]] + s[1..][i - 1 := x]
  {
  }

  lemma TrimFirst(c: Component, rest: seq<Component>)
    ensures TrimChildren([c] + rest) == [Trim(c)] + TrimChildren(rest)
  {
    assert ([c] + rest)[0] == c && ([c] + rest)[1..] == rest;
  }

  lemma ReplacedChildGood(root: Component, i: nat, c: Component, up: char -> string)
    requires ReadTree(root, up) && i < |root.children| && Good(c, up)
    ensures Good(root.(children := root.children[i := c]), up)
    ensures Trim(root.(children := root.children[i := c])) == root.(children := root.children[i := Trim(c)])
  {
    ReadTreeIsGood(root, up);
    TrimOneChild(root.children, i, c, up);
    assert TrimProperties(root.properties) == root.properties;
  }

  /** An accepted resource, changed and read back, differs in nothing but the owned properties of its one event. */
  lemma UpdatedEventIsRead(content: Content, body: EventBody, key: string, stamp: string, d: Digits, up: char -> string)
    requires CaseMapping(up) && PlainBody(body) && SingleLine(stamp)
    requires UpdatedEvent(content, body, key, stamp, d, up).Some?
    requires UpdatedEvent(content, body, key, stamp, d, up).value.size <= 1_000_000
    ensures var root := Parse(content, up).root;
      var i := Master(root, "VEVENT").value;
      var n := NextSequence(root.children[i].properties, d).value;
      Parse(UpdatedEvent(content, body, key, stamp, d, up).value, up)
        == Calendar(AfterChange(root, i, body, key, n, stamp))
  {
    var root := Parse(content, up).root;
    var i := Master(root, "VEVENT").value;
    var event := root.children[i];
    var n := NextSequence(event.properties, d).value;
    var changed := event.(properties := Changed(event.properties, body, key, n, stamp));
    AcceptedIsReadTree(content, up);
    ReadTreeIsGood(event, up);
    ChangedIsKeptThenWritten(event.properties, body, key, n, stamp);
    ChangedGood(event, body, key, n, stamp, up);
    assert Good(changed, up);
    ReplacedChildGood(root, i, changed, up);
    assert Trim(changed) == AfterChange(root, i, body, key, n, stamp).children[i];
    PrintedIsRead(root.(children := root.children[i := changed]), up);
  }

  // -------------------------------------------- what the change preserves

  lemma ReplacementIsOwned(body: EventBody, key: string, i: nat)
    requires i < |Replacements(body, key)|
    ensures Replacements(body, key)[i].name in ReplacedNames(body, key)
  {
    assert Replacements(body, key)[i].name in Names(Replacements(body, key));
  }

  lemma WrittenIsOwned(body: EventBody, key: string, n: nat, stamp: string)
    requires PlainBody(body)
    ensures var written := TrimProperties(Written(body, key, n, stamp));
      forall i :: 0 <= i < |written| ==> written[i].name in ReplacedNames(body, key) + BOOKKEEPING
  {
    var r, b := Replacements(body, key), Bookkeeping(n, stamp);
    var all := Written(body, key, n, stamp);
    var written := TrimProperties(all);
    forall i | 0 <= i < |written| ensures written[i].name in ReplacedNames(body, key) + BOOKKEEPING {
      assert written[i].name == all[i].name;
      if i < |r| {
        ReplacementIsOwned(body, key, i);
      } else {
        assert all[i] == b[i - |r|] && b[i - |r|].name in BOOKKEEPING;
      }
    }
  }

  /** Every name Mailhelp does not replace keeps its properties, their values and their order. */
  lemma UntouchedNames(ps: seq<Property>, body: EventBody, key: string, n: nat, stamp: string, name: string)
    requires PlainBody(body) && name !in ReplacedNames(body, key) + BOOKKEEPING
    ensures Only(Kept(ps, body, key) + TrimProperties(Written(body, key, n, stamp)), name) == Only(ps, name)
  {
    var written := TrimProperties(Written(body, key, n, stamp));
    WrittenIsOwned(body, key, n, stamp);
    OnlyAbsent(written, name);
    OnlyConcat(Kept(ps, body, key), written, name);
    OnlyWithout(ps, ReplacedNames(body, key) + BOOKKEEPING, name);
    assert Only(ps, name) + [] == Only(ps, name);
  }

  /** All unowned properties together also keep their relative order. */
  lemma UntouchedOrder(ps: seq<Property>, body: EventBody, key: string, n: nat, stamp: string)
    requires PlainBody(body)
    ensures var owned := ReplacedNames(body, key) + BOOKKEEPING;
      Without(Kept(ps, body, key) + TrimProperties(Written(body, key, n, stamp)), owned) == Without(ps, owned)
  {
    var owned := ReplacedNames(body, key) + BOOKKEEPING;
    var written := TrimProperties(Written(body, key, n, stamp));
    WrittenIsOwned(body, key, n, stamp);
    WithoutConcat(Kept(ps, body, key), written, owned);
    WithoutTwice(ps, owned, owned);
    assert owned + owned == owned;
    WithoutAll(written, owned);
    assert Without(ps, owned) + [] == Without(ps, owned);
  }

  lemma TrimNat(n: nat)
    ensures RStrip(NatText(n)) == NatText(n) && Strip(NatText(n)) == NatText(n)
  {
    DecimalOfText(n);
    assert IsDigit(NatText(n)[0]) && IsDigit(NatText(n)[|NatText(n)| - 1]);
  }

  lemma BookkeepingTrimmed(n: nat, stamp: string)
    ensures Only(TrimProperties(Bookkeeping(n, stamp)), "SEQUENCE") == [Property("SEQUENCE", [], NatText(n))]
    ensures Only(TrimProperties(Bookkeeping(n, stamp)), "DURATION") == []
  {
    var sequence := Property("SEQUENCE", [], NatText(n));
    var dtstamp := Property("DTSTAMP", [], RStrip(stamp));
    TrimNat(n);
    assert TrimProperties(Bookkeeping(n, stamp)) == [sequence, dtstamp];
    assert "DTSTAMP"[1] == 'T' && "DURATION"[1] == 'U' && "SEQUENCE"[0] == 'S' && "DURATION"[0] == 'D';
    OnlyOfTwo(sequence, dtstamp, "SEQUENCE");
    OnlyOfTwo(sequence, dtstamp, "DURATION");
  }

  lemma OnlyOfTwo(a: Property, b: Property, name: string)
    ensures Only([a, b], name) == (if a.name == name then [a] else []) + (if b.name == name then [b] else [])
  {
    assert [a, b][1..] == [b] && [b][1..] == [];
    assert Only([b], name) == (if b.name == name then [b] else []) + Only([], name);
  }

  lemma NotReplaceable()
    ensures "SEQUENCE" !in REPLACEABLE && "DURATION" !in REPLACEABLE
  {
    assert "SEQUENCE"[0] == 'S' && "DURATION"[1] == 'U' && |"SEQUENCE"| == |"DURATION"| == 8;
    assert |"LOCATION"| == 8 && "LOCATION"[0] == 'L';
  }

  lemma ReplacingHasNo(ps: seq<Property>, name: string)
    requires Replacing(ps) && name !in REPLACEABLE
    ensures Only(TrimProperties(ps), name) == []
  {
    OnlyAbsent(TrimProperties(ps), name);
  }

  lemma OnlyAfter(ps: seq<Property>, body: EventBody, key: string, n: nat, stamp: string, name: string)
    requires PlainBody(body) && name !in REPLACEABLE && name in ReplacedNames(body, key) + BOOKKEEPING
    ensures Only(Kept(ps, body, key) + TrimProperties(Written(body, key, n, stamp)), name)
         == Only(TrimProperties(Bookkeeping(n, stamp)), name)
  {
    var r, b := Replacements(body, key), Bookkeeping(n, stamp);
    ReplacementsReplacing(body, key);
    ReplacingHasNo(r, name);
    TrimConcat(r, b);
    OnlyConcat(TrimProperties(r), TrimProperties(b), name);
    OnlyConcat(Kept(ps, body, key), TrimProperties(r) + TrimProperties(b), name);
    OnlyWithout(ps, ReplacedNames(body, key) + BOOKKEEPING, name);
    NothingBefore(Only(TrimProperties(b), name));
  }

  lemma NothingBefore<T>(s: seq<T>)
    ensures [] + s == s
  {
  }

  /** Exactly one SEQUENCE, and no DURATION beside a new DTEND. Without an old number the sequence starts at 1. */
  lemma SequenceAndDuration(ps: seq<Property>, body: EventBody, key: string, stamp: string, d: Digits)
    requires PlainBody(body) && NextSequence(ps, d).Some?
    ensures var n := NextSequence(ps, d).value;
      var after := Kept(ps, body, key) + TrimProperties(Written(body, key, n, stamp));
      && Only(after, "SEQUENCE") == [Property("SEQUENCE", [], NatText(n))]
      && Decimal(NatText(n)) == Some(n)
      && (Get(ps, "SEQUENCE").None? || !AllDigits(d, Strip(Get(ps, "SEQUENCE").value.value)) ==>
            Only(after, "SEQUENCE") == [Property("SEQUENCE", [], "1")])
      && (body.end.Some? ==> Only(after, "DURATION") == [])
  {
    var n := NextSequence(ps, d).value;
    DecimalOfText(n);
    BookkeepingTrimmed(n, stamp);
    NotReplaceable();
    OnlyAfter(ps, body, key, n, stamp, "SEQUENCE");
    if body.end.Some? {
      EndIsReplaced(body, key);
      OnlyAfter(ps, body, key, n, stamp, "DURATION");
    }
  }

  lemma NextOfPrinted(ps: seq<Property>, d: Digits, n: nat)
    requires DigitsLaw(d) && Get(ps, "SEQUENCE").Some?
    requires Prints(d.value, Strip(Get(ps, "SEQUENCE").value.value), n)
    ensures NextSequence(ps, d) == Some(n + 1)
  {
    var s := Strip(Get(ps, "SEQUENCE").value.value);
    NumberOfPrinted(d.value, s, n);
    forall i | 0 <= i < |s| ensures d.isDigit(s[i]) {
      assert d.value(s[i]).Some?;
    }
  }

  /** An old number `n`, printed in the digits of any script and in whatever white space, becomes `n` + 1. */
  lemma SequenceCountsUp(ps: seq<Property>, body: EventBody, key: string, stamp: string, d: Digits, n: nat)
    requires PlainBody(body) && DigitsLaw(d)
    requires Get(ps, "SEQUENCE").Some? && Prints(d.value, Strip(Get(ps, "SEQUENCE").value.value), n)
    ensures NextSequence(ps, d) == Some(n + 1)
    ensures Only(Kept(ps, body, key) + TrimProperties(Written(body, key, n + 1, stamp)), "SEQUENCE")
         == [Property("SEQUENCE", [], NatText(n + 1))]
  {
    NextOfPrinted(ps, d, n);
    SequenceAndDuration(ps, body, key, stamp, d);
  }

  /** An old sequence of digits that are not all decimal. */
  predicate Uncountable(ps: seq<Property>, d: Digits) {
    Get(ps, "SEQUENCE").Some?
    && var s := Strip(Get(ps, "SEQUENCE").value.value); AllDigits(d, s) && !AllDecimal(d, s)
  }

  /** The change is refused exactly for a rejected resource, one without a master, or an uncountable sequence. */
  lemma RefusedExactly(content: Content, body: EventBody, key: string, stamp: string, d: Digits, up: char -> string)
    ensures UpdatedEvent(content, body, key, stamp, d, up).None? <==> (
      var parsed := Parse(content, up);
      || parsed.Rejected?
      || forall i: nat :: IsMaster(parsed.root.children, "VEVENT", i) ==>
           Uncountable(parsed.root.children[i].properties, d))
  {
    var parsed := Parse(content, up);
    if parsed.Calendar? {
      var cs := parsed.root.children;
      var found := Master(parsed.root, "VEVENT");
      if found.Some? {
        forall i: nat | IsMaster(cs, "VEVENT", i) ensures i == found.value {
          assert cs[i].name == "VEVENT" <==> i == found.value;
        }
      }
    }
  }

  /** ASCII digits and a superscript two that has no decimal value. */
  function SomeDigits(): Digits {
    Digits(c => AsciiDigit(c).Some? || c as int == 0xB2, AsciiDigit)
  }

  /** The law leaves room for such a sequence: a superscript two is uncountable. */
  lemma SuperscriptIsUncountable()
    ensures DigitsLaw(SomeDigits())
    ensures Uncountable([Property("SEQUENCE", [], [0xB2 as char])], SomeDigits())
  {
    var s := [0xB2 as char];
    assert LStrip(s) == s && RStrip(s) == s;
    assert SomeDigits().isDigit(s[0]) && SomeDigits().value(s[0]).None?;
  }

  lemma EndIsReplaced(body: EventBody, key: string)
    requires body.end.Some?
    ensures "DURATION" in ReplacedNames(body, key)
  {
    var before := OptionalText("SUMMARY", body.summary)
      + When(body.description != "", TextProperty("DESCRIPTION", body.description))
      + When(body.location != "", TextProperty("LOCATION", body.location))
      + OptionalTime("DTSTART", body.start);
    var r := Replacements(body, key);
    assert r[|before|] == OptionalTime("DTEND", body.end)[0];
    assert r[|before|].name == "DTEND";
    assert "DTEND" in Names(r);
  }
}
