/** A new VTODO and what is read from it (src/mailhelp/external/icalendar_data.py). */
module ICalTodo {
  import opened PyText
  import opened ICalText
  import opened ICalTree
  import opened ICalRoundTrip
  import opened ICalEvent

  function CalendarOf(child: Component): Component {
    Component("VCALENDAR",
      [Property("VERSION", [], "2.0"), Property("PRODID", [], "-//Mailhelp//CalDAV//DE")], [child])
  }

  function TodoProperties(uid: string, title: string, description: string, due: Option<Boundary>,
                          key: string, stamp: string): seq<Property> {
    [Property("UID", [], uid), Property("DTSTAMP", [], stamp), TextProperty("SUMMARY", title),
     Property("STATUS", [], "NEEDS-ACTION"), TextProperty("X-MAILHELP-KEY", key),
     TextProperty("DESCRIPTION", description)]
    + OptionalTime("DUE", due)
  }

  function TodoResource(uid: string, title: string, description: string, due: Option<Boundary>,
                        key: string, stamp: string): Content {
    Serialize(CalendarOf(Component("VTODO", TodoProperties(uid, title, description, due, key, stamp), [])))
  }

  datatype Todo = Todo(content: string, description: string, key: string)

  function Take(s: string, n: nat): string {
    if |s| <= n then s else s[..n]
  }

  /** The first task of a calendar, unless it is completed or cancelled. */
  function OpenTodo(calendar: Component, up: char -> string): Option<Todo> {
    var i := FirstOfKind(calendar.children, "VTODO");
    if i == |calendar.children| then None
    else
      var ps := calendar.children[i].properties;
      var status := Upper(TextOf(ps, "STATUS"), up);
      if status == "COMPLETED" || status == "CANCELLED" || Get(ps, "COMPLETED").Some? then None
      else Some(Todo(Take(TextOf(ps, "SUMMARY"), 500), Take(TextOf(ps, "DESCRIPTION"), 4000),
                     TextOf(ps, "X-MAILHELP-KEY")))
  }

  predicate AllWritable(ps: seq<Property>) {
    forall i :: 0 <= i < |ps| ==> Writable(ps[i])
  }

  lemma TextWritable(name: string, value: string)
    requires KeywordName(name)
    ensures Writable(TextProperty(name, value))
  {
    IcalTextIsEscaped(value);
    EscapedIsSingleLine(value);
  }

  lemma PlainWritable(name: string, value: string)
    requires KeywordName(name) && SingleLine(value)
    ensures Writable(Property(name, [], value))
  {
  }

  lemma TodoKeywords()
    ensures KeywordName("UID") && KeywordName("DTSTAMP") && KeywordName("STATUS") && KeywordName("DUE")
  {
  }

  lemma TodoWritable(uid: string, title: string, description: string, due: Option<Boundary>, key: string, stamp: string)
    requires SingleLine(uid) && SingleLine(stamp) && PlainBoundary(due)
    ensures AllWritable(TodoProperties(uid, title, description, due, key, stamp))
  {
    var due' := OptionalTime("DUE", due);
    TodoKeywords();
    Keywords();
    PlainWritable("UID", uid);
    PlainWritable("DTSTAMP", stamp);
    TextWritable("SUMMARY", title);
    PlainWritable("STATUS", "NEEDS-ACTION");
    TextWritable("X-MAILHELP-KEY", key);
    TextWritable("DESCRIPTION", description);
    assert AllWritable(due');
  }

  lemma HeadGood(up: char -> string)
    requires CaseMapping(up)
    ensures GoodProperty(Property("VERSION", [], "2.0"), up)
    ensures GoodProperty(Property("PRODID", [], "-//Mailhelp//CalDAV//DE"), up)
  {
    VersionWritable();
    ProdidWritable();
    WritableIsGood(Property("VERSION", [], "2.0"), up);
    WritableIsGood(Property("PRODID", [], "-//Mailhelp//CalDAV//DE"), up);
  }

  lemma VersionWritable()
    ensures Writable(Property("VERSION", [], "2.0"))
  {
    assert KeywordName("VERSION");
  }

  lemma ProdidWritable()
    ensures Writable(Property("PRODID", [], "-//Mailhelp//CalDAV//DE"))
  {
    ProdidName();
    ProdidLine();
  }

  lemma ProdidName()
    ensures KeywordName("PRODID")
  {
  }

  lemma ProdidLine()
    ensures SingleLine("-//Mailhelp//CalDAV//DE")
  {
  }

  lemma TodoNameGood(up: char -> string)
    requires CaseMapping(up)
    ensures GoodName("VTODO", up)
  {
  }

  lemma CapitalsGood(name: string, up: char -> string)
    requires CaseMapping(up) && name != "" && forall i :: 0 <= i < |name| ==> 'A' <= name[i] <= 'Z'
    ensures GoodName(name, up)
  {
    assert RStrip(name) == name && LStrip(name) == name;
  }

  lemma CalendarNameGood(up: char -> string)
    requires CaseMapping(up)
    ensures GoodName("VCALENDAR", up)
  {
    CapitalsGood("VCALENDAR", up);
  }

  lemma WritableTodoGood(ps: seq<Property>, up: char -> string)
    requires CaseMapping(up) && AllWritable(ps)
    ensures Good(Component("VTODO", ps, []), up)
  {
    forall i | 0 <= i < |ps| ensures GoodProperty(ps[i], up) {
      WritableIsGood(ps[i], up);
    }
    TodoNameGood(up);
  }

  lemma WritableCalendarGood(ps: seq<Property>, up: char -> string)
    requires CaseMapping(up) && AllWritable(ps)
    ensures Good(CalendarOf(Component("VTODO", ps, [])), up)
    ensures Trim(CalendarOf(Component("VTODO", ps, [])))
         == CalendarOf(Component("VTODO", TrimProperties(ps), []))
  {
    var todo := Component("VTODO", ps, []);
    WritableTodoGood(ps, up);
    HeadGood(up);
    CalendarNameGood(up);
    HeadTrimmed(todo);
    OneChildTrimmed(todo);
  }

  lemma OneChildTrimmed(c: Component)
    ensures TrimChildren([c]) == [Trim(c)] && TrimChildren([]) == []
  {
    assert [c][1..] == [];
  }

  lemma HeadTrimmed(todo: Component)
    ensures TrimProperties(CalendarOf(todo).properties) == CalendarOf(todo).properties
  {
    assert RStrip("2.0") == "2.0" && RStrip("-//Mailhelp//CalDAV//DE") == "-//Mailhelp//CalDAV//DE";
  }

  /** The text of the property at index `k`, when no earlier one has its name. */
  lemma TextAt(ps: seq<Property>, k: nat)
    requires k < |ps| && forall i :: 0 <= i < k ==> ps[i].name != ps[k].name
    ensures Get(ps, ps[k].name) == Some(ps[k])
  {
    if k > 0 { TextAt(ps[1..], k - 1); }
  }

  lemma NoneNamed(ps: seq<Property>, name: string)
    requires forall i :: 0 <= i < |ps| ==> ps[i].name != name
    ensures Get(ps, name) == None
  {
    if ps != [] { NoneNamed(ps[1..], name); }
  }

  lemma TodoNames(uid: string, title: string, description: string, due: Option<Boundary>, key: string, stamp: string)
    ensures var ps := TrimProperties(TodoProperties(uid, title, description, due, key, stamp));
      && Get(ps, "SUMMARY") == Some(Property("SUMMARY", [], RStrip(IcalText(title))))
      && Get(ps, "STATUS") == Some(Property("STATUS", [], RStrip("NEEDS-ACTION")))
      && Get(ps, "X-MAILHELP-KEY") == Some(Property("X-MAILHELP-KEY", [], RStrip(IcalText(key))))
      && Get(ps, "DESCRIPTION") == Some(Property("DESCRIPTION", [], RStrip(IcalText(description))))
      && Get(ps, "COMPLETED") == None
  {
    var ps := TrimProperties(TodoProperties(uid, title, description, due, key, stamp));
    assert ps[0].name == "UID" && ps[1].name == "DTSTAMP" && ps[2].name == "SUMMARY";
    assert ps[3].name == "STATUS" && ps[4].name == "X-MAILHELP-KEY" && ps[5].name == "DESCRIPTION";
    assert "SUMMARY"[0] == 'S' && "DTSTAMP"[0] == 'D';
    TextAt(ps, 2);
    TextAt(ps, 3);
    TextAt(ps, 4);
    TextAt(ps, 5);
    forall i | 0 <= i < |ps| ensures ps[i].name != "COMPLETED" {
      assert i >= 6 ==> ps[i].name == "DUE";
    }
    NoneNamed(ps, "COMPLETED");
  }

  lemma StatusIsOpen(up: char -> string)
    requires CaseMapping(up)
    ensures Upper(UnescapeText(RStrip("NEEDS-ACTION")), up) == "NEEDS-ACTION"
  {
    var s := "NEEDS-ACTION";
    assert RStrip(s) == s && Strip(s) == s && Fixed(s, up);
    UnescapedPlain(s);
    UpperFixed(s, up);
  }

  lemma {:induction false} UnescapedPlain(s: string)
    requires '\\' !in s
    ensures Unescaped(s) == s
  {
    if s != "" { UnescapedPlain(s[1..]); }
  }

  lemma TodoIsOpened(uid: string, title: string, description: string, due: Option<Boundary>,
                     key: string, stamp: string, up: char -> string)
    requires CaseMapping(up)
    ensures var ps := TrimProperties(TodoProperties(uid, title, description, due, key, stamp));
      OpenTodo(CalendarOf(Component("VTODO", ps, [])), up) == Some(Todo(
        Take(Strip(ReplaceBreaks(title, "\n")), 500),
        Take(Strip(ReplaceBreaks(description, "\n")), 4000),
        Strip(ReplaceBreaks(key, "\n"))))
  {
    var ps := TrimProperties(TodoProperties(uid, title, description, due, key, stamp));
    TodoNames(uid, title, description, due, key, stamp);
    StatusIsOpen(up);
    TextRoundTrip(title);
    TextRoundTrip(description);
    TextRoundTrip(key);
    assert FirstOfKind([Component("VTODO", ps, [])], "VTODO") == 0;
    assert "NEEDS-ACTION"[0] == 'N';
  }

  /**
   Title, description and key of a written task come back with `\n` line breaks,
   stripped and cut to their limits, whatever characters they contain.
   */
  lemma TodoRoundTrip(uid: string, title: string, description: string, due: Option<Boundary>,
                      key: string, stamp: string, up: char -> string)
    requires CaseMapping(up) && SingleLine(uid) && SingleLine(stamp) && PlainBoundary(due)
    requires TodoResource(uid, title, description, due, key, stamp).size <= 1_000_000
    ensures var r := Parse(TodoResource(uid, title, description, due, key, stamp), up);
      && r.Calendar?
      && OpenTodo(r.root, up) == Some(Todo(
           Take(Strip(ReplaceBreaks(title, "\n")), 500),
           Take(Strip(ReplaceBreaks(description, "\n")), 4000),
           Strip(ReplaceBreaks(key, "\n"))))
  {
    var ps := TodoProperties(uid, title, description, due, key, stamp);
    TodoWritable(uid, title, description, due, key, stamp);
    WritableCalendarGood(ps, up);
    PrintedIsRead(CalendarOf(Component("VTODO", ps, [])), up);
    TodoIsOpened(uid, title, description, due, key, stamp, up);
  }
}
