/**
 What a written event and a written task say, property by property, once they are
 read back (src/mailhelp/external/icalendar_data.py).
 */
module ICalFields {
  import opened PyText
  import opened ICalText
  import opened ICalTree
  import opened ICalRoundTrip
  import opened ICalEvent
  import opened ICalTodo

  const NAMES: seq<string> :=
    ["SUMMARY", "DESCRIPTION", "LOCATION", "DTSTART", "DTEND", "STATUS", "X-MAILHELP-KEY"]

  /** The replaced properties, name by name. */
  function Parts(body: EventBody, key: string): seq<seq<Property>> {
    [OptionalText("SUMMARY", body.summary),
     When(body.description != "", TextProperty("DESCRIPTION", body.description)),
     When(body.location != "", TextProperty("LOCATION", body.location)),
     OptionalTime("DTSTART", body.start), OptionalTime("DTEND", body.end),
     When(body.cancelled, Property("STATUS", [], "CANCELLED")), [TextProperty("X-MAILHELP-KEY", key)]]
  }

  function Flatten(parts: seq<seq<Property>>): seq<Property> {
    if parts == [] then [] else Flatten(parts[..|parts| - 1]) + parts[|parts| - 1]
  }

  lemma FlattenSnoc(parts: seq<seq<Property>>, p: seq<Property>)
    ensures Flatten(parts + [p]) == Flatten(parts) + p
  {
    assert (parts + [p])[..|parts|] == parts;
  }

  lemma PartsAre(body: EventBody, key: string)
    ensures Flatten(Parts(body, key)) == Replacements(body, key)
  {
    var p := Parts(body, key);
    assert p[..1] == [] + [p[0]] && p[..2] == p[..1] + [p[1]] && p[..3] == p[..2] + [p[2]] && p[..4] == p[..3] + [p[3]];
    assert p[..5] == p[..4] + [p[4]] && p[..6] == p[..5] + [p[5]] && p == p[..6] + [p[6]];
    FlattenSnoc([], p[0]);
    FlattenSnoc(p[..1], p[1]);
    FlattenSnoc(p[..2], p[2]);
    FlattenSnoc(p[..3], p[3]);
    FlattenSnoc(p[..4], p[4]);
    FlattenSnoc(p[..5], p[5]);
    FlattenSnoc(p[..6], p[6]);
    assert Flatten([]) + p[0] == p[0];
  }

  lemma NamesDiffer()
    ensures forall i, j :: 0 <= i < j < |NAMES| ==> NAMES[i] != NAMES[j]
  {
    assert |NAMES[0]| == 7 && |NAMES[1]| == 11 && |NAMES[2]| == 8 && |NAMES[3]| == 7 && |NAMES[4]| == 5;
    assert |NAMES[5]| == 6 && |NAMES[6]| == 14 && NAMES[0][0] == 'S' && NAMES[3][0] == 'D';
  }

  predicate Named(ps: seq<Property>, name: string) {
    forall i :: 0 <= i < |ps| ==> ps[i].name == name
  }

  lemma PartsNamed(body: EventBody, key: string)
    ensures |Parts(body, key)| == |NAMES| && forall i :: 0 <= i < |NAMES| ==> Named(Parts(body, key)[i], NAMES[i])
  {
  }

  lemma {:induction false} OnlyNamed(ps: seq<Property>, name: string)
    requires Named(ps, name)
    ensures Only(ps, name) == ps
  {
    if ps != [] {
      OnlyNamed(ps[1..], name);
      assert ps == [ps[0]] + ps[1..];
    }
  }

  lemma OnlyOther(ps: seq<Property>, own: string, name: string)
    requires Named(ps, own) && own != name
    ensures Only(ps, name) == []
  {
    OnlyAbsent(ps, name);
  }

  lemma {:induction false} OnlyOfParts(parts: seq<seq<Property>>, names: seq<string>, name: string)
    requires |parts| == |names| && forall i :: 0 <= i < |parts| ==> Named(parts[i], names[i])
    requires name !in names
    ensures Only(Flatten(parts), name) == []
  {
    if parts != [] {
      var n := |parts| - 1;
      OnlyOfParts(parts[..n], names[..n], name);
      OnlyConcat(Flatten(parts[..n]), parts[n], name);
      OnlyOther(parts[n], names[n], name);
    }
  }

  lemma {:induction false} OnlyOfPart(parts: seq<seq<Property>>, names: seq<string>, k: nat)
    requires |parts| == |names| && forall i :: 0 <= i < |parts| ==> Named(parts[i], names[i])
    requires k < |parts| && forall i, j :: 0 <= i < j < |names| ==> names[i] != names[j]
    ensures Only(Flatten(parts), names[k]) == parts[k]
  {
    var n := |parts| - 1;
    OnlyConcat(Flatten(parts[..n]), parts[n], names[k]);
    if k == n {
      OnlyOfParts(parts[..n], names[..n], names[k]);
      OnlyNamed(parts[n], names[k]);
      NothingBefore(parts[n]);
    } else {
      OnlyOfPart(parts[..n], names[..n], k);
      OnlyOther(parts[n], names[n], names[k]);
      assert parts[k] + [] == parts[k];
    }
  }

  lemma {:induction false} OnlyTrimmed(ps: seq<Property>, name: string)
    ensures Only(TrimProperties(ps), name) == TrimProperties(Only(ps, name))
  {
    if ps != [] {
      var head, rest := [ps[0]], ps[1..];
      OnlyTrimmed(rest, name);
      assert ps == head + rest;
      TrimConcat(head, rest);
      OnlyConcat(head, rest, name);
      OnlyConcat(TrimProperties(head), TrimProperties(rest), name);
      OnlyOfOne(ps[0], name);
      OnlyOfOne(TrimProperties(head)[0], name);
      TrimConcat(Only(head, name), Only(rest, name));
    }
  }

  lemma OnlyOfOne(p: Property, name: string)
    ensures Only([p], name) == if p.name == name then [p] else []
  {
    assert [p][1..] == [];
    assert Only([p], name) == (if p.name == name then [p] else []) + Only([], name);
  }

  /** The properties after the change, as they are read back. */
  function AfterUpdate(ps: seq<Property>, body: EventBody, key: string, n: nat, stamp: string): seq<Property> {
    Kept(ps, body, key) + TrimProperties(Written(body, key, n, stamp))
  }

  lemma NotBookkeeping()
    ensures forall i :: 0 <= i < |NAMES| ==> NAMES[i] !in BOOKKEEPING
  {
    assert |"SEQUENCE"| == 8 && |"DTSTAMP"| == 7 && |"LAST-MODIFIED"| == 13;
    assert NAMES[0][0] == 'S' && "DTSTAMP"[0] == 'D' && NAMES[3][5] == 'R' && "DTSTAMP"[5] == 'M';
    assert NAMES[2][0] == 'L' && "SEQUENCE"[0] == 'S';
    assert |NAMES[1]| == 11 && |NAMES[4]| == 5 && |NAMES[5]| == 6 && |NAMES[6]| == 14;
  }

  /** One replaced name: its new property if the body has one, otherwise what was there. */
  lemma FieldIs(ps: seq<Property>, body: EventBody, key: string, n: nat, stamp: string, k: nat)
    requires PlainBody(body) && k < |NAMES|
    ensures Only(AfterUpdate(ps, body, key, n, stamp), NAMES[k])
         == if Parts(body, key)[k] != [] then TrimProperties(Parts(body, key)[k]) else Only(ps, NAMES[k])
  {
    var name, part := NAMES[k], Parts(body, key)[k];
    PartsAre(body, key);
    PartsNamed(body, key);
    NamesDiffer();
    NotBookkeeping();
    OnlyOfPart(Parts(body, key), NAMES, k);
    if part != [] {
      HasName(Replacements(body, key), name);
      WrittenOnly(ps, body, key, n, stamp, name);
      NotWritten(n, stamp, name);
    } else {
      LacksName(Replacements(body, key), name);
      EndIsNoDuration(k);
      UntouchedNames(ps, body, key, n, stamp, name);
    }
  }

  lemma EndIsNoDuration(k: nat)
    requires k < |NAMES|
    ensures NAMES[k] != "DURATION"
  {
    assert |"DURATION"| == 8 && "DURATION"[0] == 'D' && NAMES[2][0] == 'L';
    assert |NAMES[0]| == 7 && |NAMES[1]| == 11 && |NAMES[3]| == 7 && |NAMES[4]| == 5 && |NAMES[5]| == 6;
  }

  lemma {:induction false} HasName(ps: seq<Property>, name: string)
    requires Only(ps, name) != []
    ensures name in Names(ps)
  {
    if ps[0].name != name {
      HasName(ps[1..], name);
      var i :| 0 <= i < |ps[1..]| && ps[1..][i].name == name;
      assert ps[i + 1].name == name;
    }
  }

  lemma {:induction false} LacksName(ps: seq<Property>, name: string)
    requires Only(ps, name) == []
    ensures name !in Names(ps)
  {
    if ps != [] {
      LacksName(ps[1..], name);
      forall i | 0 <= i < |ps| ensures ps[i].name != name {
        if i > 0 { assert ps[1..][i - 1] == ps[i] && ps[1..][i - 1].name in Names(ps[1..]); }
      }
    }
  }

  /** A name that is replaced or kept in the books has only what is written. */
  lemma WrittenOnly(ps: seq<Property>, body: EventBody, key: string, n: nat, stamp: string, name: string)
    requires name in ReplacedNames(body, key) + BOOKKEEPING
    ensures Only(AfterUpdate(ps, body, key, n, stamp), name)
         == TrimProperties(Only(Replacements(body, key), name)) + TrimProperties(Only(Bookkeeping(n, stamp), name))
  {
    var r, b := Replacements(body, key), Bookkeeping(n, stamp);
    OnlyConcat(Kept(ps, body, key), TrimProperties(r + b), name);
    OnlyWithout(ps, ReplacedNames(body, key) + BOOKKEEPING, name);
    OnlyTrimmed(r + b, name);
    OnlyConcat(r, b, name);
    TrimConcat(Only(r, name), Only(b, name));
    NothingBefore(TrimProperties(Only(r + b, name)));
  }

  lemma NotWritten(n: nat, stamp: string, name: string)
    requires name !in BOOKKEEPING
    ensures Only(Bookkeeping(n, stamp), name) == []
  {
    OnlyAbsent(Bookkeeping(n, stamp), name);
  }

  lemma GetOfOnly(ps: seq<Property>, name: string, p: Property)
    requires Only(ps, name) == [p]
    ensures Get(ps, name) == Some(p)
  {
    if ps[0].name != name { GetOfOnly(ps[1..], name, p); } else { assert Only(ps, name)[0] == ps[0]; }
  }

  /** A text of the body, written and read back. */
  predicate Says(ps: seq<Property>, name: string, value: string) {
    Only(ps, name) == [Property(name, [], RStrip(IcalText(value)))]
    && TextOf(ps, name) == Strip(ReplaceBreaks(value, "\n"))
  }

  /** A time of the body, as it was printed. */
  predicate IsAt(ps: seq<Property>, name: string, b: Boundary) {
    match b
    case Moment(v) => Only(ps, name) == [Property(name, [], RStrip(v))]
    case Day(v) => Only(ps, name) == [Property(name, [Param("VALUE", "DATE")], RStrip(v))]
  }

  lemma TextIsSaid(ps: seq<Property>, name: string, value: string)
    requires Only(ps, name) == TrimProperties([TextProperty(name, value)])
    ensures Says(ps, name, value)
  {
    var p := Property(name, [], RStrip(IcalText(value)));
    assert TrimProperties([TextProperty(name, value)]) == [p];
    GetOfOnly(ps, name, p);
    TextRoundTrip(value);
  }

  lemma TimeIsSaid(ps: seq<Property>, name: string, b: Boundary)
    requires Only(ps, name) == TrimProperties([TimeProperty(name, b)])
    ensures IsAt(ps, name, b)
  {
    var p := TimeProperty(name, b);
    assert TrimProperties([p]) == [p.(value := RStrip(p.value))];
  }

  /** The `k`th field of the body is given, or it is not. */
  lemma TextField(ps: seq<Property>, body: EventBody, key: string, n: nat, stamp: string, k: nat, value: string)
    requires PlainBody(body) && k < |NAMES| && Parts(body, key)[k] == [TextProperty(NAMES[k], value)]
    ensures Says(AfterUpdate(ps, body, key, n, stamp), NAMES[k], value)
  {
    FieldIs(ps, body, key, n, stamp, k);
    TextIsSaid(AfterUpdate(ps, body, key, n, stamp), NAMES[k], value);
  }

  lemma TimeField(ps: seq<Property>, body: EventBody, key: string, n: nat, stamp: string, k: nat, b: Boundary)
    requires PlainBody(body) && k < |NAMES| && Parts(body, key)[k] == [TimeProperty(NAMES[k], b)]
    ensures IsAt(AfterUpdate(ps, body, key, n, stamp), NAMES[k], b)
  {
    FieldIs(ps, body, key, n, stamp, k);
    TimeIsSaid(AfterUpdate(ps, body, key, n, stamp), NAMES[k], b);
  }

  lemma KeptField(ps: seq<Property>, body: EventBody, key: string, n: nat, stamp: string, k: nat)
    requires PlainBody(body) && k < |NAMES| && Parts(body, key)[k] == []
    ensures Only(AfterUpdate(ps, body, key, n, stamp), NAMES[k]) == Only(ps, NAMES[k])
  {
    FieldIs(ps, body, key, n, stamp, k);
  }

  lemma CancelledField(ps: seq<Property>, body: EventBody, key: string, n: nat, stamp: string)
    requires PlainBody(body) && body.cancelled
    ensures Only(AfterUpdate(ps, body, key, n, stamp), "STATUS") == [Property("STATUS", [], "CANCELLED")]
  {
    var p := Property("STATUS", [], "CANCELLED");
    assert Parts(body, key)[5] == [p] && RStrip("CANCELLED") == "CANCELLED";
    FieldIs(ps, body, key, n, stamp, 5);
    assert TrimProperties([p]) == [p];
  }

  /** The text of the body where there is one, the event's own otherwise. */
  predicate SaysOrKeeps(ps: seq<Property>, after: seq<Property>, name: string, value: Option<string>) {
    if value.Some? then Says(after, name, value.value) else Only(after, name) == Only(ps, name)
  }

  lemma TextFieldIs(ps: seq<Property>, body: EventBody, key: string, n: nat, stamp: string, k: nat,
                    value: Option<string>)
    requires PlainBody(body) && k < |NAMES|
    requires Parts(body, key)[k] == if value.Some? then [TextProperty(NAMES[k], value.value)] else []
    ensures SaysOrKeeps(ps, AfterUpdate(ps, body, key, n, stamp), NAMES[k], value)
  {
    if value.Some? {
      TextField(ps, body, key, n, stamp, k, value.value);
    } else {
      KeptField(ps, body, key, n, stamp, k);
    }
  }

  /** An empty text changes nothing. */
  function Given(value: string): Option<string> {
    if value == "" then None else Some(value)
  }

  lemma SummaryField(ps: seq<Property>, body: EventBody, key: string, n: nat, stamp: string)
    requires PlainBody(body)
    ensures SaysOrKeeps(ps, AfterUpdate(ps, body, key, n, stamp), "SUMMARY", body.summary)
  {
    TextFieldIs(ps, body, key, n, stamp, 0, body.summary);
  }

  lemma DescriptionField(ps: seq<Property>, body: EventBody, key: string, n: nat, stamp: string)
    requires PlainBody(body)
    ensures SaysOrKeeps(ps, AfterUpdate(ps, body, key, n, stamp), "DESCRIPTION", Given(body.description))
  {
    TextFieldIs(ps, body, key, n, stamp, 1, Given(body.description));
  }

  lemma LocationField(ps: seq<Property>, body: EventBody, key: string, n: nat, stamp: string)
    requires PlainBody(body)
    ensures SaysOrKeeps(ps, AfterUpdate(ps, body, key, n, stamp), "LOCATION", Given(body.location))
  {
    TextFieldIs(ps, body, key, n, stamp, 2, Given(body.location));
  }

  /**
   What an updated event says once it is read back: title, description and place of the
   body where it has them, the event's own otherwise.
   */
  lemma UpdateSays(ps: seq<Property>, body: EventBody, key: string, n: nat, stamp: string)
    requires PlainBody(body)
    ensures var after := AfterUpdate(ps, body, key, n, stamp);
      && SaysOrKeeps(ps, after, "SUMMARY", body.summary)
      && SaysOrKeeps(ps, after, "DESCRIPTION", Given(body.description))
      && SaysOrKeeps(ps, after, "LOCATION", Given(body.location))
  {
    SummaryField(ps, body, key, n, stamp);
    DescriptionField(ps, body, key, n, stamp);
    LocationField(ps, body, key, n, stamp);
  }

  /** The times and the cancellation of the body likewise, and always the key. */
  lemma UpdateTimes(ps: seq<Property>, body: EventBody, key: string, n: nat, stamp: string)
    requires PlainBody(body)
    ensures var after := AfterUpdate(ps, body, key, n, stamp);
      && (if body.start.Some? then IsAt(after, "DTSTART", body.start.value)
          else Only(after, "DTSTART") == Only(ps, "DTSTART"))
      && (if body.end.Some? then IsAt(after, "DTEND", body.end.value) else Only(after, "DTEND") == Only(ps, "DTEND"))
      && (if body.cancelled then Only(after, "STATUS") == [Property("STATUS", [], "CANCELLED")]
          else Only(after, "STATUS") == Only(ps, "STATUS"))
      && Says(after, "X-MAILHELP-KEY", key)
  {
    if body.start.Some? {
      TimeField(ps, body, key, n, stamp, 3, body.start.value);
    } else {
      KeptField(ps, body, key, n, stamp, 3);
    }
    if body.end.Some? {
      TimeField(ps, body, key, n, stamp, 4, body.end.value);
    } else {
      KeptField(ps, body, key, n, stamp, 4);
    }
    if body.cancelled {
      CancelledField(ps, body, key, n, stamp);
    } else {
      KeptField(ps, body, key, n, stamp, 5);
    }
    TextField(ps, body, key, n, stamp, 6, key);
  }

  /** The books: one time stamp of this update, and no other modification date. */
  lemma UpdateStamps(ps: seq<Property>, body: EventBody, key: string, n: nat, stamp: string)
    requires PlainBody(body)
    ensures var after := AfterUpdate(ps, body, key, n, stamp);
      && Only(after, "DTSTAMP") == [Property("DTSTAMP", [], RStrip(stamp))] && Only(after, "LAST-MODIFIED") == []
  {
    PartsAre(body, key);
    PartsNamed(body, key);
    NotBookkeeping();
    OnlyOfParts(Parts(body, key), NAMES, "DTSTAMP");
    OnlyOfParts(Parts(body, key), NAMES, "LAST-MODIFIED");
    WrittenOnly(ps, body, key, n, stamp, "DTSTAMP");
    WrittenOnly(ps, body, key, n, stamp, "LAST-MODIFIED");
    StampOnly(n, stamp);
  }

  lemma StampOnly(n: nat, stamp: string)
    ensures Only(Bookkeeping(n, stamp), "DTSTAMP") == [Property("DTSTAMP", [], stamp)]
    ensures Only(Bookkeeping(n, stamp), "LAST-MODIFIED") == []
  {
    var b := Bookkeeping(n, stamp);
    assert "SEQUENCE"[0] == 'S' && "DTSTAMP"[0] == 'D' && "LAST-MODIFIED"[0] == 'L';
    OnlyOfTwo(b[0], b[1], "DTSTAMP");
    OnlyOfTwo(b[0], b[1], "LAST-MODIFIED");
  }

  lemma NotReplaced(body: EventBody, key: string, name: string)
    requires PlainBody(body) && name !in NAMES
    ensures name !in Names(Replacements(body, key))
  {
    PartsAre(body, key);
    PartsNamed(body, key);
    OnlyOfParts(Parts(body, key), NAMES, name);
    LacksName(Replacements(body, key), name);
  }

  lemma NoNewEnd(body: EventBody, key: string)
    requires PlainBody(body) && body.end.None?
    ensures "DTEND" !in Names(Replacements(body, key))
  {
    PartsAre(body, key);
    PartsNamed(body, key);
    NamesDiffer();
    OnlyOfPart(Parts(body, key), NAMES, 4);
    LacksName(Replacements(body, key), "DTEND");
  }

  lemma NotOwned(replaced: set<string>, name: string)
    requires name !in replaced && name != "SEQUENCE" && name != "DTSTAMP" && name != "LAST-MODIFIED"
    ensures name !in replaced + BOOKKEEPING
  {
  }

  lemma OthersNotReplaced(body: EventBody, key: string, name: string)
    requires PlainBody(body) && name !in NAMES && (name == "DURATION" ==> body.end.None?)
    ensures name !in ReplacedNames(body, key)
  {
    NotReplaced(body, key, name);
    if name == "DURATION" {
      NoNewEnd(body, key);
    }
  }

  /** An update owns its seven fields, the books, and a DURATION beside a new end; every other name is kept. */
  lemma OthersAreKept(ps: seq<Property>, body: EventBody, key: string, n: nat, stamp: string, name: string)
    requires PlainBody(body) && name !in NAMES && name != "SEQUENCE" && name != "DTSTAMP" && name != "LAST-MODIFIED"
    requires name == "DURATION" ==> body.end.None?
    ensures Only(AfterUpdate(ps, body, key, n, stamp), name) == Only(ps, name)
  {
    OthersNotReplaced(body, key, name);
    NotOwned(ReplacedNames(body, key), name);
    UntouchedNames(ps, body, key, n, stamp, name);
  }

  // ----------------------------------------------------------------- tasks

  /** An open task is read exactly if there is one and nothing says that it is done. */
  lemma OpenExactly(calendar: Component, up: char -> string)
    ensures OpenTodo(calendar, up).Some? <==> (
      exists i :: 0 <= i < |calendar.children| && FirstOfName(calendar.children, "VTODO", i)
                  && NotDone(calendar.children[i].properties, up))
  {
    var cs := calendar.children;
    var k := FirstOfKind(cs, "VTODO");
    FirstIsFirst(cs, "VTODO");
    if k < |cs| && NotDone(cs[k].properties, up) { assert FirstOfName(cs, "VTODO", k); }
  }

  predicate NotDone(ps: seq<Property>, up: char -> string) {
    Get(ps, "COMPLETED").None?
    && Upper(TextOf(ps, "STATUS"), up) != "COMPLETED" && Upper(TextOf(ps, "STATUS"), up) != "CANCELLED"
  }

  predicate FirstOfName(cs: seq<Component>, name: string, i: nat) {
    i < |cs| && cs[i].name == name && forall j :: 0 <= j < i ==> cs[j].name != name
  }

  lemma {:induction false} FirstIsFirst(cs: seq<Component>, name: string)
    ensures var k := FirstOfKind(cs, name);
      && (k < |cs| ==> FirstOfName(cs, name, k))
      && (k == |cs| ==> forall j :: 0 <= j < |cs| ==> cs[j].name != name)
  {
    if cs != [] && cs[0].name != name {
      FirstIsFirst(cs[1..], name);
      forall j | 1 <= j < |cs| ensures cs[j] == cs[1..][j - 1] {
      }
    }
  }

  /** A written task carries its identity, the time it was written and its due time. */
  lemma TodoCarries(uid: string, title: string, description: string, due: Option<Boundary>, key: string, stamp: string)
    ensures var ps := TrimProperties(TodoProperties(uid, title, description, due, key, stamp));
      && Get(ps, "UID") == Some(Property("UID", [], RStrip(uid)))
      && Get(ps, "DTSTAMP") == Some(Property("DTSTAMP", [], RStrip(stamp)))
      && (due.None? ==> Get(ps, "DUE") == None)
      && (due.Some? ==> match due.value
                        case Moment(v) => Get(ps, "DUE") == Some(Property("DUE", [], RStrip(v)))
                        case Day(v) => Get(ps, "DUE") == Some(Property("DUE", [Param("VALUE", "DATE")], RStrip(v))))
  {
    var ps := TrimProperties(TodoProperties(uid, title, description, due, key, stamp));
    assert ps[0].name == "UID" && ps[1].name == "DTSTAMP" && ps[2].name == "SUMMARY";
    assert ps[3].name == "STATUS" && ps[4].name == "X-MAILHELP-KEY" && ps[5].name == "DESCRIPTION";
    assert |"UID"| == |"DUE"| == 3 && "UID"[0] == 'U' && "DUE"[0] == 'D' && |"DTSTAMP"| == |"SUMMARY"| == 7;
    TextAt(ps, 0);
    TextAt(ps, 1);
    if due.Some? { TextAt(ps, 6); } else { NoneNamed(ps, "DUE"); }
  }
}
