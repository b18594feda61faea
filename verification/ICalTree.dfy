/**
 iCalendar component trees: the stack parser and the recursive printer of
 src/mailhelp/external/icalendar_data.py.

 `up` is the upper-case mapping of a character. Python's mapping is context free
 but needs the Unicode tables; the few laws used here are `CaseMapping`.
 */
module ICalTree {
  import opened PyText
  import opened ICalText

  const MAX_RESOURCE_BYTES := 1_000_000

  datatype Param = Param(key: string, value: string)
  datatype Property = Property(name: string, params: seq<Param>, value: string)
  datatype Component = Component(name: string, properties: seq<Property>, children: seq<Component>)

  /** A resource as text, or as octets: their number and the text they decode to. */
  datatype Content = Text(text: string) | Octets(size: nat, text: string)

  datatype Parsed = Calendar(root: Component) | Rejected

  // ------------------------------------------------------------ upper case

  function Upper(s: string, up: char -> string): string {
    if s == "" then "" else up(s[0]) + Upper(s[1..], up)
  }

  /** Characters with a meaning in the syntax; no case mapping makes or removes them. */
  predicate Structural(c: char) {
    c == ':' || c == ';' || c == '=' || IsSpace(c)
  }

  ghost predicate CaseMapping(up: char -> string) {
    && (forall c :: up(c) != "")
    && (forall c :: Structural(c) ==> up(c) == [c])
    && (forall c, d :: !Structural(c) && d in up(c) ==> !Structural(d) && up(d) == [d])
    && (forall c :: 'A' <= c <= 'Z' || c == '-' ==> up(c) == [c])
  }

  /** The laws hold of ASCII upper case, so they are not empty. */
  lemma AsciiCaseMapping()
    ensures CaseMapping((c: char) => if 'a' <= c <= 'z' then [(c as int - 32) as char] else [c])
  {
  }

  predicate Fixed(s: string, up: char -> string) {
    forall i :: 0 <= i < |s| ==> up(s[i]) == [s[i]]
  }

  lemma {:induction false} UpperFixed(s: string, up: char -> string)
    requires Fixed(s, up)
    ensures Upper(s, up) == s
  {
    if s != "" { UpperFixed(s[1..], up); }
  }

  lemma {:induction false} UpperIsFixed(s: string, up: char -> string)
    requires CaseMapping(up)
    ensures Fixed(Upper(s, up), up)
    ensures forall x :: Structural(x) && x !in s ==> x !in Upper(s, up)
  {
    if s != "" {
      UpperIsFixed(s[1..], up);
      assert forall x :: Structural(x) && x in up(s[0]) ==> x == s[0];
      forall d | d in up(s[0]) ensures up(d) == [d] {
        if Structural(s[0]) { assert d == s[0]; }
      }
    }
  }

  /** Upper case keeps white space where it is, so a stripped text stays stripped. */
  lemma {:induction false} UpperEnds(s: string, up: char -> string)
    requires CaseMapping(up)
    ensures s == "" <==> Upper(s, up) == ""
    ensures s != "" && !IsSpace(s[0]) ==> !IsSpace(Upper(s, up)[0])
    ensures s != "" && !IsSpace(s[|s| - 1]) ==> !IsSpace(Upper(s, up)[|Upper(s, up)| - 1])
  {
    if s != "" {
      assert up(s[0]) != "";
      assert forall d :: d in up(s[0]) && !IsSpace(s[0]) ==> !IsSpace(d) by {
        forall d | d in up(s[0]) && !IsSpace(s[0]) ensures !IsSpace(d) {
          if Structural(s[0]) { assert d == s[0]; } else { assert !Structural(d); }
        }
      }
      UpperEnds(s[1..], up);
      if |s| == 1 {
        assert Upper(s, up) == up(s[0]) + "" == up(s[0]);
        assert up(s[0])[|up(s[0])| - 1] in up(s[0]);
      }
      assert up(s[0])[0] in up(s[0]);
    }
  }

  lemma UpperStripped(s: string, up: char -> string)
    requires CaseMapping(up)
    ensures Strip(Upper(Strip(s), up)) == Upper(Strip(s), up)
  {
    StripEnds(s);
    UpperEnds(Strip(s), up);
  }

  // -------------------------------------------------------------- printing

  function ParamText(params: seq<Param>): string {
    if params == [] then ""
    else [';'] + params[0].key + ['='] + params[0].value + ParamText(params[1..])
  }

  function PropertyLine(p: Property): string {
    p.name + ParamText(p.params) + [':'] + p.value
  }

  function PropertyLines(ps: seq<Property>): seq<string> {
    if ps == [] then [] else [PropertyLine(ps[0])] + PropertyLines(ps[1..])
  }

  function Marker(keyword: string, name: string): string {
    keyword + [':'] + name
  }

  function Lines(c: Component): seq<string>
    decreases c, 1
  {
    [Marker("BEGIN", c.name)] + PropertyLines(c.properties) + ChildLines(c.children) + [Marker("END", c.name)]
  }

  function ChildLines(cs: seq<Component>): seq<string>
    decreases cs, 0
  {
    if cs == [] then [] else Lines(cs[0]) + ChildLines(cs[1..])
  }

  function Serialize(c: Component): Content {
    var text := Rendered(Lines(c));
    Octets(Utf8Length(text), text)
  }

  // --------------------------------------------------------------- reading

  /** `dict` built item by item: a known key keeps its place and takes the new value. */
  function DictPut(d: seq<Param>, p: Param): seq<Param> {
    if d == [] then [p]
    else if d[0].key == p.key then [p] + d[1..]
    else [d[0]] + DictPut(d[1..], p)
  }

  function Dict(items: seq<Param>, d: seq<Param>): seq<Param> {
    if items == [] then d else Dict(items[1..], DictPut(d, items[0]))
  }

  /** The fields that contain `=`, cut at the first one. */
  function RawParams(fields: seq<string>): seq<Param> {
    if fields == [] then []
    else
      var i := IndexOf(fields[0], '=');
      (if i == |fields[0]| then [] else [Param(fields[0][..i], fields[0][i + 1..])]) + RawParams(fields[1..])
  }

  function UpperKeys(params: seq<Param>, up: char -> string): seq<Param> {
    if params == [] then []
    else [Param(Upper(params[0].key, up), params[0].value)] + UpperKeys(params[1..], up)
  }

  function ReadParams(fields: seq<string>, up: char -> string): seq<Param> {
    Dict(UpperKeys(Dict(RawParams(fields), []), up), [])
  }

  datatype Line = Ignored | Begin(name: string) | End(name: string) | Entry(property: Property)

  function ReadLine(line: string, up: char -> string): Line {
    var i := IndexOf(line, ':');
    if i == |line| then Ignored
    else
      var fields, value := Split(line[..i], ';'), line[i + 1..];
      var name := Upper(fields[0], up);
      if name == "BEGIN" then Begin(Upper(Strip(value), up))
      else if name == "END" then End(Upper(Strip(value), up))
      else Entry(Property(name, ReadParams(fields[1..], up), value))
  }

  function WithProperty(stack: seq<Component>, p: Property): seq<Component>
    requires stack != []
  {
    var top := stack[|stack| - 1];
    stack[..|stack| - 1] + [top.(properties := top.properties + [p])]
  }

  /** A finished component becomes the last child of the one around it. */
  function WithChild(stack: seq<Component>, c: Component): seq<Component>
    requires stack != []
  {
    var top := stack[|stack| - 1];
    stack[..|stack| - 1] + [top.(children := top.children + [c])]
  }

  datatype State = State(stack: seq<Component>, root: Option<Component>)

  /** The effect of one line; `None` is an error. */
  function Step(line: string, st: State, up: char -> string): Option<State> {
    match ReadLine(line, up)
    case Ignored => Some(st)
    case Begin(name) =>
      if st.stack == [] && st.root.Some? then None
      else Some(st.(stack := st.stack + [Component(name, [], [])]))
    case End(name) =>
      if st.stack == [] || st.stack[|st.stack| - 1].name != name then None
      else Some(Closed(st))
    case Entry(p) =>
      if st.stack == [] then Some(st) else Some(st.(stack := WithProperty(st.stack, p)))
  }

  function Closed(st: State): State
    requires st.stack != []
  {
    var done, rest := st.stack[|st.stack| - 1], st.stack[..|st.stack| - 1];
    if rest == [] then State([], Some(done)) else State(WithChild(rest, done), st.root)
  }

  function Result(st: State): Parsed {
    if st.root.Some? && st.root.value.name == "VCALENDAR" && st.stack == [] then Calendar(st.root.value) else Rejected
  }

  function ParseLines(lines: seq<string>, st: State, up: char -> string): Parsed
    decreases |lines|
  {
    if lines == [] then Result(st)
    else
      match Step(lines[0], st, up)
      case None => Rejected
      case Some(next) => ParseLines(lines[1..], next, up)
  }

  function Parse(content: Content, up: char -> string): Parsed {
    if (if content.Text? then |content.text| else content.size) > MAX_RESOURCE_BYTES then Rejected
    else ParseLines(UnfoldIcal(content.text), State([], None), up)
  }

  /** The loop over the lines with its stack of open components. */
  method ParseCalendar(content: Content, up: char -> string) returns (result: Parsed)
    ensures result == Parse(content, up)
  {
    if (if content.Text? then |content.text| else content.size) > MAX_RESOURCE_BYTES {
      return Rejected;
    }
    var stack: seq<Component> := [];
    var root: Option<Component> := None;
    var lines := UnfoldIcal(content.text);
    for i := 0 to |lines|
      invariant ParseLines(lines[i..], State(stack, root), up) == ParseLines(lines, State([], None), up)
    {
      ghost var before := State(stack, root);
      ParseNext(lines, i, before, up);
      match ReadLine(lines[i], up) {
        case Ignored =>
        case Begin(name) =>
          if stack == [] && root.Some? {
            return Rejected;
          }
          stack := stack + [Component(name, [], [])];
        case End(name) =>
          if stack == [] || stack[|stack| - 1].name != name {
            return Rejected;
          }
          var done := stack[|stack| - 1];
          stack := stack[..|stack| - 1];
          if stack == [] {
            root := Some(done);
          } else {
            stack := WithChild(stack, done);
          }
        case Entry(p) =>
          if stack != [] {
            stack := WithProperty(stack, p);
          }
      }
      assert Step(lines[i], before, up) == Some(State(stack, root));
    }
    return if root.Some? && root.value.name == "VCALENDAR" && stack == [] then Calendar(root.value) else Rejected;
  }

  lemma ParseNext(lines: seq<string>, i: nat, st: State, up: char -> string)
    requires i < |lines|
    ensures ParseLines(lines[i..], st, up)
         == (match Step(lines[i], st, up) case None => Rejected case Some(next) => ParseLines(lines[i + 1..], next, up))
  {
    assert lines[i..][0] == lines[i] && lines[i..][1..] == lines[i + 1..];
  }

  // ------------------------------------------------------- printable trees

  predicate PlainField(s: string) {
    SingleLine(s) && ':' !in s && ';' !in s
  }

  predicate UniqueKeys(params: seq<Param>) {
    forall i, j :: 0 <= i < j < |params| ==> params[i].key != params[j].key
  }

  predicate GoodParam(p: Param, up: char -> string) {
    PlainField(p.key) && '=' !in p.key && Fixed(p.key, up) && PlainField(p.value)
  }

  predicate GoodParams(params: seq<Param>, up: char -> string) {
    UniqueKeys(params) && forall i :: 0 <= i < |params| ==> GoodParam(params[i], up)
  }

  /** A property whose printed line is read as this property. */
  predicate GoodProperty(p: Property, up: char -> string) {
    && PlainField(p.name) && Fixed(p.name, up) && p.name != "BEGIN" && p.name != "END"
    && (p.name != "" ==> !IsSpace(p.name[0]))
    && GoodParams(p.params, up)
    && SingleLine(p.value)
  }

  predicate GoodProperties(ps: seq<Property>, up: char -> string) {
    forall i :: 0 <= i < |ps| ==> GoodProperty(ps[i], up)
  }

  predicate GoodName(name: string, up: char -> string) {
    SingleLine(name) && Fixed(name, up) && Strip(name) == name
  }

  predicate Good(c: Component, up: char -> string)
    decreases c
  {
    && GoodName(c.name, up)
    && GoodProperties(c.properties, up)
    && forall i :: 0 <= i < |c.children| ==> Good(c.children[i], up)
  }

  /** The tree as it is read back: white space at the end of a value is lost. */
  function TrimProperties(ps: seq<Property>): (r: seq<Property>)
    ensures |r| == |ps|
    ensures forall i :: 0 <= i < |ps| ==> r[i] == ps[i].(value := RStrip(ps[i].value))
  {
    seq(|ps|, i requires 0 <= i < |ps| => ps[i].(value := RStrip(ps[i].value)))
  }

  function Trim(c: Component): Component
    decreases c, 1
  {
    Component(c.name, TrimProperties(c.properties), TrimChildren(c.children))
  }

  function TrimChildren(cs: seq<Component>): (r: seq<Component>)
    ensures |r| == |cs|
    decreases cs, 0
  {
    if cs == [] then [] else [Trim(cs[0])] + TrimChildren(cs[1..])
  }
}
