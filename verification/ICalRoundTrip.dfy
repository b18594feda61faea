/**
 The stack parser undoes the recursive printer on whole component trees, through
 folding, UTF-8 size limits and the trimming of lines.
 */
module ICalRoundTrip {
  import opened PyText
  import opened ICalText
  import opened ICalTree

  // ------------------------------------------------- one line is read back

  function ParamFields(params: seq<Param>): seq<string> {
    if params == [] then []
    else [params[0].key + ['='] + params[0].value] + ParamFields(params[1..])
  }

  lemma {:induction false} FieldsAfter(name: string, params: seq<Param>, up: char -> string)
    requires ';' !in name && forall i :: 0 <= i < |params| ==> GoodParam(params[i], up)
    ensures Split(name + ParamText(params), ';') == [name] + ParamFields(params)
    decreases |params|
  {
    if params == [] {
      assert name + "" == name;
      assert IndexOf(name, ';') == |name|;
    } else {
      var p := params[0];
      var field := p.key + ['='] + p.value;
      FieldsAfter(field, params[1..], up);
      SplitFirst(name, ';', field + ParamText(params[1..]));
      ParamTextHead(name, params);
    }
  }

  lemma ParamTextHead(name: string, params: seq<Param>)
    requires params != []
    ensures name + ParamText(params)
         == name + [';'] + ((params[0].key + ['='] + params[0].value) + ParamText(params[1..]))
  {
    var field, rest := params[0].key + ['='] + params[0].value, ParamText(params[1..]);
    assert ParamText(params) == [';'] + (field + rest);
    assert name + ([';'] + (field + rest)) == name + [';'] + (field + rest);
  }

  lemma {:induction false} RawParamsOfFields(params: seq<Param>, up: char -> string)
    requires forall i :: 0 <= i < |params| ==> GoodParam(params[i], up)
    ensures RawParams(ParamFields(params)) == params
    ensures UpperKeys(params, up) == params
  {
    if params != [] {
      var p := params[0];
      RawParamsOfFields(params[1..], up);
      FieldIsParam(p);
      RawParamsHead(p.key + ['='] + p.value, ParamFields(params[1..]));
      UpperFixed(p.key, up);
      assert params == [p] + params[1..];
    }
  }

  lemma RawParamsHead(field: string, rest: seq<string>)
    ensures var i := IndexOf(field, '=');
      i < |field| ==> RawParams([field] + rest) == [Param(field[..i], field[i + 1..])] + RawParams(rest)
  {
    assert ([field] + rest)[0] == field && ([field] + rest)[1..] == rest;
  }

  /** A field is cut at its first `=` into the parameter it was made of. */
  lemma FieldIsParam(p: Param)
    requires '=' !in p.key
    ensures var field := p.key + ['='] + p.value; var i := IndexOf(field, '=');
      i < |field| && Param(field[..i], field[i + 1..]) == p
  {
    var field := p.key + ['='] + p.value;
    IndexOfAppend(p.key, '=', p.value);
    assert field[..|p.key|] == p.key && field[|p.key| + 1..] == p.value;
  }

  lemma {:induction false} DictPutNew(d: seq<Param>, p: Param)
    requires forall i :: 0 <= i < |d| ==> d[i].key != p.key
    ensures DictPut(d, p) == d + [p]
  {
    if d != [] {
      DictPutNew(d[1..], p);
      assert d + [p] == [d[0]] + (d[1..] + [p]);
    }
  }

  lemma {:induction false} DictOfUnique(items: seq<Param>, d: seq<Param>)
    requires UniqueKeys(d + items)
    ensures Dict(items, d) == d + items
    decreases |items|
  {
    if items == [] {
      assert d + items == d;
    } else {
      var all := d + items;
      forall i | 0 <= i < |d| ensures d[i].key != items[0].key {
        assert all[i] == d[i] && all[|d|] == items[0];
      }
      DictPutNew(d, items[0]);
      assert (d + [items[0]]) + items[1..] == all;
      DictOfUnique(items[1..], d + [items[0]]);
    }
  }

  lemma ReadParamsOfFields(params: seq<Param>, up: char -> string)
    requires GoodParams(params, up)
    ensures ReadParams(ParamFields(params), up) == params
  {
    RawParamsOfFields(params, up);
    assert [] + params == params;
    DictOfUnique(params, []);
  }

  lemma {:induction false} ParamTextPlain(params: seq<Param>, up: char -> string)
    requires forall i :: 0 <= i < |params| ==> GoodParam(params[i], up)
    ensures ':' !in ParamText(params) && SingleLine(ParamText(params))
  {
    if params != [] { ParamTextPlain(params[1..], up); }
  }

  lemma ReadPropertyLine(p: Property, up: char -> string)
    requires GoodProperty(p, up)
    ensures ReadLine(PropertyLine(p), up) == Entry(p)
  {
    var head := p.name + ParamText(p.params);
    var line := PropertyLine(p);
    ParamTextPlain(p.params, up);
    IndexOfAppend(head, ':', p.value);
    assert line == head + [':'] + p.value;
    assert line[..|head|] == head && line[|head| + 1..] == p.value;
    FieldsAfter(p.name, p.params, up);
    ReadParamsOfFields(p.params, up);
    assert ([p.name] + ParamFields(p.params))[1..] == ParamFields(p.params);
    UpperFixed(p.name, up);
  }

  lemma ReadMarker(keyword: string, name: string, up: char -> string)
    requires CaseMapping(up) && GoodName(name, up) && (keyword == "BEGIN" || keyword == "END")
    ensures ReadLine(Marker(keyword, name), up) == if keyword == "BEGIN" then Begin(name) else End(name)
  {
    var line := Marker(keyword, name);
    KeywordPlain(keyword, up);
    IndexOfAppend(keyword, ':', name);
    assert line[..|keyword|] == keyword && line[|keyword| + 1..] == name;
    UpperFixed(name, up);
  }

  lemma LettersPlain(keyword: string, up: char -> string)
    requires CaseMapping(up) && forall i :: 0 <= i < |keyword| ==> 'A' <= keyword[i] <= 'Z'
    ensures ':' !in keyword && Split(keyword, ';') == [keyword] && Upper(keyword, up) == keyword
  {
    assert Fixed(keyword, up);
    UpperFixed(keyword, up);
    assert ';' !in keyword;
  }

  lemma KeywordPlain(keyword: string, up: char -> string)
    requires CaseMapping(up) && (keyword == "BEGIN" || keyword == "END")
    ensures ':' !in keyword && Split(keyword, ';') == [keyword] && Upper(keyword, up) == keyword
  {
    if keyword == "BEGIN" {
      LettersPlain("BEGIN", up);
    } else {
      LettersPlain("END", up);
    }
  }

  // ------------------------------------------------- a tree is read back

  function Attach(st: State, c: Component): State {
    if st.stack == [] then State([], Some(c)) else State(WithChild(st.stack, c), st.root)
  }

  /** The lines lead the parser from one state to another, whatever lines follow. */
  ghost predicate Reads(lines: seq<string>, from: State, to: State, up: char -> string) {
    forall rest :: ParseLines(lines + rest, from, up) == ParseLines(rest, to, up)
  }

  lemma ReadsNothing(st: State, up: char -> string)
    ensures Reads([], st, st, up)
  {
    forall rest: seq<string> ensures ParseLines([] + rest, st, up) == ParseLines(rest, st, up) {
      assert [] + rest == rest;
    }
  }

  lemma ReadsLine(line: string, from: State, to: State, up: char -> string)
    requires Step(line, from, up) == Some(to)
    ensures Reads([line], from, to, up)
  {
    forall rest: seq<string> ensures ParseLines([line] + rest, from, up) == ParseLines(rest, to, up) {
      assert ([line] + rest)[1..] == rest;
    }
  }

  lemma ReadsBoth(a: seq<string>, b: seq<string>, from: State, mid: State, to: State, up: char -> string)
    requires Reads(a, from, mid, up) && Reads(b, mid, to, up)
    ensures Reads(a + b, from, to, up)
  {
    forall rest: seq<string> ensures ParseLines((a + b) + rest, from, up) == ParseLines(rest, to, up) {
      assert (a + b) + rest == a + (b + rest);
      assert ParseLines(a + (b + rest), from, up) == ParseLines(b + rest, mid, up);
    }
  }

  /** The state while component `c` is open around `st`. */
  function Open(st: State, c: Component): State {
    State(st.stack + [c], st.root)
  }

  lemma Regroup<T>(a: seq<T>, b: seq<T>)
    requires b != []
    ensures (a + [b[0]]) + b[1..] == a + b
  {
  }

  lemma StepProperty(p: Property, st: State, c: Component, up: char -> string)
    requires GoodProperty(p, up)
    ensures Step(PropertyLine(p), Open(st, c), up) == Some(Open(st, c.(properties := c.properties + [p])))
  {
    ReadPropertyLine(p, up);
    assert (st.stack + [c])[..|st.stack|] == st.stack;
  }

  lemma {:induction false} ReadsProperties(ps: seq<Property>, st: State, c: Component, up: char -> string)
    requires GoodProperties(ps, up)
    ensures Reads(PropertyLines(ps), Open(st, c), Open(st, c.(properties := c.properties + ps)), up)
    decreases |ps|
  {
    if ps == [] {
      assert c.properties + ps == c.properties;
      ReadsNothing(Open(st, c), up);
    } else {
      var next := c.(properties := c.properties + [ps[0]]);
      StepProperty(ps[0], st, c, up);
      ReadsLine(PropertyLine(ps[0]), Open(st, c), Open(st, next), up);
      ReadsProperties(ps[1..], st, next, up);
      Regroup(c.properties, ps);
      var last := Open(st, c.(properties := c.properties + ps));
      ReadsBoth([PropertyLine(ps[0])], PropertyLines(ps[1..]), Open(st, c), Open(st, next), last, up);
    }
  }

  lemma AttachOpen(st: State, c: Component, child: Component)
    ensures Attach(Open(st, c), child) == Open(st, c.(children := c.children + [child]))
  {
    assert (st.stack + [c])[..|st.stack|] == st.stack;
  }

  lemma {:induction false} ReadsChildren(cs: seq<Component>, st: State, c: Component, up: char -> string)
    requires CaseMapping(up) && forall i :: 0 <= i < |cs| ==> Good(cs[i], up)
    ensures Reads(ChildLines(cs), Open(st, c), Open(st, c.(children := c.children + cs)), up)
    decreases cs, 0
  {
    if cs == [] {
      assert c.children + cs == c.children;
      ReadsNothing(Open(st, c), up);
    } else {
      var next := c.(children := c.children + [cs[0]]);
      ReadsTree(cs[0], Open(st, c), up);
      AttachOpen(st, c, cs[0]);
      ReadsChildren(cs[1..], st, next, up);
      Regroup(c.children, cs);
      var last := Open(st, c.(children := c.children + cs));
      ReadsBoth(Lines(cs[0]), ChildLines(cs[1..]), Open(st, c), Open(st, next), last, up);
    }
  }

  lemma StepBegin(name: string, st: State, up: char -> string)
    requires CaseMapping(up) && GoodName(name, up)
    requires st.stack == [] ==> st.root.None?
    ensures Step(Marker("BEGIN", name), st, up) == Some(Open(st, Component(name, [], [])))
  {
    ReadMarker("BEGIN", name, up);
  }

  lemma StepEnd(c: Component, st: State, up: char -> string)
    requires CaseMapping(up) && GoodName(c.name, up)
    ensures Step(Marker("END", c.name), Open(st, c), up) == Some(Attach(st, c))
  {
    ReadMarker("END", c.name, up);
    var stack := st.stack + [c];
    assert stack[|stack| - 1] == c && stack[..|stack| - 1] == st.stack;
    assert Closed(Open(st, c)) == Attach(st, c);
  }

  /** Reading the lines of a tree attaches exactly this tree, whatever comes before and after. */
  lemma {:induction false} ReadsTree(c: Component, st: State, up: char -> string)
    requires CaseMapping(up) && Good(c, up)
    requires st.stack == [] ==> st.root.None?
    ensures Reads(Lines(c), st, Attach(st, c), up)
    decreases c, 1
  {
    var begin, ps := [Marker("BEGIN", c.name)], PropertyLines(c.properties);
    var cs, end := ChildLines(c.children), [Marker("END", c.name)];
    var s0 := Open(st, Component(c.name, [], []));
    var s1 := Open(st, Component(c.name, [] + c.properties, []));
    var s2 := Open(st, Component(c.name, [] + c.properties, [] + c.children));
    assert s2 == Open(st, c) by {
      assert [] + c.properties == c.properties && [] + c.children == c.children;
    }
    StepBegin(c.name, st, up);
    StepEnd(c, st, up);
    ReadsLine(begin[0], st, s0, up);
    ReadsProperties(c.properties, st, Component(c.name, [], []), up);
    ReadsChildren(c.children, st, Component(c.name, [] + c.properties, []), up);
    ReadsLine(end[0], s2, Attach(st, c), up);
    ReadsBoth(begin, ps, st, s0, s1, up);
    ReadsBoth(begin + ps, cs, st, s1, s2, up);
    ReadsBoth(begin + ps + cs, end, st, s2, Attach(st, c), up);
  }

  // --------------------------------------- what folding and trimming leave

  lemma PropertyLineTrimmed(p: Property, up: char -> string)
    requires GoodProperty(p, up)
    ensures LineText(PropertyLine(p))
    ensures Strip(PropertyLine(p)) == PropertyLine(p.(value := RStrip(p.value)))
  {
    var head := p.name + ParamText(p.params) + [':'];
    ParamTextPlain(p.params, up);
    assert PropertyLine(p) == head + p.value;
    assert !IsSpace(head[0]);
    RStripAppend(head, p.value);
  }

  lemma MarkerTrimmed(keyword: string, name: string, up: char -> string)
    requires GoodName(name, up) && (keyword == "BEGIN" || keyword == "END")
    ensures LineText(Marker(keyword, name)) && Strip(Marker(keyword, name)) == Marker(keyword, name)
  {
    StripEnds(name);
    StripIdempotent(name);
    assert SingleLine(keyword) && !IsSpace(keyword[0]);
    RStripAppend(keyword + [':'], name);
  }

  lemma {:induction false} CleanProperties(ps: seq<Property>, up: char -> string)
    requires GoodProperties(ps, up)
    ensures LineTexts(PropertyLines(ps))
    ensures Clean(PropertyLines(ps)) == PropertyLines(TrimProperties(ps))
  {
    if ps != [] {
      CleanProperties(ps[1..], up);
      PropertyLineTrimmed(ps[0], up);
      assert TrimProperties(ps)[1..] == TrimProperties(ps[1..]);
    }
  }

  lemma {:induction false} LineTextsConcat(a: seq<string>, b: seq<string>)
    requires LineTexts(a) && LineTexts(b)
    ensures LineTexts(a + b)
  {
    if a == [] {
      assert a + b == b;
    } else {
      assert (a + b)[1..] == a[1..] + b;
      LineTextsConcat(a[1..], b);
    }
  }

  lemma {:induction false} CleanChildren(cs: seq<Component>, up: char -> string)
    requires forall i :: 0 <= i < |cs| ==> Good(cs[i], up)
    ensures LineTexts(ChildLines(cs)) && Clean(ChildLines(cs)) == ChildLines(TrimChildren(cs))
    decreases cs, 0
  {
    if cs != [] {
      CleanTree(cs[0], up);
      CleanChildren(cs[1..], up);
      LineTextsConcat(Lines(cs[0]), ChildLines(cs[1..]));
      CleanConcat(Lines(cs[0]), ChildLines(cs[1..]));
      assert TrimChildren(cs)[1..] == TrimChildren(cs[1..]);
    }
  }

  lemma CleanSingle(line: string)
    requires LineText(line) && Strip(line) == line
    ensures LineTexts([line]) && Clean([line]) == [line]
  {
    assert [line][1..] == [];
  }

  lemma {:induction false} CleanTree(c: Component, up: char -> string)
    requires Good(c, up)
    ensures LineTexts(Lines(c)) && Clean(Lines(c)) == Lines(Trim(c))
    decreases c, 1
  {
    var begin, ps := [Marker("BEGIN", c.name)], PropertyLines(c.properties);
    var cs, end := ChildLines(c.children), [Marker("END", c.name)];
    MarkerTrimmed("BEGIN", c.name, up);
    MarkerTrimmed("END", c.name, up);
    CleanSingle(begin[0]);
    CleanSingle(end[0]);
    CleanProperties(c.properties, up);
    CleanChildren(c.children, up);
    LineTextsConcat(begin, ps);
    LineTextsConcat(begin + ps, cs);
    LineTextsConcat(begin + ps + cs, end);
    CleanConcat(begin, ps);
    CleanConcat(begin + ps, cs);
    CleanConcat(begin + ps + cs, end);
  }

  /** Every printable calendar within the size limit is read back, up to trailing white space of values. */
  lemma PrintedIsRead(c: Component, up: char -> string)
    requires CaseMapping(up) && Good(c, up) && c.name == "VCALENDAR"
    requires Serialize(c).size <= 1_000_000
    ensures Parse(Serialize(c), up) == Calendar(Trim(c))
  {
    CleanTree(c, up);
    UnfoldRendered(Lines(c));
    TrimIsGood(c, up);
    var lines := Lines(Trim(c));
    assert lines + [] == lines;
    ReadsTree(Trim(c), State([], None), up);
  }

  lemma RStripGood(p: Property, up: char -> string)
    requires GoodProperty(p, up)
    ensures GoodProperty(p.(value := RStrip(p.value)), up)
  {
    RStripIsPrefix(p.value);
  }

  lemma {:induction false} TrimIsGood(c: Component, up: char -> string)
    requires Good(c, up)
    ensures Good(Trim(c), up)
    decreases c, 1
  {
    forall i | 0 <= i < |c.properties| ensures GoodProperty(TrimProperties(c.properties)[i], up) {
      RStripGood(c.properties[i], up);
    }
    TrimChildrenGood(c.children, up);
  }

  lemma {:induction false} TrimChildrenGood(cs: seq<Component>, up: char -> string)
    requires forall i :: 0 <= i < |cs| ==> Good(cs[i], up)
    ensures forall i :: 0 <= i < |cs| ==> Good(TrimChildren(cs)[i], up)
    decreases cs, 0
  {
    if cs != [] {
      TrimIsGood(cs[0], up);
      TrimChildrenGood(cs[1..], up);
    }
  }

  // ------------------------------------------- parsed trees are printable

  /** A printable tree whose values carry no trailing white space: what the parser produces. */
  predicate ReadTree(c: Component, up: char -> string)
    decreases c
  {
    && GoodName(c.name, up)
    && GoodProperties(c.properties, up)
    && (forall i :: 0 <= i < |c.properties| ==> RStrip(c.properties[i].value) == c.properties[i].value)
    && forall i :: 0 <= i < |c.children| ==> ReadTree(c.children[i], up)
  }

  lemma {:induction false} ReadTreeIsGood(c: Component, up: char -> string)
    requires ReadTree(c, up)
    ensures Good(c, up) && Trim(c) == c
    decreases c, 1
  {
    ReadChildrenGood(c.children, up);
    assert TrimProperties(c.properties) == c.properties;
  }

  lemma {:induction false} ReadChildrenGood(cs: seq<Component>, up: char -> string)
    requires forall i :: 0 <= i < |cs| ==> ReadTree(cs[i], up)
    ensures forall i :: 0 <= i < |cs| ==> Good(cs[i], up)
    ensures TrimChildren(cs) == cs
    decreases cs, 0
  {
    if cs != [] {
      ReadTreeIsGood(cs[0], up);
      ReadChildrenGood(cs[1..], up);
      assert cs == [cs[0]] + cs[1..];
    }
  }

  lemma {:induction false} DictKeepsUnique(items: seq<Param>, d: seq<Param>)
    requires UniqueKeys(d)
    ensures UniqueKeys(Dict(items, d))
    ensures forall i :: 0 <= i < |Dict(items, d)| ==> Dict(items, d)[i] in d + items
    decreases |items|
  {
    if items != [] {
      DictPutUnique(d, items[0]);
      DictKeepsUnique(items[1..], DictPut(d, items[0]));
      var r := Dict(items, d);
      forall i | 0 <= i < |r| ensures r[i] in d + items {
        assert r[i] in DictPut(d, items[0]) || r[i] in items[1..];
      }
    }
  }

  lemma {:induction false} DictPutUnique(d: seq<Param>, p: Param)
    requires UniqueKeys(d)
    ensures UniqueKeys(DictPut(d, p))
    ensures forall q :: q in DictPut(d, p) ==> q in d || q == p
  {
    if d != [] && d[0].key != p.key {
      DictPutUnique(d[1..], p);
      var r := DictPut(d[1..], p);
      forall q | q in r ensures q.key != d[0].key {
        if q in d[1..] {
          var k :| 0 <= k < |d[1..]| && d[1..][k] == q;
          assert d[k + 1] == q;
        }
      }
      assert forall j :: 0 <= j < |r| ==> r[j] in r;
    }
  }

  /** A parameter taken from a field of a line. */
  predicate RawParam(p: Param) {
    PlainField(p.key) && '=' !in p.key && PlainField(p.value)
  }

  lemma {:induction false} RawParamsPlain(fields: seq<string>)
    requires forall i :: 0 <= i < |fields| ==> PlainField(fields[i])
    ensures forall i :: 0 <= i < |RawParams(fields)| ==> RawParam(RawParams(fields)[i])
  {
    if fields != [] { RawParamsPlain(fields[1..]); }
  }

  lemma {:induction false} UpperKeysGood(params: seq<Param>, up: char -> string)
    requires CaseMapping(up) && forall i :: 0 <= i < |params| ==> RawParam(params[i])
    ensures forall i :: 0 <= i < |UpperKeys(params, up)| ==> GoodParam(UpperKeys(params, up)[i], up)
  {
    if params != [] {
      UpperKeysGood(params[1..], up);
      UpperIsFixed(params[0].key, up);
      assert Structural('\r') && Structural('\n') && Structural(':') && Structural(';') && Structural('=');
    }
  }

  lemma ReadParamsGood(fields: seq<string>, up: char -> string)
    requires CaseMapping(up) && forall i :: 0 <= i < |fields| ==> PlainField(fields[i])
    ensures GoodParams(ReadParams(fields, up), up)
  {
    var raw := RawParams(fields);
    var once := Dict(raw, []);
    RawParamsPlain(fields);
    DictKeepsUnique(raw, []);
    assert [] + raw == raw;
    UpperKeysGood(once, up);
    DictKeepsUnique(UpperKeys(once, up), []);
    assert [] + UpperKeys(once, up) == UpperKeys(once, up);
  }

  predicate ReadProperty(p: Property, up: char -> string) {
    GoodProperty(p, up) && RStrip(p.value) == p.value
  }

  lemma FieldsPlain(head: string)
    requires ':' !in head && SingleLine(head)
    ensures forall i :: 0 <= i < |Split(head, ';')| ==> PlainField(Split(head, ';')[i])
  {
    SplitPieces(head, ';');
  }

  lemma ReadNameGood(head: string, line: string, up: char -> string)
    requires CaseMapping(up) && head <= line && ReadText(line) && ':' !in head
    ensures var name := Upper(Split(head, ';')[0], up);
      PlainField(name) && Fixed(name, up) && (name != "" ==> !IsSpace(name[0]))
  {
    var field := Split(head, ';')[0];
    assert SingleLine(head) by { assert forall c :: c in head ==> c in line; }
    FieldsPlain(head);
    HeadStart(head, line);
    UpperIsFixed(field, up);
    UpperEnds(field, up);
    assert Structural('\r') && Structural('\n') && Structural(':') && Structural(';');
  }

  lemma ReadMarkerGood(value: string, up: char -> string)
    requires CaseMapping(up) && SingleLine(value)
    ensures GoodName(Upper(Strip(value), up), up)
  {
    StripEnds(value);
    UpperStripped(value, up);
    UpperIsFixed(Strip(value), up);
    assert Structural('\r') && Structural('\n');
  }

  lemma SlicesOfLine(line: string, i: nat)
    requires ReadText(line) && i < |line| && line[i] == ':'
    ensures SingleLine(line[..i]) && SingleLine(line[i + 1..])
    ensures RStrip(line[i + 1..]) == line[i + 1..]
  {
    var value := line[i + 1..];
    if value != "" { assert value[|value| - 1] == line[|line| - 1]; }
  }

  lemma ReadLineGood(line: string, up: char -> string)
    requires CaseMapping(up) && ReadText(line)
    ensures var r := ReadLine(line, up);
      && (r.Begin? ==> GoodName(r.name, up))
      && (r.Entry? ==> ReadProperty(r.property, up))
  {
    var i := IndexOf(line, ':');
    if i < |line| {
      SlicesOfLine(line, i);
      ReadNameGood(line[..i], line, up);
      ReadMarkerGood(line[i + 1..], up);
      FieldsPlain(line[..i]);
      ReadParamsGood(Split(line[..i], ';')[1..], up);
    }
  }

  lemma HeadStart(head: string, line: string)
    requires head <= line && line != "" && !IsSpace(line[0])
    ensures var f := Split(head, ';')[0]; f != "" ==> f[0] == line[0]
  {
  }

  ghost predicate ReadState(st: State, up: char -> string) {
    && (forall i :: 0 <= i < |st.stack| ==> ReadTree(st.stack[i], up))
    && (st.root.Some? ==> ReadTree(st.root.value, up))
  }

  lemma WithPropertyRead(c: Component, p: Property, up: char -> string)
    requires ReadTree(c, up) && ReadProperty(p, up)
    ensures ReadTree(c.(properties := c.properties + [p]), up)
  {
  }

  lemma WithChildRead(c: Component, child: Component, up: char -> string)
    requires ReadTree(c, up) && ReadTree(child, up)
    ensures ReadTree(c.(children := c.children + [child]), up)
  {
  }

  lemma ClosedRead(st: State, up: char -> string)
    requires ReadState(st, up) && st.stack != []
    ensures ReadState(Closed(st), up)
  {
    var n := |st.stack|;
    if n >= 2 { WithChildRead(st.stack[n - 2], st.stack[n - 1], up); }
  }

  lemma StepReadTree(line: string, st: State, up: char -> string)
    requires CaseMapping(up) && ReadText(line) && ReadState(st, up)
    requires Step(line, st, up).Some?
    ensures ReadState(Step(line, st, up).value, up)
  {
    var n := |st.stack|;
    ReadLineGood(line, up);
    match ReadLine(line, up) {
      case Ignored =>
      case Begin(name) =>
        assert ReadTree(Component(name, [], []), up);
      case End(_) =>
        ClosedRead(st, up);
      case Entry(p) =>
        if n >= 1 { WithPropertyRead(st.stack[n - 1], p, up); }
    }
  }

  lemma {:induction false} ParsedIsReadTree(lines: seq<string>, st: State, up: char -> string)
    requires CaseMapping(up) && ReadState(st, up)
    requires forall i :: 0 <= i < |lines| ==> ReadText(lines[i])
    ensures var r := ParseLines(lines, st, up); r.Calendar? ==> ReadTree(r.root, up) && r.root.name == "VCALENDAR"
    decreases |lines|
  {
    if lines != [] {
      var next := Step(lines[0], st, up);
      if next.Some? {
        StepReadTree(lines[0], st, up);
        ParsedIsReadTree(lines[1..], next.value, up);
      }
    }
  }

  lemma AcceptedIsReadTree(content: Content, up: char -> string)
    requires CaseMapping(up) && Parse(content, up).Calendar?
    ensures ReadTree(Parse(content, up).root, up) && Parse(content, up).root.name == "VCALENDAR"
  {
    UnfoldedRead(content.text);
    ParsedIsReadTree(UnfoldIcal(content.text), State([], None), up);
  }

  /** Whatever was accepted is read again as the same tree after it has been printed. */
  lemma RoundTrip(content: Content, up: char -> string)
    requires CaseMapping(up) && Parse(content, up).Calendar?
    requires Serialize(Parse(content, up).root).size <= 1_000_000
    ensures Parse(Serialize(Parse(content, up).root), up) == Parse(content, up)
  {
    AcceptedIsReadTree(content, up);
    ReadTreeIsGood(Parse(content, up).root, up);
    PrintedIsRead(Parse(content, up).root, up);
  }

  // ------------------------------------------------ what is read and refused

  /** The written forms. */
  lemma WrittenForms(c: Component, name: string, key: string, param: string, value: string)
    ensures Lines(c)[0] == "BEGIN:" + c.name && Lines(c)[|Lines(c)| - 1] == "END:" + c.name
    ensures PropertyLine(Property(name, [], value)) == name + ":" + value
    ensures PropertyLine(Property(name, [Param(key, param)], value)) == name + ";" + key + "=" + param + ":" + value
  {
    assert [Param(key, param)][1..] == [];
    assert ParamText([Param(key, param)]) == ";" + key + "=" + param + "";
  }

  /** Only a line without a colon is passed over. */
  lemma IgnoredExactly(line: string, up: char -> string)
    ensures ReadLine(line, up).Ignored? <==> ':' !in line
  {
  }

  lemma CutLine(head: string, fields: seq<string>, value: string, up: char -> string)
    requires ':' !in head && fields != [] && Split(head, ';') == fields
    ensures ReadLine(head + [':'] + value, up) ==
      if Upper(fields[0], up) == "BEGIN" then Begin(Upper(Strip(value), up))
      else if Upper(fields[0], up) == "END" then End(Upper(Strip(value), up))
      else Entry(Property(Upper(fields[0], up), ReadParams(fields[1..], up), value))
  {
    var line := head + [':'] + value;
    IndexOfAppend(head, ':', value);
    assert line[..|head|] == head && line[|head| + 1..] == value;
  }

  /** A line of any program, without parameters: the name in upper case, the value as it stands. */
  lemma BareLine(name: string, value: string, up: char -> string)
    requires ':' !in name && ';' !in name
    ensures ReadLine(name + ":" + value, up) ==
      if Upper(name, up) == "BEGIN" then Begin(Upper(Strip(value), up))
      else if Upper(name, up) == "END" then End(Upper(Strip(value), up))
      else Entry(Property(Upper(name, up), [], value))
  {
    CutLine(name, [name], value, up);
    assert [name][1..] == [] && ReadParams([], up) == [];
  }

  lemma ParamFieldsOf(name: string, field: string)
    requires ';' !in name && ';' !in field
    ensures Split(name + [';'] + field, ';') == [name, field]
  {
    SplitFirst(name, ';', field);
    assert Split(field, ';') == [field] && [name] + [field] == [name, field];
  }

  /** With a parameter: its key in upper case too, its value as it stands. */
  lemma ParamLine(name: string, key: string, param: string, value: string, up: char -> string)
    requires ':' !in name && ';' !in name && ':' !in key && ';' !in key && '=' !in key
    requires ':' !in param && ';' !in param && Upper(name, up) != "BEGIN" && Upper(name, up) != "END"
    ensures ReadLine(name + [';'] + (key + ['='] + param) + [':'] + value, up)
         == Entry(Property(Upper(name, up), [Param(Upper(key, up), param)], value))
  {
    var field := key + ['='] + param;
    var head := name + [';'] + field;
    ParamFieldsOf(name, field);
    CutLine(head, [name, field], value, up);
    OneParam(key, param, up);
    assert [name, field][1..] == [field];
  }

  lemma OneParam(key: string, param: string, up: char -> string)
    requires '=' !in key
    ensures ReadParams([key + ['='] + param], up) == [Param(Upper(key, up), param)]
  {
    var field, p := key + ['='] + param, Param(key, param);
    FieldIsParam(p);
    RawParamsHead(field, []);
    assert [field] + [] == [field] && [p] + RawParams([]) == [p];
    DictOfOne(p);
    DictOfOne(Param(Upper(key, up), param));
    assert [p][1..] == [] && UpperKeys([p], up) == [Param(Upper(key, up), param)] + UpperKeys([], up);
  }

  lemma DictOfOne(p: Param)
    ensures Dict([p], []) == [p]
  {
    assert [p][1..] == [] && DictPut([], p) == [p];
  }

  /** A line is an error exactly if it opens a second calendar object or closes what is not open. */
  lemma ErrorsExactly(line: string, st: State, up: char -> string)
    ensures Step(line, st, up).None? <==> (
      match ReadLine(line, up)
      case Begin(_) => st.stack == [] && st.root.Some?
      case End(name) => st.stack == [] || st.stack[|st.stack| - 1].name != name
      case _ => false)
  {
  }

  /** How many more components a line leaves open. */
  function Opens(line: string, up: char -> string): int {
    match ReadLine(line, up) case Begin(_) => 1 case End(_) => -1 case _ => 0
  }

  function Depth(lines: seq<string>, up: char -> string): int {
    if lines == [] then 0 else Opens(lines[0], up) + Depth(lines[1..], up)
  }

  /** Accepted lines are balanced: every end has its begin before it, and none stays open. */
  lemma {:induction false} AcceptedIsBalanced(lines: seq<string>, st: State, up: char -> string, n: nat)
    requires ParseLines(lines, st, up).Calendar? && n <= |lines|
    ensures |st.stack| + Depth(lines[..n], up) >= 0 && |st.stack| + Depth(lines, up) == 0
    decreases |lines|
  {
    if lines != [] {
      var next := Step(lines[0], st, up).value;
      assert |next.stack| == |st.stack| + Opens(lines[0], up);
      AcceptedIsBalanced(lines[1..], next, up, if n == 0 then 0 else n - 1);
      if n > 0 { assert lines[..n][0] == lines[0] && lines[..n][1..] == lines[1..][..n - 1]; }
    }
  }

  /** The accepted object is one VCALENDAR, from no more than a million octets. */
  lemma AcceptedIsCalendar(content: Content, up: char -> string)
    requires Parse(content, up).Calendar?
    ensures Parse(content, up).root.name == "VCALENDAR"
    ensures (if content.Text? then |content.text| else content.size) <= 1_000_000
    ensures Depth(UnfoldIcal(content.text), up) == 0
  {
    var lines := UnfoldIcal(content.text);
    EndsAsCalendar(lines, State([], None), up);
    AcceptedIsBalanced(lines, State([], None), up, 0);
  }

  lemma {:induction false} EndsAsCalendar(lines: seq<string>, st: State, up: char -> string)
    requires ParseLines(lines, st, up).Calendar?
    ensures ParseLines(lines, st, up).root.name == "VCALENDAR"
    decreases |lines|
  {
    if lines != [] { EndsAsCalendar(lines[1..], Step(lines[0], st, up).value, up); }
  }

  /** The last item with the key, or the one given. */
  function LastWith(items: seq<Param>, key: string, otherwise: Option<string>): Option<string> {
    if items == [] then otherwise
    else LastWith(items[1..], key, if items[0].key == key then Some(items[0].value) else otherwise)
  }

  function ValueIn(d: seq<Param>, key: string): Option<string> {
    if d == [] then None else if d[0].key == key then Some(d[0].value) else ValueIn(d[1..], key)
  }

  lemma {:induction false} PutIsFound(d: seq<Param>, p: Param, key: string)
    ensures ValueIn(DictPut(d, p), key) == if p.key == key then Some(p.value) else ValueIn(d, key)
  {
    if d == [] {
      assert [p][1..] == [];
    } else if d[0].key == p.key {
      assert ([p] + d[1..])[1..] == d[1..];
    } else {
      PutIsFound(d[1..], p, key);
      assert ([d[0]] + DictPut(d[1..], p))[1..] == DictPut(d[1..], p);
    }
  }

  /** Of a parameter given twice the last value counts. */
  lemma {:induction false} LastParamCounts(items: seq<Param>, d: seq<Param>, key: string)
    ensures ValueIn(Dict(items, d), key) == LastWith(items, key, ValueIn(d, key))
  {
    if items != [] {
      PutIsFound(d, items[0], key);
      LastParamCounts(items[1..], DictPut(d, items[0]), key);
    }
  }
}
