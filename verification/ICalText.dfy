/**
 The text layer of RFC 5545: TEXT escaping (section 3.3.11) and folding of long
 lines (section 3.1), as in src/mailhelp/external/ical.py and
 src/mailhelp/processing/calendar_parser.py.
 */
module ICalText {
  import opened PyText
  import Utf8

  // -------------------------------------------------------------- escaping

  function ReplaceChar(s: string, c: char, with: string): string {
    if s == "" then ""
    else (if s[0] == c then with else [s[0]]) + ReplaceChar(s[1..], c, with)
  }

  /** How many characters the line break at the front takes: CRLF, CR or LF; 0 when there is none. */
  function BreakLength(s: string): nat
    ensures BreakLength(s) <= |s|
  {
    if s == "" then 0
    else if s[0] == '\r' then if |s| > 1 && s[1] == '\n' then 2 else 1
    else if s[0] == '\n' then 1
    else 0
  }

  function ReplaceBreaks(s: string, with: string): string
    decreases |s|
  {
    if s == "" then ""
    else if BreakLength(s) > 0 then with + ReplaceBreaks(s[BreakLength(s)..], with)
    else [s[0]] + ReplaceBreaks(s[1..], with)
  }

  /** `_ical_text`: four replacements one after the other. */
  function IcalText(value: string): string {
    ReplaceChar(ReplaceChar(ReplaceBreaks(ReplaceChar(value, '\\', "\\\\"), "\\n"), ',', "\\,"), ';', "\\;")
  }

  function EscapedChar(c: char): string {
    if c == '\\' then "\\\\" else if c == ',' then "\\," else if c == ';' then "\\;" else [c]
  }

  /** The same escaping in one pass from left to right. */
  function Escaped(s: string): string
    decreases |s|
  {
    if s == "" then ""
    else if BreakLength(s) > 0 then "\\n" + Escaped(s[BreakLength(s)..])
    else EscapedChar(s[0]) + Escaped(s[1..])
  }

  lemma {:induction false} ReplaceConcat(a: string, b: string, c: char, with: string)
    ensures ReplaceChar(a + b, c, with) == ReplaceChar(a, c, with) + ReplaceChar(b, c, with)
  {
    if a == "" {
      assert a + b == b;
    } else {
      assert (a + b)[1..] == a[1..] + b;
      ReplaceConcat(a[1..], b, c, with);
    }
  }

  function Separators(s: string): string {
    ReplaceChar(ReplaceChar(s, ',', "\\,"), ';', "\\;")
  }

  lemma SeparatorsStep(c: char, s: string)
    ensures Separators([c] + s)
         == (if c == ',' then "\\," else if c == ';' then "\\;" else [c]) + Separators(s)
  {
    assert ([c] + s)[1..] == s;
    var inner := ReplaceChar(s, ',', "\\,");
    if c == ',' {
      ReplaceConcat("\\,", inner, ';', "\\;");
      assert ReplaceChar(",", ';', "\\;") == ",";
      assert "\\,"[1..] == ",";
    } else {
      assert ([c] + inner)[1..] == inner;
    }
  }

  lemma BreaksStep(c: char, s: string, with: string)
    requires c == '\r' && s != "" ==> s[0] != '\n'
    ensures ReplaceBreaks([c] + s, with) == (if c == '\r' || c == '\n' then with else [c]) + ReplaceBreaks(s, with)
  {
    assert ([c] + s)[1..] == s;
  }

  lemma {:induction false} ReplaceAbsent(s: string, c: char, with: string)
    requires c !in s
    ensures ReplaceChar(s, c, with) == s
  {
    if s != "" { ReplaceAbsent(s[1..], c, with); }
  }

  lemma {:induction false} IcalTextIsEscaped(value: string)
    ensures IcalText(value) == Escaped(value)
    decreases |value|
  {
    if BreakLength(value) > 0 {
      var head, tail := value[..BreakLength(value)], value[BreakLength(value)..];
      IcalTextIsEscaped(tail);
      assert value == head + tail;
      ReplaceConcat(head, tail, '\\', "\\\\");
      ReplaceAbsent(head, '\\', "\\\\");
      BreakReplaced(head, tail, ReplaceChar(tail, '\\', "\\\\"));
      SeparatorsBreak(ReplaceBreaks(ReplaceChar(tail, '\\', "\\\\"), "\\n"));
    } else if value != "" {
      IcalTextIsEscaped(value[1..]);
      CharReplaced(value[0], value[1..]);
    }
  }

  lemma SeparatorsBreak(s: string)
    ensures Separators("\\n" + s) == "\\n" + Separators(s)
  {
    SeparatorsStep('n', s);
    SeparatorsStep('\\', ['n'] + s);
    assert "\\n" + s == ['\\'] + (['n'] + s);
    assert "\\n" + Separators(s) == ['\\'] + (['n'] + Separators(s));
  }

  lemma BackslashDoubled(tail: string)
    ensures ReplaceChar(['\\'] + tail, '\\', "\\\\") == ['\\'] + (['\\'] + ReplaceChar(tail, '\\', "\\\\"))
  {
    assert (['\\'] + tail)[1..] == tail;
  }

  lemma BackslashReplaced(tail: string)
    ensures IcalText(['\\'] + tail) == "\\\\" + IcalText(tail)
  {
    var t := ReplaceChar(tail, '\\', "\\\\");
    var r := ReplaceBreaks(t, "\\n");
    BackslashDoubled(tail);
    BreaksStep('\\', ['\\'] + t, "\\n");
    BreaksStep('\\', t, "\\n");
    SeparatorsStep('\\', ['\\'] + r);
    SeparatorsStep('\\', r);
  }

  lemma CharReplaced(c: char, tail: string)
    requires c != '\n' && c != '\r'
    ensures IcalText([c] + tail) == EscapedChar(c) + IcalText(tail)
  {
    if c == '\\' {
      BackslashReplaced(tail);
    } else {
      var t := ReplaceChar(tail, '\\', "\\\\");
      assert ([c] + tail)[1..] == tail;
      BreaksStep(c, t, "\\n");
      SeparatorsStep(c, ReplaceBreaks(t, "\\n"));
    }
  }

  /** Doubling backslashes neither makes nor joins line breaks. */
  lemma BreakReplaced(head: string, tail: string, t: string)
    requires head == "\r\n" || head == "\n" || (head == "\r" && (tail == "" || tail[0] != '\n'))
    requires t == ReplaceChar(tail, '\\', "\\\\")
    ensures ReplaceBreaks(head + t, "\\n") == "\\n" + ReplaceBreaks(t, "\\n")
  {
    assert t != "" && t[0] == '\n' ==> tail[0] == '\n';
    assert (head + t)[|head|..] == t;
  }

  predicate Escapable(c: char) {
    c == 'n' || c == 'N' || c == ',' || c == ';' || c == '\\'
  }

  /** The regular expression of `_unescape_text`: one pass, an unknown escape stays as it is. */
  function Unescaped(s: string): string
    decreases |s|
  {
    if s == "" then ""
    else if s[0] == '\\' && |s| > 1 && Escapable(s[1]) then
      [if s[1] == 'n' || s[1] == 'N' then '\n' else s[1]] + Unescaped(s[2..])
    else [s[0]] + Unescaped(s[1..])
  }

  function UnescapeText(value: string): string {
    Strip(Unescaped(value))
  }

  lemma UnescapedChar(c: char, rest: string)
    ensures Unescaped(EscapedChar(c) + rest) == [c] + Unescaped(rest)
    ensures Unescaped("\\n" + rest) == "\n" + Unescaped(rest)
  {
    assert ("\\n" + rest)[2..] == rest;
    assert (EscapedChar(c) + rest)[|EscapedChar(c)|..] == rest;
  }

  /** Unescaping undoes escaping up to the kind of line break. */
  lemma {:induction false} UnescapedEscaped(s: string)
    ensures Unescaped(Escaped(s)) == ReplaceBreaks(s, "\n")
    decreases |s|
  {
    if s != "" {
      var n := if BreakLength(s) > 0 then BreakLength(s) else 1;
      UnescapedEscaped(s[n..]);
      UnescapedChar(s[0], Escaped(s[n..]));
    }
  }

  lemma {:induction false} UnescapedSpace(w: string)
    requires forall i :: 0 <= i < |w| ==> IsSpace(w[i])
    ensures Unescaped(w) == w
  {
    if w != "" { UnescapedSpace(w[1..]); }
  }

  lemma {:induction false} UnescapedBeforeSpace(a: string, w: string)
    requires forall i :: 0 <= i < |w| ==> IsSpace(w[i])
    ensures Unescaped(a + w) == Unescaped(a) + w
    decreases |a|
  {
    if a == "" {
      UnescapedSpace(w);
      assert a + w == w;
    } else {
      var n := if a[0] == '\\' && |a| > 1 && Escapable(a[1]) then 2 else 1;
      assert (a + w)[n..] == a[n..] + w;
      assert w != "" ==> !Escapable(w[0]);
      UnescapedBeforeSpace(a[n..], w);
    }
  }

  lemma {:induction false} StripDropsTail(x: string, w: string)
    requires forall i :: 0 <= i < |w| ==> IsSpace(w[i])
    ensures Strip(x + w) == Strip(x)
    decreases |w|
  {
    if w == "" {
      assert x + w == x;
    } else {
      var v := w[..|w| - 1];
      assert x + w == (x + v) + [w[|w| - 1]];
      StripDropsTail(x, v);
      StripDropsLast(x + v, w[|w| - 1]);
    }
  }

  lemma {:induction false} StripDropsLast(x: string, c: char)
    requires IsSpace(c)
    ensures Strip(x + [c]) == Strip(x)
  {
    if x == "" {
      assert x + [c] == [c] && LStrip([c]) == "";
    } else if IsSpace(x[0]) {
      assert (x + [c])[1..] == x[1..] + [c];
      StripDropsLast(x[1..], c);
    } else {
      assert (x + [c])[..|x + [c]| - 1] == x;
    }
  }

  /** A text that was escaped, written, trimmed at the line end and read again. */
  lemma TextRoundTrip(value: string)
    ensures UnescapeText(RStrip(IcalText(value))) == Strip(ReplaceBreaks(value, "\n"))
  {
    IcalTextIsEscaped(value);
    UnescapedEscaped(value);
    var e := Escaped(value);
    RStripIsPrefix(e);
    var w := e[|RStrip(e)|..];
    assert e == RStrip(e) + w;
    UnescapedBeforeSpace(RStrip(e), w);
    StripDropsTail(Unescaped(RStrip(e)), w);
  }

  predicate SingleLine(s: string) {
    '\r' !in s && '\n' !in s
  }

  lemma {:induction false} EscapedIsSingleLine(s: string)
    ensures SingleLine(Escaped(s))
    decreases |s|
  {
    if s != "" {
      EscapedIsSingleLine(s[if BreakLength(s) > 0 then BreakLength(s) else 1..]);
    }
  }

  /** TEXT as in section 3.3.11 of RFC 5545: no bare separator, backslash or line break. */
  predicate IsText(e: string)
    decreases |e|
  {
    if e == "" then true
    else if e[0] == '\\' then |e| > 1 && (e[1] in "n,;\\") && IsText(e[2..])
    else e[0] != ',' && e[0] != ';' && e[0] != '\r' && e[0] != '\n' && IsText(e[1..])
  }

  lemma {:induction false} EscapedIsText(s: string)
    ensures IsText(Escaped(s))
    decreases |s|
  {
    if s != "" {
      var n := if BreakLength(s) > 0 then BreakLength(s) else 1;
      EscapedIsText(s[n..]);
      var rest := Escaped(s[n..]);
      if BreakLength(s) > 0 {
        assert ("\\n" + rest)[2..] == rest;
      } else {
        assert (EscapedChar(s[0]) + rest)[|EscapedChar(s[0])|..] == rest;
      }
    }
  }

  /** So is what is written: readers of other programs see one text value on one line. */
  lemma WrittenIsText(value: string)
    ensures IsText(IcalText(value)) && SingleLine(IcalText(value))
  {
    IcalTextIsEscaped(value);
    EscapedIsText(value);
    EscapedIsSingleLine(value);
  }

  /** Escapes written by others: both letters for a line break, and an unknown escape is plain text. */
  lemma ForeignEscapes(rest: string, c: char)
    ensures Unescaped("\\N" + rest) == "\n" + Unescaped(rest) && Unescaped("\\n" + rest) == "\n" + Unescaped(rest)
    ensures c in ",;\\" ==> Unescaped(['\\', c] + rest) == [c] + Unescaped(rest)
    ensures c !in "nN,;\\" ==> Unescaped(['\\', c] + rest) == ['\\'] + Unescaped([c] + rest)
  {
    assert ("\\N" + rest)[2..] == rest && ("\\n" + rest)[2..] == rest;
    assert (['\\', c] + rest)[2..] == rest && (['\\', c] + rest)[1..] == [c] + rest;
  }

  /** What one step of the replacement takes, and what it writes. */
  function Taken(s: string): (n: nat)
    requires s != ""
    ensures 1 <= n <= |s|
  {
    if BreakLength(s) > 0 then BreakLength(s) else 1
  }

  function Replacement(s: string, with: string): string
    requires s != ""
  {
    if BreakLength(s) > 0 then with else [s[0]]
  }

  lemma ReplacedHead(s: string, with: string)
    requires s != ""
    ensures ReplaceBreaks(s, with) == Replacement(s, with) + ReplaceBreaks(s[Taken(s)..], with)
  {
  }

  lemma SameHead(a: string, b: string, with: string)
    requires a != "" && (b == "" || a[|a| - 1] != '\r' || b[0] != '\n')
    ensures Taken(a + b) == Taken(a) && Replacement(a + b, with) == Replacement(a, with)
    ensures (a + b)[Taken(a)..] == a[Taken(a)..] + b
  {
    assert (a + b)[0] == a[0] && (|a| > 1 ==> (a + b)[1] == a[1]);
  }

  lemma JoinedThree(a: string, b: string, c: string)
    ensures a + (b + c) == (a + b) + c
  {
  }

  /** Line breaks are replaced piece by piece, unless a CRLF is torn apart. */
  lemma {:induction false} BreaksConcat(a: string, b: string, with: string)
    requires a == "" || b == "" || a[|a| - 1] != '\r' || b[0] != '\n'
    ensures ReplaceBreaks(a + b, with) == ReplaceBreaks(a, with) + ReplaceBreaks(b, with)
    decreases |a|
  {
    if a == "" {
      assert a + b == b;
    } else {
      var rest := a[Taken(a)..];
      SameHead(a, b, with);
      BreaksConcat(rest, b, with);
      ReplacedHead(a, with);
      ReplacedHead(a + b, with);
      JoinedThree(Replacement(a, with), ReplaceBreaks(rest, with), ReplaceBreaks(b, with));
    }
  }

  /** Each of CRLF, CR and LF is one break, and no other character is. */
  lemma SingleBreaks(c: char, with: string)
    ensures ReplaceBreaks("\r\n", with) == with && ReplaceBreaks("\r", with) == with
    ensures ReplaceBreaks("\n", with) == with
    ensures c != '\r' && c != '\n' ==> ReplaceBreaks([c], with) == [c]
  {
    assert "\r\n"[2..] == "" && "\r"[1..] == "" && "\n"[1..] == "" && [c][1..] == "";
    assert with + "" == with;
  }

  // --------------------------------------------------------------- folding

  function Utf8Size(c: char): nat {
    var n := c as int;
    if n < 0x80 then 1 else if n < 0x800 then 2 else if n < 0x1_0000 then 3 else 4
  }

  function Utf8Length(s: string): nat {
    if s == "" then 0 else Utf8Length(s[..|s| - 1]) + Utf8Size(s[|s| - 1])
  }

  /** The sizes are those of UTF-8. */
  lemma {:induction false} SizesAreUtf8(s: string)
    ensures Utf8Length(s) == |Utf8.TextBytes(s)|
    decreases |s|
  {
    if s != "" {
      var n := |s| - 1;
      SizesAreUtf8(s[..n]);
      assert s == s[..n] + [s[n]];
      BytesSnoc(s[..n], s[n]);
    }
  }

  lemma {:induction false} BytesSnoc(s: string, c: char)
    ensures |Utf8.TextBytes(s + [c])| == |Utf8.TextBytes(s)| + Utf8Size(c)
  {
    if s == "" {
      assert s + [c] == [c] && [c][1..] == "";
    } else {
      assert (s + [c])[0] == s[0] && (s + [c])[1..] == s[1..] + [c];
      BytesSnoc(s[1..], c);
    }
  }

  const LINE_LIMIT := 75

  /** The pieces of a line; `current` is the piece being filled. */
  function Chunks(value: string, current: string, first: bool, limit: nat): (chunks: seq<string>)
    ensures chunks != []
    decreases |value|
  {
    if value == "" then [current]
    else if current != "" && Utf8Length(current) + Utf8Size(value[0]) > (if first then limit else limit - 1) then
      [current] + Chunks(value[1..], [value[0]], false, limit)
    else Chunks(value[1..], current + [value[0]], first, limit)
  }

  function JoinChunks(chunks: seq<string>): string
    requires chunks != []
  {
    if |chunks| == 1 then chunks[0] else chunks[0] + "\r\n " + JoinChunks(chunks[1..])
  }

  function Fold(value: string): string {
    JoinChunks(Chunks(value, "", true, LINE_LIMIT))
  }

  /** `_fold_ical_line`: the loop over the characters. */
  method FoldIcalLine(value: string, limit: nat) returns (folded: string)
    ensures folded == JoinChunks(Chunks(value, "", true, limit))
  {
    var chunks: seq<string> := [];
    var current := "";
    var currentBytes := 0;
    for i := 0 to |value|
      invariant currentBytes == Utf8Length(current)
      invariant chunks + Chunks(value[i..], current, chunks == [], limit) == Chunks(value, "", true, limit)
    {
      var character := value[i];
      var size := Utf8Size(character);
      var available := if chunks == [] then limit else limit - 1;
      assert value[i..][0] == character && value[i..][1..] == value[i + 1..];
      if current != "" && currentBytes + size > available {
        chunks := chunks + [current];
        current, currentBytes := [character], size;
        assert [character][..0] == "";
      } else {
        assert (current + [character])[..|current|] == current;
        current := current + [character];
        currentBytes := currentBytes + size;
      }
    }
    chunks := chunks + [current];
    folded := JoinChunks(chunks);
  }

  function Concat(chunks: seq<string>): string {
    if chunks == [] then "" else chunks[0] + Concat(chunks[1..])
  }

  /** Cutting loses nothing. */
  lemma {:induction false} ChunksKeepAll(value: string, current: string, first: bool, limit: nat)
    ensures Concat(Chunks(value, current, first, limit)) == current + value
    decreases |value|
  {
    if value == "" {
      assert [current][1..] == [] && current + "" == current + value;
    } else {
      var c := value[0];
      assert value == [c] + value[1..];
      ChunksKeepAll(value[1..], [c], false, limit);
      ChunksKeepAll(value[1..], current + [c], first, limit);
      var rest := Chunks(value[1..], [c], false, limit);
      assert ([current] + rest)[1..] == rest;
      assert (current + [c]) + value[1..] == current + value;
    }
  }

  /** The octets the piece at `i` may have: a continuation also carries its blank. */
  function Room(first: bool, i: nat, limit: nat): int {
    if first && i == 0 then limit else limit - 1
  }

  predicate AllFit(chunks: seq<string>, first: bool, limit: nat) {
    forall i :: 0 <= i < |chunks| ==> Utf8Length(chunks[i]) <= Room(first, i, limit)
  }

  predicate NoneEmpty(chunks: seq<string>) {
    forall i :: 0 <= i < |chunks| ==> chunks[i] != ""
  }

  lemma OneChar(current: string, c: char)
    ensures Utf8Length(current + [c]) == Utf8Length(current) + Utf8Size(c) && Utf8Length([c]) == Utf8Size(c)
  {
    assert (current + [c])[..|current|] == current && [c][..0] == "";
  }

  lemma PrefixFits(current: string, rest: seq<string>, first: bool, limit: nat)
    requires AllFit(rest, false, limit) && Utf8Length(current) <= Room(first, 0, limit)
    ensures AllFit([current] + rest, first, limit)
  {
    var all := [current] + rest;
    forall i | 0 <= i < |all| ensures Utf8Length(all[i]) <= Room(first, i, limit) {
      if i > 0 { assert all[i] == rest[i - 1] && Utf8Length(rest[i - 1]) <= Room(false, i - 1, limit); }
    }
  }

  /**
   Every physical line, with the blank that starts a continuation, has at most `limit`
   octets, and no piece is empty unless the whole line is.
   */
  lemma {:induction false} ChunksFit(value: string, current: string, first: bool, limit: nat)
    requires limit >= 5 && (current == "" ==> first) && Utf8Length(current) <= Room(first, 0, limit)
    ensures AllFit(Chunks(value, current, first, limit), first, limit)
    ensures current + value != "" ==> NoneEmpty(Chunks(value, current, first, limit))
    decreases |value|
  {
    if value != "" {
      var c := value[0];
      OneChar(current, c);
      if current != "" && Utf8Length(current) + Utf8Size(c) > Room(first, 0, limit) {
        ChunksFit(value[1..], [c], false, limit);
        PrefixFits(current, Chunks(value[1..], [c], false, limit), first, limit);
      } else {
        ChunksFit(value[1..], current + [c], first, limit);
      }
    }
  }

  /** A folded line: no physical line has more than 75 octets. */
  lemma FoldedLinesFit(line: string)
    ensures AllFit(Chunks(line, "", true, LINE_LIMIT), true, 75)
  {
    ChunksFit(line, "", true, LINE_LIMIT);
  }

  /** Every line break is CRLF. */
  predicate OnlyCrLf(s: string) {
    && (forall i :: 0 <= i < |s| && s[i] == '\n' ==> i > 0 && s[i - 1] == '\r')
    && forall i :: 0 <= i < |s| && s[i] == '\r' ==> i + 1 < |s| && s[i + 1] == '\n'
  }

  lemma OnlyCrLfConcat(a: string, b: string)
    requires OnlyCrLf(a) && OnlyCrLf(b)
    ensures OnlyCrLf(a + b)
  {
    var s := a + b;
    forall i | 0 <= i < |s| && s[i] == '\n' ensures i > 0 && s[i - 1] == '\r' {
      if i >= |a| { assert b[i - |a|] == '\n' && b[i - |a| - 1] == '\r'; }
    }
    forall i | 0 <= i < |s| && s[i] == '\r' ensures i + 1 < |s| && s[i + 1] == '\n' {
      if i >= |a| { assert b[i - |a|] == '\r' && b[i - |a| + 1] == '\n'; } else { assert a[i + 1] == '\n'; }
    }
  }

  lemma LineEndOnlyCrLf()
    ensures OnlyCrLf("\r\n") && OnlyCrLf("\r\n ")
  {
  }

  lemma {:induction false} JoinedOnlyCrLf(chunks: seq<string>)
    requires chunks != [] && forall i :: 0 <= i < |chunks| ==> SingleLine(chunks[i])
    ensures OnlyCrLf(JoinChunks(chunks))
  {
    LineEndOnlyCrLf();
    assert OnlyCrLf(chunks[0]);
    if |chunks| > 1 {
      JoinedOnlyCrLf(chunks[1..]);
      OnlyCrLfConcat(chunks[0], "\r\n ");
      OnlyCrLfConcat(chunks[0] + "\r\n ", JoinChunks(chunks[1..]));
    }
  }

  /** What is written has CRLF line breaks only, as section 3.1 of RFC 5545 demands. */
  lemma {:induction false} RenderedOnlyCrLf(lines: seq<string>)
    requires forall i :: 0 <= i < |lines| ==> SingleLine(lines[i])
    ensures OnlyCrLf(Rendered(lines))
  {
    if lines != [] {
      FoldedOnlyCrLf(lines[0]);
      RenderedOnlyCrLf(lines[1..]);
      OnlyCrLfConcat(Fold(lines[0]) + "\r\n", Rendered(lines[1..]));
    }
  }

  lemma FoldedOnlyCrLf(line: string)
    requires SingleLine(line)
    ensures OnlyCrLf(Fold(line) + "\r\n")
  {
    var chunks := Chunks(line, "", true, LINE_LIMIT);
    ChunksKeepAll(line, "", true, LINE_LIMIT);
    assert "" + line == line;
    ConcatSingleLine(chunks);
    JoinedOnlyCrLf(chunks);
    LineEndOnlyCrLf();
    OnlyCrLfConcat(Fold(line), "\r\n");
  }

  // ------------------------------------------------------------- unfolding

  function RemoveFolds(s: string): string
    decreases |s|
  {
    if s == "" then ""
    else if |s| > 1 && s[0] == '\n' && (s[1] == ' ' || s[1] == '\t') then RemoveFolds(s[2..])
    else [s[0]] + RemoveFolds(s[1..])
  }

  /** A line break before a blank or a tab is removed together with it, wherever it stands. */
  lemma {:induction false} FoldRemoved(a: string, blank: char, b: string)
    requires blank == ' ' || blank == '\t'
    ensures RemoveFolds(a + (['\n', blank] + b)) == RemoveFolds(a) + RemoveFolds(b)
    decreases |a|
  {
    var rest := ['\n', blank] + b;
    if a == "" {
      assert a + rest == rest && rest[2..] == b;
    } else {
      var fold := |a| > 1 && a[0] == '\n' && (a[1] == ' ' || a[1] == '\t');
      var n := if fold then 2 else 1;
      var head := if fold then "" else [a[0]];
      assert |a| == 1 ==> (a + rest)[1] == '\n';
      assert (a + rest)[0] == a[0] && (a + rest)[n..] == a[n..] + rest;
      FoldRemoved(a[n..], blank, b);
      assert RemoveFolds(a) == head + RemoveFolds(a[n..]);
      assert RemoveFolds(a + rest) == head + RemoveFolds(a[n..] + rest);
      assert head + (RemoveFolds(a[n..]) + RemoveFolds(b)) == (head + RemoveFolds(a[n..])) + RemoveFolds(b);
    }
  }

  /** Nothing else is. */
  lemma {:induction false} NoFoldKept(s: string)
    requires forall i :: 0 <= i < |s| - 1 && s[i] == '\n' ==> s[i + 1] != ' ' && s[i + 1] != '\t'
    ensures RemoveFolds(s) == s
    decreases |s|
  {
    if s != "" {
      assert forall i :: 0 <= i < |s[1..]| ==> s[1..][i] == s[i + 1];
      NoFoldKept(s[1..]);
    }
  }

  /** The text as one string of logical lines, each ended or separated by LF. */
  function Flat(text: string): string {
    RemoveFolds(ReplaceBreaks(text, "\n"))
  }

  function Clean(lines: seq<string>): seq<string> {
    if lines == [] then []
    else (if Strip(lines[0]) == "" then [] else [Strip(lines[0])]) + Clean(lines[1..])
  }

  /** `_unfold_ical`: the stripped logical lines that are not blank. */
  function UnfoldIcal(text: string): seq<string> {
    Clean(Split(Flat(text), '\n'))
  }

  lemma {:induction false} FlatPlain(a: string, t: string)
    requires SingleLine(a)
    ensures Flat(a + t) == a + Flat(t)
  {
    if a == "" {
      assert a + t == t && a + Flat(t) == Flat(t);
    } else {
      assert (a + t)[1..] == a[1..] + t;
      FlatPlain(a[1..], t);
      var r := ReplaceBreaks(a[1..] + t, "\n");
      assert ReplaceBreaks(a + t, "\n") == [a[0]] + r;
      assert ([a[0]] + r)[1..] == r;
      assert a + Flat(t) == [a[0]] + (a[1..] + Flat(t));
    }
  }

  lemma FlatContinuation(t: string)
    ensures Flat("\r\n " + t) == Flat(t)
  {
    var s := "\r\n " + t;
    assert s[2..] == " " + t && (" " + t)[1..] == t;
    var r := ReplaceBreaks(t, "\n");
    assert ReplaceBreaks(s, "\n") == "\n" + ([' '] + r);
    assert ("\n" + ([' '] + r))[2..] == r;
  }

  lemma FlatBreak(t: string)
    requires t == "" || (t[0] != ' ' && t[0] != '\t')
    ensures Flat("\r\n" + t) == "\n" + Flat(t)
  {
    assert ("\r\n" + t)[2..] == t;
    var r := ReplaceBreaks(t, "\n");
    assert ("\n" + r)[1..] == r;
    assert r == "" || (r[0] != ' ' && r[0] != '\t');
  }

  lemma {:induction false} FlatJoined(chunks: seq<string>, t: string)
    requires chunks != [] && forall i :: 0 <= i < |chunks| ==> SingleLine(chunks[i])
    ensures Flat(JoinChunks(chunks) + t) == Concat(chunks) + Flat(t)
  {
    if |chunks| == 1 {
      FlatPlain(chunks[0], t);
      assert Concat(chunks) == chunks[0] + "" == chunks[0];
    } else {
      var rest := JoinChunks(chunks[1..]) + t;
      FlatJoined(chunks[1..], t);
      FlatContinuation(rest);
      FlatPlain(chunks[0], "\r\n " + rest);
      assert JoinChunks(chunks) + t == chunks[0] + ("\r\n " + rest);
      assert Concat(chunks) + Flat(t) == chunks[0] + (Concat(chunks[1..]) + Flat(t));
    }
  }

  lemma {:induction false} ConcatSingleLine(chunks: seq<string>)
    requires SingleLine(Concat(chunks))
    ensures forall i :: 0 <= i < |chunks| ==> SingleLine(chunks[i])
  {
    if chunks != [] { ConcatSingleLine(chunks[1..]); }
  }

  lemma FlatFolded(line: string, t: string)
    requires SingleLine(line)
    ensures Flat(Fold(line) + t) == line + Flat(t)
  {
    var chunks := Chunks(line, "", true, LINE_LIMIT);
    ChunksKeepAll(line, "", true, LINE_LIMIT);
    assert "" + line == line;
    ConcatSingleLine(chunks);
    FlatJoined(chunks, t);
  }

  /** The written form of logical lines: each folded and ended by CRLF. */
  function Rendered(lines: seq<string>): string {
    if lines == [] then "" else Fold(lines[0]) + "\r\n" + Rendered(lines[1..])
  }

  /** A logical line that can be written and found again as one line. */
  predicate LineText(line: string) {
    SingleLine(line) && line != "" && !IsSpace(line[0])
  }

  predicate LineTexts(lines: seq<string>) {
    lines == [] || (LineText(lines[0]) && LineTexts(lines[1..]))
  }

  lemma FoldStart(line: string)
    requires line != ""
    ensures Fold(line) != "" && Fold(line)[0] == line[0]
  {
    var chunks := Chunks(line, "", true, LINE_LIMIT);
    ChunksKeepAll(line, "", true, LINE_LIMIT);
    ChunksFit(line, "", true, LINE_LIMIT);
    assert "" + line == line;
    assert chunks[0] != "";
    assert Concat(chunks)[0] == chunks[0][0];
  }

  lemma FlatLine(line: string, rest: string)
    requires SingleLine(line)
    requires rest == "" || (rest[0] != ' ' && rest[0] != '\t')
    ensures Flat(Fold(line) + "\r\n" + rest) == line + ['\n'] + Flat(rest)
  {
    FlatBreak(rest);
    FlatFolded(line, "\r\n" + rest);
    assert Fold(line) + "\r\n" + rest == Fold(line) + ("\r\n" + rest);
    assert line + ("\n" + Flat(rest)) == line + ['\n'] + Flat(rest);
  }

  lemma RenderedStart(lines: seq<string>)
    requires lines != [] ==> LineText(lines[0])
    ensures Rendered(lines) == "" || !IsSpace(Rendered(lines)[0])
  {
    if lines != [] { FoldStart(lines[0]); }
  }

  lemma SplitNext(line: string, rest: string, lines: seq<string>)
    requires '\n' !in line && Split(rest, '\n') == lines + [""]
    ensures Split(line + ['\n'] + rest, '\n') == ([line] + lines) + [""]
  {
    SplitFirst(line, '\n', rest);
    assert ([line] + lines) + [""] == [line] + (lines + [""]);
  }

  lemma HeadAndTail(lines: seq<string>)
    requires lines != []
    ensures [lines[0]] + lines[1..] == lines
  {
  }

  lemma FlatRendered(lines: seq<string>)
    requires lines != [] && LineTexts(lines)
    ensures Flat(Rendered(lines)) == lines[0] + ['\n'] + Flat(Rendered(lines[1..]))
  {
    RenderedStart(lines[1..]);
    FlatLine(lines[0], Rendered(lines[1..]));
  }

  lemma {:induction false} SplitRendered(lines: seq<string>)
    requires LineTexts(lines)
    ensures Split(Flat(Rendered(lines)), '\n') == lines + [""]
  {
    if lines != [] {
      SplitRendered(lines[1..]);
      FlatRendered(lines);
      assert '\n' !in lines[0];
      SplitNext(lines[0], Flat(Rendered(lines[1..])), lines[1..]);
      HeadAndTail(lines);
    }
  }

  lemma {:induction false} CleanConcat(a: seq<string>, b: seq<string>)
    ensures Clean(a + b) == Clean(a) + Clean(b)
  {
    if a == [] {
      assert a + b == b;
    } else {
      assert (a + b)[1..] == a[1..] + b;
      CleanConcat(a[1..], b);
    }
  }

  /** Reading undoes writing up to white space at the ends of each line. */
  lemma UnfoldRendered(lines: seq<string>)
    requires LineTexts(lines)
    ensures UnfoldIcal(Rendered(lines)) == Clean(lines)
  {
    SplitRendered(lines);
    CleanConcat(lines, [""]);
    assert Clean([""]) == [] && Clean(lines) + [] == Clean(lines);
  }

  // -------------------------------------------------------- lines as read

  /** What every line returned by `UnfoldIcal` satisfies. */
  predicate ReadText(line: string) {
    LineText(line) && !IsSpace(line[|line| - 1])
  }

  lemma {:induction false} NoReturnLeft(s: string)
    ensures '\r' !in ReplaceBreaks(s, "\n")
    decreases |s|
  {
    if s != "" { NoReturnLeft(s[if BreakLength(s) > 0 then BreakLength(s) else 1..]); }
  }

  lemma {:induction false} RemoveFoldsKeeps(s: string)
    ensures forall c :: c in RemoveFolds(s) ==> c in s
    decreases |s|
  {
    if s != "" {
      RemoveFoldsKeeps(s[1..]);
      if |s| > 1 { RemoveFoldsKeeps(s[2..]); }
    }
  }

  lemma {:induction false} CleanRead(lines: seq<string>)
    requires forall i :: 0 <= i < |lines| ==> SingleLine(lines[i])
    ensures forall i :: 0 <= i < |Clean(lines)| ==> ReadText(Clean(lines)[i])
  {
    if lines != [] {
      CleanRead(lines[1..]);
      StripEnds(lines[0]);
    }
  }

  lemma UnfoldedRead(text: string)
    ensures forall i :: 0 <= i < |UnfoldIcal(text)| ==> ReadText(UnfoldIcal(text)[i])
  {
    NoReturnLeft(text);
    RemoveFoldsKeeps(ReplaceBreaks(text, "\n"));
    SplitPieces(Flat(text), '\n');
    CleanRead(Split(Flat(text), '\n'));
  }
}
