/**
 Mailbox names in IMAP's modified UTF-7 (section 5.1.3 of RFC 3501): the encoder
 and the decoder of src/mailhelp/mailbox/imap.py, with base64 and UTF-16-BE.
 */
module ModifiedUtf7 {
  import opened PyText
  import opened Utf8

  const AMPERSAND: byte := 0x26
  const COMMA: byte := 0x2C
  const MINUS: byte := 0x2D
  const SLASH: byte := 0x2F
  const EQUALS: byte := 0x3D

  // ---------------------------------------------------------------- UTF-16

  function CharUnits(c: char): seq<byte> {
    var n := c as int;
    if n < 0x1_0000 then [n / 256, n % 256]
    else
      var high, low := 0xD800 + (n - 0x1_0000) / 0x400, 0xDC00 + (n - 0x1_0000) % 0x400;
      [high / 256, high % 256, low / 256, low % 256]
  }

  function Utf16(s: string): seq<byte> {
    if s == "" then [] else CharUnits(s[0]) + Utf16(s[1..])
  }

  /** Strict decoding: a half pair or an odd byte is an error. */
  function FromUtf16(b: seq<byte>): Option<string> {
    if b == [] then Some("")
    else if |b| < 2 then None
    else
      var u := b[0] as int * 256 + b[1];
      if 0xD800 <= u < 0xDC00 then
        if |b| < 4 then None
        else
          var v := b[2] as int * 256 + b[3];
          if 0xDC00 <= v < 0xE000 then
            Prepend([(0x1_0000 + (u - 0xD800) * 0x400 + (v - 0xDC00)) as char], FromUtf16(b[4..]))
          else None
      else if 0xDC00 <= u < 0xE000 then None
      else Prepend([u as char], FromUtf16(b[2..]))
  }

  function Prepend(s: string, rest: Option<string>): Option<string> {
    match rest
    case None => None
    case Some(t) => Some(s + t)
  }

  lemma PrependTwice(a: string, b: string, rest: Option<string>)
    ensures Prepend(a, Prepend(b, rest)) == Prepend(a + b, rest)
    ensures Prepend("", rest) == rest
  {
    match rest
    case None =>
    case Some(t) =>
      assert a + (b + t) == (a + b) + t && "" + t == t;
  }

  lemma CharUnitsDecode(c: char, rest: seq<byte>)
    ensures FromUtf16(CharUnits(c) + rest) == Prepend([c], FromUtf16(rest))
  {
    var n := c as int;
    var b := CharUnits(c) + rest;
    if n < 0x1_0000 {
      assert b[2..] == rest;
      assert b[0] as int * 256 + b[1] == n;
    } else {
      assert b[4..] == rest;
      assert b[0] as int * 256 + b[1] == 0xD800 + (n - 0x1_0000) / 0x400;
      assert b[2] as int * 256 + b[3] == 0xDC00 + (n - 0x1_0000) % 0x400;
    }
  }

  lemma {:induction false} Utf16RoundTrip(s: string)
    ensures FromUtf16(Utf16(s)) == Some(s)
  {
    if s != "" {
      Utf16RoundTrip(s[1..]);
      CharUnitsDecode(s[0], Utf16(s[1..]));
      assert [s[0]] + s[1..] == s;
    }
  }

  // ---------------------------------------------------------------- base64

  type sextet = v: int | 0 <= v < 64

  function Symbol(v: sextet): byte {
    if v < 26 then 0x41 + v
    else if v < 52 then 0x61 + v - 26
    else if v < 62 then 0x30 + v - 52
    else if v == 62 then 0x2B else SLASH
  }

  function Value(b: byte): Option<sextet> {
    if 0x41 <= b <= 0x5A then Some(b - 0x41)
    else if 0x61 <= b <= 0x7A then Some(b - 0x61 + 26)
    else if 0x30 <= b <= 0x39 then Some(b - 0x30 + 52)
    else if b == 0x2B then Some(62)
    else if b == SLASH then Some(63)
    else None
  }

  function Symbols(v: seq<sextet>): (r: seq<byte>)
    ensures |r| == |v|
  {
    seq(|v|, i requires 0 <= i < |v| => Symbol(v[i]))
  }

  // The four sextets of three bytes, and the three bytes of four sextets.
  function S0(x: byte): sextet { x / 4 }
  function S1(x: byte, y: byte): sextet { (x % 4) * 16 + y / 16 }
  function S2(y: byte, z: byte): sextet { (y % 16) * 4 + z / 64 }
  function S3(z: byte): sextet { z % 64 }
  function B0(a: sextet, b: sextet): byte { a as int * 4 + b / 16 }
  function B1(b: sextet, c: sextet): byte { (b as int % 16) * 16 + c / 4 }
  function B2(c: sextet, d: sextet): byte { (c as int % 4) * 64 + d }

  lemma FirstByte(x: byte, y: byte)
    ensures B0(S0(x), S1(x, y)) == x
  {
    assert ((x % 4) * 16 + y / 16) / 16 == x % 4;
  }

  lemma SecondByte(x: byte, y: byte, z: byte)
    ensures B1(S1(x, y), S2(y, z)) == y
  {
    assert ((x % 4) * 16 + y / 16) % 16 == y / 16;
    assert ((y % 16) * 4 + z / 64) / 4 == y % 16;
  }

  lemma ThirdByte(y: byte, z: byte)
    ensures B2(S2(y, z), S3(z)) == z
  {
    assert ((y % 16) * 4 + z / 64) % 4 == z / 64;
  }

  /** Three bytes are four sextets; one or two bytes at the end leave zero bits. */
  function Sextets(b: seq<byte>): (r: seq<sextet>)
    ensures |r| % 4 != 1
    ensures b != [] ==> r != []
  {
    if |b| == 0 then []
    else if |b| == 1 then [S0(b[0]), S1(b[0], 0)]
    else if |b| == 2 then [S0(b[0]), S1(b[0], b[1]), S2(b[1], 0)]
    else
      var rest := Sextets(b[3..]);
      assert (4 + |rest|) % 4 == |rest| % 4;
      [S0(b[0]), S1(b[0], b[1]), S2(b[1], b[2]), S3(b[2])] + rest
  }

  function Padding(n: nat): (r: seq<byte>)
    ensures |r| == n
    ensures forall i :: 0 <= i < n ==> r[i] == EQUALS
  {
    if n == 0 then [] else Padding(n - 1) + [EQUALS]
  }

  function EndPadding(n: nat): nat {
    (3 - n % 3) % 3
  }

  function Base64Encode(b: seq<byte>): seq<byte> {
    Symbols(Sextets(b)) + Padding(EndPadding(|b|))
  }

  function RStripEquals(b: seq<byte>): seq<byte> {
    if b != [] && b[|b| - 1] == EQUALS then RStripEquals(b[..|b| - 1]) else b
  }

  function Values(b: seq<byte>): Option<seq<sextet>> {
    if b == [] then Some([])
    else
      match Value(b[0])
      case None => None
      case Some(v) =>
        match Values(b[1..])
        case None => None
        case Some(vs) => Some([v] + vs)
  }

  /** Bits left over at the end are ignored. */
  function Bytes(v: seq<sextet>): seq<byte> {
    if |v| < 2 then []
    else if |v| == 2 then [B0(v[0], v[1])]
    else if |v| == 3 then [B0(v[0], v[1]), B1(v[1], v[2])]
    else [B0(v[0], v[1]), B1(v[1], v[2]), B2(v[2], v[3])] + Bytes(v[4..])
  }

  /** The padding that fills `n` symbols up to a multiple of four. */
  function Pads(n: nat): (p: nat)
    ensures (n + p) % 4 == 0 && p < 4
  {
    (4 - n % 4) % 4
  }

  /** Validating decoder: only the alphabet, and exactly the padding the data length needs. */
  function Base64Decode(b: seq<byte>): Option<seq<byte>> {
    var data := RStripEquals(b);
    var pads := |b| - |data|;
    if pads != Pads(|data|) || |data| % 4 == 1 then None
    else
      match Values(data)
      case None => None
      case Some(v) => Some(Bytes(v))
  }

  lemma {:induction false} SextetsRoundTrip(b: seq<byte>)
    ensures Bytes(Sextets(b)) == b
  {
    if b != [] {
      FirstByte(b[0], if |b| == 1 then 0 else b[1]);
    }
    if |b| >= 2 {
      SecondByte(b[0], b[1], if |b| == 2 then 0 else b[2]);
    }
    if |b| >= 3 {
      ThirdByte(b[1], b[2]);
      SextetsRoundTrip(b[3..]);
      assert Sextets(b)[4..] == Sextets(b[3..]);
      assert b == [b[0], b[1], b[2]] + b[3..];
    }
  }

  lemma {:induction false} ValuesOfSymbols(v: seq<sextet>)
    ensures Values(Symbols(v)) == Some(v)
    ensures EQUALS !in Symbols(v) && COMMA !in Symbols(v) && MINUS !in Symbols(v)
  {
    if v != [] {
      ValuesOfSymbols(v[1..]);
      assert Symbols(v)[1..] == Symbols(v[1..]);
      assert Symbols(v) == [Symbol(v[0])] + Symbols(v[1..]);
      assert [v[0]] + v[1..] == v;
    }
  }

  lemma {:induction false} StripPadding(b: seq<byte>, n: nat)
    requires EQUALS !in b
    ensures RStripEquals(b + Padding(n)) == b
  {
    var s := b + Padding(n);
    if n == 0 {
      assert s == b;
    } else {
      assert Padding(n) == Padding(n - 1) + [EQUALS];
      assert s[..|s| - 1] == b + Padding(n - 1);
      StripPadding(b, n - 1);
    }
  }

  // ---------------------------------------------------- encoding of a name

  function Replaced(b: seq<byte>, from: byte, to: byte): (r: seq<byte>)
    ensures |r| == |b|
    ensures forall i :: 0 <= i < |b| ==> r[i] == if b[i] == from then to else b[i]
  {
    seq(|b|, i requires 0 <= i < |b| => if b[i] == from then to else b[i])
  }

  /** Base64 without its padding, and with `,` for `/`. */
  function Written(pending: string): seq<byte> {
    Replaced(RStripEquals(Base64Encode(Utf16(pending))), SLASH, COMMA)
  }

  /** The shift sequence of the characters collected so far; nothing when there are none. */
  function Flushed(pending: string): seq<byte> {
    if pending == "" then []
    else [AMPERSAND] + Written(pending) + [MINUS]
  }

  predicate Direct(c: char) {
    0x20 <= c as int <= 0x7E
  }

  function DirectBytes(c: char): seq<byte>
    requires Direct(c)
  {
    if c == '&' then [AMPERSAND, MINUS] else [c as int]
  }

  /** What is written for `value` while the characters of `pending` are still unwritten. */
  function Encoded(value: string, pending: string): seq<byte> {
    if value == "" then Flushed(pending)
    else if Direct(value[0]) then Flushed(pending) + DirectBytes(value[0]) + Encoded(value[1..], "")
    else Encoded(value[1..], pending + [value[0]])
  }

  /** One character further, what is written and what is still to be written stay the same together. */
  lemma EncodedNext(value: string, i: nat, pending: string, result: seq<byte>)
    requires i < |value|
    ensures result + Encoded(value[i..], pending)
         == if Direct(value[i]) then result + Flushed(pending) + DirectBytes(value[i]) + Encoded(value[i + 1..], "")
            else result + Encoded(value[i + 1..], pending + [value[i]])
  {
    assert value[i..][0] == value[i] && value[i..][1..] == value[i + 1..];
  }

  method EncodeMailboxName(value: string) returns (result: seq<byte>)
    ensures result == Encoded(value, "")
  {
    result := [];
    var nonAscii := "";
    for i := 0 to |value|
      invariant result + Encoded(value[i..], nonAscii) == Encoded(value, "")
    {
      var c := value[i];
      EncodedNext(value, i, nonAscii, result);
      if Direct(c) {
        result := result + Flushed(nonAscii);
        nonAscii := "";
        result := result + DirectBytes(c);
      } else {
        nonAscii := nonAscii + [c];
      }
    }
    result := result + Flushed(nonAscii);
  }

  // ---------------------------------------------------- decoding of a name

  datatype Decoded =
    | Name(name: string)
    | Invalid

  predicate SevenBit(b: seq<byte>) {
    forall i :: 0 <= i < |b| ==> b[i] <= 127
  }

  function Ascii(b: seq<byte>): string
  {
    seq(|b|, i requires 0 <= i < |b| => b[i] as char)
  }

  /** The characters of one shift sequence, without its `&` and `-`. */
  function Shifted(encoded: seq<byte>): Option<string> {
    if encoded == [] then Some("&")
    else
      match Base64Decode(Replaced(encoded, COMMA, SLASH) + Padding(Pads(|encoded|)))
      case None => None
      case Some(b) => FromUtf16(b)
  }

  function Text(value: seq<byte>): Option<string>
  {
    if value == [] then Some("")
    else if value[0] != AMPERSAND then Prepend([value[0] as char], Text(value[1..]))
    else
      var end := IndexOf(value, MINUS);
      if end == |value| then None
      else
        match Shifted(value[1..end])
        case None => None
        case Some(s) => Prepend(s, Text(value[end + 1..]))
  }

  /** Names a decoder may return: not blank and without control characters below 32. */
  predicate Acceptable(name: string) {
    Strip(name) != "" && forall c :: c in name ==> c as int >= 32
  }

  /** A byte above 127: the name is sent as plain UTF-8, and taken as it is. */
  function PlainName(value: seq<byte>): Decoded {
    match Decode(value)
    case None => Invalid
    case Some(name) => Name(name)
  }

  function DecodedName(value: seq<byte>): Decoded {
    if !SevenBit(value) then PlainName(value)
    else
      match Text(value)
      case None => Invalid
      case Some(name) => if Acceptable(name) then Name(name) else Invalid
  }

  lemma {:induction false} PlainPrefix(value: seq<byte>, n: nat)
    requires n <= |value| && AMPERSAND !in value[..n]
    ensures Text(value) == Prepend(Ascii(value[..n]), Text(value[n..]))
  {
    PrependTwice("", "", Text(value));
    if n == 0 {
      assert value[0..] == value && Ascii(value[..0]) == "";
    } else {
      assert value[..n][0] == value[0];
      assert value[1..][..n - 1] == value[..n][1..];
      PlainPrefix(value[1..], n - 1);
      assert value[1..][n - 1..] == value[n..];
      assert Ascii(value[..n]) == [value[0] as char] + Ascii(value[1..][..n - 1]);
      PrependTwice([value[0] as char], Ascii(value[1..][..n - 1]), Text(value[n..]));
    }
  }

  method DecodeMailboxName(value: seq<byte>) returns (result: Decoded)
    ensures result == DecodedName(value)
  {
    if !SevenBit(value) {
      return PlainName(value);
    }
    var text := DecodeShifts(value);
    return if text.Some? && Acceptable(text.value) then Name(text.value) else Invalid;
  }

  /** The scan for shift sequences; `None` is the error. */
  method DecodeShifts(value: seq<byte>) returns (result: Option<string>)
    ensures result == Text(value)
  {
    var text := "";
    var position := 0;
    PrependTwice("", "", Text(value));
    assert value[0..] == value;
    while position < |value|
      invariant 0 <= position <= |value|
      invariant Text(value) == Prepend(text, Text(value[position..]))
    {
      var piece, used := NextPiece(value[position..]);
      if piece.None? {
        return None;
      }
      PieceText(value, position, text, piece.value, used);
      text := text + piece.value;
      position := position + used;
    }
    assert value[position..] == [];
    assert text + "" == text;
    return Some(text);
  }

  /** The characters up to and with the next shift sequence, and how many octets they take. */
  method NextPiece(rest: seq<byte>) returns (piece: Option<string>, used: nat)
    requires rest != []
    ensures piece.None? ==> Text(rest) == None
    ensures piece.Some? ==> 0 < used <= |rest| && Text(rest) == Prepend(piece.value, Text(rest[used..]))
  {
    var marker := IndexOf(rest, AMPERSAND);
    PlainPrefix(rest, marker);
    var plain := Ascii(rest[..marker]);
    if marker == |rest| {
      return Some(plain), marker;
    }
    var decoded, taken := ReadShift(rest[marker..]);
    if decoded.None? {
      return None, 0;
    }
    PieceText(rest, marker, plain, decoded.value, taken);
    return Some(plain + decoded.value), marker + taken;
  }

  lemma PieceText(rest: seq<byte>, marker: nat, plain: string, shifted: string, taken: nat)
    requires marker + taken <= |rest| && Text(rest) == Prepend(plain, Text(rest[marker..]))
    requires Text(rest[marker..]) == Prepend(shifted, Text(rest[marker..][taken..]))
    ensures Text(rest) == Prepend(plain + shifted, Text(rest[marker + taken..]))
  {
    DropDrop(rest, marker, taken);
    PrependTwice(plain, shifted, Text(rest[marker + taken..]));
  }

  method ReadShift(shift: seq<byte>) returns (decoded: Option<string>, taken: nat)
    requires shift != [] && shift[0] == AMPERSAND
    ensures decoded.None? ==> Text(shift) == None
    ensures decoded.Some? ==> 0 < taken <= |shift| && Text(shift) == Prepend(decoded.value, Text(shift[taken..]))
  {
    var end := IndexOf(shift, MINUS);
    if end == |shift| {
      return None, 0;
    }
    decoded := Shifted(shift[1..end]);
    taken := end + 1;
  }

  lemma DropDrop<T>(s: seq<T>, i: nat, j: nat)
    requires i + j <= |s|
    ensures s[i..][j..] == s[i + j..]
  {
  }

  // ------------------------------------------------------------ round trip

  predicate IsAscii(b: seq<byte>) {
    forall i :: 0 <= i < |b| ==> 0x20 <= b[i] <= 0x7E
  }

  lemma UnpaddedSymbols(v: seq<sextet>, n: nat)
    ensures RStripEquals(Symbols(v) + Padding(n)) == Symbols(v)
  {
    ValuesOfSymbols(v);
    StripPadding(Symbols(v), n);
  }

  lemma WrittenSymbols(pending: string)
    ensures Written(pending) == Replaced(Symbols(Sextets(Utf16(pending))), SLASH, COMMA)
  {
    UnpaddedSymbols(Sextets(Utf16(pending)), EndPadding(|Utf16(pending)|));
  }

  lemma SymbolIsPlain(v: sextet)
    ensures 0x20 <= Symbol(v) <= 0x7E && Symbol(v) != MINUS && Symbol(v) != COMMA
  {
  }

  /** The body of a shift sequence uses only the modified alphabet, without padding. */
  lemma WrittenIsPlain(pending: string)
    ensures IsAscii(Written(pending)) && MINUS !in Written(pending)
    ensures pending != "" ==> Written(pending) != []
  {
    var v := Sextets(Utf16(pending));
    WrittenSymbols(pending);
    forall i | 0 <= i < |v|
      ensures 0x20 <= Written(pending)[i] <= 0x7E && Written(pending)[i] != MINUS
    {
      SymbolIsPlain(v[i]);
    }
  }

  lemma WrittenDecodes(pending: string)
    requires pending != ""
    ensures Shifted(Written(pending)) == Some(pending)
  {
    var v := Sextets(Utf16(pending));
    var symbols := Symbols(v);
    WrittenSymbols(pending);
    WrittenIsPlain(pending);
    SextetsRoundTrip(Utf16(pending));
    ValuesOfSymbols(v);
    assert Replaced(Written(pending), COMMA, SLASH) == symbols by {
      forall i | 0 <= i < |v| ensures Replaced(Written(pending), COMMA, SLASH)[i] == symbols[i] {
        SymbolIsPlain(v[i]);
      }
    }
    var pads := Pads(|v|);
    StripPadding(symbols, pads);
    assert Base64Decode(symbols + Padding(pads)) == Some(Utf16(pending));
    Utf16RoundTrip(pending);
  }

  /** A shift sequence decodes to the characters it was made of, whatever follows it. */
  lemma FlushedDecodes(pending: string, rest: seq<byte>)
    ensures Text(Flushed(pending) + rest) == Prepend(pending, Text(rest))
  {
    if pending == "" {
      assert Flushed(pending) + rest == rest;
      PrependTwice("", "", Text(rest));
    } else {
      WrittenIsPlain(pending);
      WrittenDecodes(pending);
      ShiftStep(Written(pending), rest);
      assert Flushed(pending) + rest == [AMPERSAND] + Written(pending) + [MINUS] + rest;
    }
  }

  lemma ShiftStep(body: seq<byte>, rest: seq<byte>)
    requires MINUS !in body
    ensures Text([AMPERSAND] + body + [MINUS] + rest)
         == (match Shifted(body) case None => None case Some(s) => Prepend(s, Text(rest)))
  {
    var value := [AMPERSAND] + body + [MINUS] + rest;
    IndexOfAppend([AMPERSAND] + body, MINUS, rest);
    assert value[1..|body| + 1] == body && value[|body| + 2..] == rest;
  }

  lemma DirectStep(c: char, rest: seq<byte>)
    requires Direct(c)
    ensures Text(DirectBytes(c) + rest) == Prepend([c], Text(rest))
  {
    var value := DirectBytes(c) + rest;
    if c == '&' {
      ShiftStep([], rest);
      assert value == [AMPERSAND] + [] + [MINUS] + rest;
    } else {
      assert value[0] == c as int && value[1..] == rest;
    }
  }

  lemma {:induction false} EncodedIsAscii(value: string, pending: string)
    ensures IsAscii(Encoded(value, pending))
    decreases |value|
  {
    WrittenIsPlain(pending);
    assert IsAscii(Flushed(pending));
    if value != "" {
      if Direct(value[0]) {
        EncodedIsAscii(value[1..], "");
        assert IsAscii(DirectBytes(value[0]));
        AsciiConcat(Flushed(pending), DirectBytes(value[0]));
        AsciiConcat(Flushed(pending) + DirectBytes(value[0]), Encoded(value[1..], ""));
      } else {
        EncodedIsAscii(value[1..], pending + [value[0]]);
      }
    }
  }

  lemma AsciiConcat(a: seq<byte>, b: seq<byte>)
    requires IsAscii(a) && IsAscii(b)
    ensures IsAscii(a + b)
  {
  }

  lemma FlushedThen(pending: string, c: char, written: seq<byte>, tail: seq<byte>)
    requires Text(written + tail) == Prepend([c], Text(tail))
    ensures Text(Flushed(pending) + (written + tail)) == Prepend(pending + [c], Text(tail))
  {
    FlushedDecodes(pending, written + tail);
    PrependTwice(pending, [c], Text(tail));
  }

  lemma Reassociated(a: seq<byte>, b: seq<byte>, c: seq<byte>)
    ensures a + b + c == a + (b + c)
  {
  }

  lemma FlushedThenDirect(pending: string, c: char, tail: seq<byte>)
    requires Direct(c)
    ensures Text(Flushed(pending) + DirectBytes(c) + tail) == Prepend(pending + [c], Text(tail))
  {
    DirectStep(c, tail);
    FlushedThen(pending, c, DirectBytes(c), tail);
    Reassociated(Flushed(pending), DirectBytes(c), tail);
  }

  lemma PendingThenRest(pending: string, value: string)
    requires value != ""
    ensures (pending + [value[0]]) + value[1..] == pending + value
  {
  }

  lemma {:induction false} EncodedDecodes(value: string, pending: string)
    ensures Text(Encoded(value, pending)) == Some(pending + value)
    decreases |value|
  {
    if value == "" {
      assert Flushed(pending) + [] == Flushed(pending);
      FlushedDecodes(pending, []);
    } else if Direct(value[0]) {
      EncodedDecodes(value[1..], "");
      FlushedThenDirect(pending, value[0], Encoded(value[1..], ""));
      assert "" + value[1..] == value[1..];
      PendingThenRest(pending, value);
    } else {
      EncodedDecodes(value[1..], pending + [value[0]]);
      PendingThenRest(pending, value);
    }
  }

  /** The decoder undoes the encoder on every name, and rejects exactly the unacceptable ones. */
  lemma RoundTrip(name: string)
    ensures DecodedName(Encoded(name, ""))
         == if Strip(name) != "" && forall c :: c in name ==> c as int >= 32 then Name(name) else Invalid
  {
    EncodedIsAscii(name, "");
    EncodedDecodes(name, "");
    assert "" + name == name;
  }

  /** A name with a byte above 127 is read if and only if it is the UTF-8 of that name. */
  lemma PlainExactly(value: seq<byte>, name: string)
    requires !SevenBit(value)
    ensures DecodedName(value) == Name(name) <==> value == TextBytes(name)
  {
    DecodeExactly(value, name);
  }

  /** Two different names never share their wire form. */
  lemma EncodingIsInjective(a: string, b: string)
    requires Encoded(a, "") == Encoded(b, "")
    ensures a == b
  {
    EncodedDecodes(a, "");
    EncodedDecodes(b, "");
    assert "" + a == a && "" + b == b;
  }

  // --------------------------------------------- the form the standard gives

  /** The alphabet of base64, as in section 4 of RFC 4648; a shift sequence has `,` for the last one. */
  lemma StandardAlphabet(v: sextet)
    ensures Symbol(v) ==
      if v < 26 then 'A' as int + v
      else if v < 52 then 'a' as int + (v - 26)
      else if v < 62 then '0' as int + (v - 52)
      else if v == 62 then '+' as int
      else '/' as int
    ensures Replaced([Symbol(v)], SLASH, COMMA) == [if v == 63 then ',' as int else Symbol(v)]
  {
  }

  /** Three octets and their four sextets are the same 24 bits. */
  lemma SameBits(x: byte, y: byte, z: byte)
    ensures x * 0x1_0000 + y * 0x100 + z == S0(x) * 0x4_0000 + S1(x, y) * 0x1000 + S2(y, z) * 0x40 + S3(z)
    ensures x * 0x100 + y == S0(x) * 0x400 + S1(x, y) * 0x10 + S2(y, 0) / 4 && S2(y, 0) % 4 == 0
    ensures x == S0(x) * 4 + S1(x, 0) / 16 && S1(x, 0) % 16 == 0
  {
    assert y / 16 * 16 + y % 16 == y && x / 4 * 4 + x % 4 == x && z / 64 * 64 + z % 64 == z;
    assert ((y % 16) * 4) / 4 == y % 16 && ((y % 16) * 4) % 4 == 0;
    assert ((x % 4) * 16) / 16 == x % 4 && ((x % 4) * 16) % 16 == 0;
  }

  /** UTF-16 with the high octet first, and surrogates above the first plane. */
  lemma BigEndianUnits(c: char)
    ensures var u: seq<int>, n := CharUnits(c), c as int;
      if n < 0x1_0000 then |u| == 2 && u[0] * 0x100 + u[1] == n
      else
        && |u| == 4 && 0xD800 <= u[0] * 0x100 + u[1] < 0xDC00 && 0xDC00 <= u[2] * 0x100 + u[3] < 0xE000
        && n == 0x1_0000 + (u[0] * 0x100 + u[1] - 0xD800) * 0x400 + (u[2] * 0x100 + u[3] - 0xDC00)
  {
  }

  /** A printable ASCII name without `&` is sent as it is. */
  lemma {:induction false} PlainStays(name: string)
    requires forall c :: c in name ==> 0x20 <= c as int <= 0x7E && c != '&'
    ensures |Encoded(name, "")| == |name|
    ensures forall i :: 0 <= i < |name| ==> Encoded(name, "")[i] == name[i] as int
  {
    if name != "" {
      var rest := Encoded(name[1..], "");
      assert name[0] in name && forall c :: c in name[1..] ==> c in name;
      PlainStays(name[1..]);
      assert Flushed("") == [] && DirectBytes(name[0]) == [name[0] as int];
      assert Encoded(name, "") == [] + [name[0] as int] + rest;
      forall i | 0 <= i < |name| ensures Encoded(name, "")[i] == name[i] as int {
        if i > 0 { assert name[1..][i - 1] == name[i] && rest[i - 1] == name[1..][i - 1] as int; }
      }
    }
  }

  /** `&` itself is `&-`. */
  lemma AmpersandIs()
    ensures Encoded("&", "") == ['&' as int, '-' as int]
  {
    assert "&"[1..] == "" && Encoded("", "") == [];
  }

  /** A part of the example in section 5.1.3 of RFC 3501: Taipei is sent as `&U,BTFw-`. */
  lemma KnownName()
    ensures Encoded([0x53F0 as char, 0x5317 as char], "")
         == ['&' as int, 'U' as int, ',' as int, 'B' as int, 'T' as int, 'F' as int, 'w' as int, '-' as int]
  {
    var a, b := 0x53F0 as char, 0x5317 as char;
    var name := [a, b];
    KnownUnits();
    KnownSextets();
    KnownBase64();
    assert name[1..] == [b] && [b][1..] == "" && "" + [a] == [a] && [a] + [b] == name;
    assert Encoded(name, "") == Encoded([b], [a]) == Encoded("", name) == Flushed(name);
  }

  lemma KnownUnits()
    ensures Utf16([0x53F0 as char, 0x5317 as char]) == [0x53, 0xF0, 0x53, 0x17]
  {
    var name := [0x53F0 as char, 0x5317 as char];
    assert name[1..] == [0x5317 as char] && [0x5317 as char][1..] == "";
    assert Utf16([0x5317 as char]) == [0x53, 0x17] + [];
  }

  lemma KnownSextets()
    ensures Sextets([0x53, 0xF0, 0x53, 0x17]) == [20, 63, 1, 19, 5, 48]
  {
    var b: seq<byte> := [0x53, 0xF0, 0x53, 0x17];
    assert b[3..] == [0x17];
    assert Sextets([0x17]) == [5, 48];
  }

  lemma KnownBase64()
    ensures Written([0x53F0 as char, 0x5317 as char])
         == ['U' as int, ',' as int, 'B' as int, 'T' as int, 'F' as int, 'w' as int]
  {
    KnownUnits();
    KnownSextets();
    var v: seq<sextet> := [20, 63, 1, 19, 5, 48];
    var symbols := Symbols(v);
    assert symbols == [0x55, 0x2F, 0x42, 0x54, 0x46, 0x77];
    StripPadding(symbols, 2);
  }
}
