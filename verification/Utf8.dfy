/** Strict UTF-8 (RFC 3629), as the platform decodes and encodes it. */
module Utf8 {
  import opened PyText

  type byte = b: int | 0 <= b < 256

  function CharBytes(c: char): seq<byte> {
    var n := c as int;
    if n < 0x80 then [n]
    else if n < 0x800 then [0xC0 + n / 64, 0x80 + n % 64]
    else if n < 0x1_0000 then [0xE0 + n / 64 / 64, 0x80 + n / 64 % 64, 0x80 + n % 64]
    else [0xF0 + n / 64 / 64 / 64, 0x80 + n / 64 / 64 % 64, 0x80 + n / 64 % 64, 0x80 + n % 64]
  }

  /** The octets carry the code point in sixes of bits, as in section 3 of RFC 3629. */
  lemma CharBytesAre(c: char)
    ensures var b: seq<int>, n := CharBytes(c), c as int;
      && (n < 0x80 ==> b == [n])
      && (0x80 <= n < 0x800 ==> |b| == 2 && 0xC0 <= b[0] < 0xE0 && n == (b[0] - 0xC0) * 0x40 + (b[1] - 0x80))
      && (0x800 <= n < 0x1_0000 ==>
            |b| == 3 && 0xE0 <= b[0] < 0xF0 && n == (b[0] - 0xE0) * 0x1000 + (b[1] - 0x80) * 0x40 + (b[2] - 0x80))
      && (n >= 0x1_0000 ==>
            |b| == 4 && 0xF0 <= b[0] < 0xF8
            && n == (b[0] - 0xF0) * 0x4_0000 + (b[1] - 0x80) * 0x1000 + (b[2] - 0x80) * 0x40 + (b[3] - 0x80))
      && forall i :: 1 <= i < |b| ==> 0x80 <= b[i] < 0xC0
  {
  }

  function TextBytes(s: string): seq<byte> {
    if s == "" then [] else CharBytes(s[0]) + TextBytes(s[1..])
  }

  predicate Continues(b: seq<byte>, i: nat) {
    i < |b| && 0x80 <= b[i] < 0xC0
  }

  predicate Scalar(n: int) {
    0 <= n < 0xD800 || 0xE000 <= n < 0x11_0000
  }

  /** How many bytes the leading one announces; 0 for none. */
  function Announced(b: byte): nat {
    if b < 0x80 then 1
    else if 0xC0 <= b < 0xE0 then 2
    else if 0xE0 <= b < 0xF0 then 3
    else if 0xF0 <= b < 0xF8 then 4
    else 0
  }

  /** One more continuation byte behind the number read so far. */
  function More(v: int, b: byte): int {
    v * 64 + (b as int - 0x80)
  }

  /** The number in the first `n` bytes, without any check of its size. */
  function Value(b: seq<byte>, n: nat): int
    requires 1 <= n <= 4 && n <= |b|
  {
    if n == 1 then b[0]
    else if n == 2 then More(b[0] as int - 0xC0, b[1])
    else if n == 3 then More(More(b[0] as int - 0xE0, b[1]), b[2])
    else More(More(More(b[0] as int - 0xF0, b[1]), b[2]), b[3])
  }

  /** Too small a number for so many bytes is refused, as are surrogates and numbers beyond the last plane. */
  predicate Shortest(v: int, n: nat) {
    (n == 2 ==> v >= 0x80) && (n == 3 ==> v >= 0x800) && (n == 4 ==> v >= 0x1_0000)
  }

  /** The bytes start with a well-formed character of `n` bytes. */
  predicate StartsWith(b: seq<byte>, n: nat) {
    && b != [] && n == Announced(b[0]) && 1 <= n <= |b|
    && (n >= 2 ==> Continues(b, 1)) && (n >= 3 ==> Continues(b, 2)) && (n >= 4 ==> Continues(b, 3))
    && Shortest(Value(b, n), n) && Scalar(Value(b, n))
  }

  /** Strict decoding: the whole input or nothing. */
  function Decode(b: seq<byte>): Option<string> {
    if b == [] then Some("")
    else
      var n := Announced(b[0]);
      if !StartsWith(b, n) then None
      else
        match Decode(b[n..])
        case None => None
        case Some(t) => Some([Value(b, n) as char] + t)
  }

  lemma MoreSplits(v: int, b: byte)
    requires v >= 0 && 0x80 <= b < 0xC0
    ensures More(v, b) / 64 == v && More(v, b) % 64 == b as int - 0x80
  {
  }

  /** A character is read from its own bytes, whatever follows. */
  lemma CharIsRead(c: char, rest: seq<byte>)
    ensures var b := CharBytes(c) + rest; var n := |CharBytes(c)|;
      StartsWith(b, n) && Value(b, n) == c as int && b[n..] == rest
  {
    var b := CharBytes(c) + rest;
    assert forall i :: 0 <= i < |CharBytes(c)| ==> b[i] == CharBytes(c)[i];
  }

  /** And only from them. */
  lemma ReadIsChar(b: seq<byte>, n: nat)
    requires StartsWith(b, n)
    ensures b[..n] == CharBytes(Value(b, n) as char)
  {
    match n
    case 1 =>
    case 2 => MoreSplits(b[0] as int - 0xC0, b[1]);
    case 3 => ReadThree(b);
    case 4 => ReadFour(b);
  }

  lemma ReadThree(b: seq<byte>)
    requires StartsWith(b, 3)
    ensures b[..3] == CharBytes(Value(b, 3) as char)
  {
    var v := b[0] as int - 0xE0;
    MoreSplits(v, b[1]);
    MoreSplits(More(v, b[1]), b[2]);
  }

  lemma ReadFour(b: seq<byte>)
    requires StartsWith(b, 4)
    ensures b[..4] == CharBytes(Value(b, 4) as char)
  {
    var v := b[0] as int - 0xF0;
    var two := More(v, b[1]);
    var three := More(two, b[2]);
    MoreSplits(v, b[1]);
    MoreSplits(two, b[2]);
    MoreSplits(three, b[3]);
    FourBytes(More(three, b[3]), three, two, v);
    assert b[..4] == [b[0], b[1], b[2], b[3]];
  }

  lemma FourBytes(n: int, three: int, two: int, v: int)
    requires 0x1_0000 <= n < 0x11_0000 && n / 64 == three && three / 64 == two && two / 64 == v
    ensures CharBytes(n as char) == [0xF0 + v, 0x80 + two % 64, 0x80 + three % 64, 0x80 + n % 64]
  {
  }

  lemma {:induction false} EncodedIsRead(s: string)
    ensures Decode(TextBytes(s)) == Some(s)
  {
    if s != "" {
      EncodedIsRead(s[1..]);
      CharIsRead(s[0], TextBytes(s[1..]));
      assert [s[0]] + s[1..] == s;
    }
  }

  lemma {:induction false} ReadIsEncoded(b: seq<byte>)
    requires Decode(b).Some?
    ensures TextBytes(Decode(b).value) == b
  {
    if b != [] {
      var n := DecodeStep(b);
      ReadIsChar(b, n);
      ReadIsEncoded(b[n..]);
      TextCons(Value(b, n) as char, Decode(b[n..]).value);
      Rejoin(b, n);
    }
  }

  lemma Rejoin<T>(s: seq<T>, n: nat)
    requires n <= |s|
    ensures s == s[..n] + s[n..]
  {
  }

  lemma DecodeStep(b: seq<byte>) returns (n: nat)
    requires b != [] && Decode(b).Some?
    ensures StartsWith(b, n) && Decode(b[n..]).Some?
    ensures Decode(b).value == [Value(b, n) as char] + Decode(b[n..]).value
  {
    n := Announced(b[0]);
  }

  lemma TextCons(c: char, t: string)
    ensures TextBytes([c] + t) == CharBytes(c) + TextBytes(t)
  {
    assert ([c] + t)[1..] == t;
  }

  /** Decoding is exactly the inverse of encoding. */
  lemma DecodeExactly(b: seq<byte>, s: string)
    ensures Decode(b) == Some(s) <==> b == TextBytes(s)
  {
    EncodedIsRead(s);
    if Decode(b) == Some(s) { ReadIsEncoded(b); }
  }
}
