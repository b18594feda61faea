/** Text operations of the host language that several modules share. */
module PyText {

  datatype Option<+T> = None | Some(value: T)

  /** The characters `str.strip` and the regular expression class `\s` treat as white space. */
  predicate IsSpace(c: char) {
    var n := c as int;
    || 0x09 <= n <= 0x0D
    || 0x1C <= n <= 0x20
    || n in {0x85, 0xA0, 0x1680, 0x2028, 0x2029, 0x202F, 0x205F, 0x3000}
    || 0x2000 <= n <= 0x200A
  }

  function LStrip(s: string): string {
    if s != "" && IsSpace(s[0]) then LStrip(s[1..]) else s
  }

  function RStrip(s: string): string {
    if s != "" && IsSpace(s[|s| - 1]) then RStrip(s[..|s| - 1]) else s
  }

  function Strip(s: string): string {
    RStrip(LStrip(s))
  }

  /** The first index of `c` in `s`, or `|s|` when it does not occur. */
  function IndexOf<T(==)>(s: seq<T>, c: T): (i: nat)
    ensures i <= |s|
    ensures c !in s[..i]
    ensures i < |s| ==> s[i] == c
    ensures i == |s| <==> c !in s
  {
    if s == [] then 0
    else if s[0] == c then 0
    else
      var r := IndexOf(s[1..], c);
      assert s[..r + 1] == [s[0]] + s[1..][..r];
      r + 1
  }

  lemma {:induction false} IndexOfAppend<T>(a: seq<T>, c: T, b: seq<T>)
    requires c !in a
    ensures IndexOf(a + [c] + b, c) == |a|
  {
    if a == [] {
      assert (a + [c] + b)[0] == c;
    } else {
      assert (a + [c] + b)[1..] == a[1..] + [c] + b;
      IndexOfAppend(a[1..], c, b);
    }
  }

  lemma {:induction false} RStripIsPrefix(s: string)
    ensures |RStrip(s)| <= |s| && RStrip(s) == s[..|RStrip(s)|]
    ensures RStrip(s) != "" ==> !IsSpace(RStrip(s)[|RStrip(s)| - 1])
    ensures forall i :: |RStrip(s)| <= i < |s| ==> IsSpace(s[i])
  {
    if s != "" && IsSpace(s[|s| - 1]) { RStripIsPrefix(s[..|s| - 1]); }
  }

  lemma {:induction false} LStripIsSuffix(s: string)
    ensures |LStrip(s)| <= |s| && LStrip(s) == s[|s| - |LStrip(s)|..]
    ensures LStrip(s) != "" ==> !IsSpace(LStrip(s)[0])
    ensures forall i :: 0 <= i < |s| - |LStrip(s)| ==> IsSpace(s[i])
  {
    if s != "" && IsSpace(s[0]) {
      LStripIsSuffix(s[1..]);
      assert forall i :: 1 <= i < |s| - |LStrip(s)| ==> s[i] == s[1..][i - 1];
    }
  }

  lemma StripEnds(s: string)
    ensures Strip(s) != "" ==> !IsSpace(Strip(s)[0]) && !IsSpace(Strip(s)[|Strip(s)| - 1])
    ensures forall c :: c in Strip(s) ==> c in s
  {
    LStripIsSuffix(s);
    RStripIsPrefix(LStrip(s));
  }

  lemma StripIdempotent(s: string)
    ensures Strip(Strip(s)) == Strip(s)
    ensures RStrip(Strip(s)) == Strip(s)
  {
    StripEnds(s);
  }

  /** Trailing white space is removed up to a suffix that keeps some other character. */
  lemma {:induction false} RStripAppend(a: string, b: string)
    requires a != "" && !IsSpace(a[|a| - 1])
    ensures RStrip(a + b) == a + RStrip(b)
    decreases |b|
  {
    if b == "" {
      assert a + b == a;
    } else if IsSpace(b[|b| - 1]) {
      assert (a + b)[..|a + b| - 1] == a + b[..|b| - 1];
      RStripAppend(a, b[..|b| - 1]);
    }
  }

  /** `str.split` at one character: always at least one piece. */
  function Split(s: string, c: char): (pieces: seq<string>)
    ensures pieces != []
    decreases |s|
  {
    var i := IndexOf(s, c);
    if i == |s| then [s] else [s[..i]] + Split(s[i + 1..], c)
  }

  lemma SplitFirst(a: string, c: char, rest: string)
    requires c !in a
    ensures Split(a + [c] + rest, c) == [a] + Split(rest, c)
  {
    var s := a + [c] + rest;
    IndexOfAppend(a, c, rest);
    assert s[..|a|] == a && s[|a| + 1..] == rest;
  }

  /** The pieces consist of characters of the text other than the separator. */
  lemma {:induction false} SplitPieces(s: string, c: char)
    ensures forall i, x :: 0 <= i < |Split(s, c)| && x in Split(s, c)[i] ==> x in s && x != c
    decreases |s|
  {
    var i := IndexOf(s, c);
    if i == |s| {
      assert Split(s, c) == [s] && s[..i] == s;
    } else {
      SplitPieces(s[i + 1..], c);
      var rest := Split(s[i + 1..], c);
      assert Split(s, c) == [s[..i]] + rest;
      forall k, x | 0 <= k < |Split(s, c)| && x in Split(s, c)[k] ensures x in s && x != c {
        if k > 0 {
          assert x in rest[k - 1] && x in s[i + 1..];
        } else {
          assert x in s[..i];
        }
      }
    }
  }

  function Digit(n: nat): char
    requires n < 10
  {
    ('0' as int + n) as char
  }

  function NatText(n: nat): string {
    if n < 10 then [Digit(n)] else NatText(n / 10) + [Digit(n % 10)]
  }

  predicate IsDigit(c: char) {
    '0' <= c <= '9'
  }

  /** The number written in ASCII digits only. */
  function Decimal(s: string): Option<nat> {
    if s == "" || !IsDigit(s[|s| - 1]) then None
    else
      var d := s[|s| - 1] as int - '0' as int;
      if |s| == 1 then Some(d)
      else
        match Decimal(s[..|s| - 1])
        case None => None
        case Some(n) => Some(n * 10 + d)
  }

  lemma {:induction false} DecimalOfText(n: nat)
    ensures NatText(n) != "" && Decimal(NatText(n)) == Some(n)
    ensures forall i :: 0 <= i < |NatText(n)| ==> IsDigit(NatText(n)[i])
  {
    if n >= 10 {
      DecimalOfText(n / 10);
      assert NatText(n)[..|NatText(n)| - 1] == NatText(n / 10);
    }
  }

  // ------------------------------------------------ digits of any script

  /** The decimal value of a character: the ASCII digits, and possibly digits of other scripts. */
  ghost predicate DigitLaw(digit: char -> Option<nat>) {
    forall c: char {:trigger digit(c)} ::
      && (digit(c).Some? ==> digit(c).value < 10 && !IsSpace(c))
      && ('0' <= c <= '9' ==> digit(c) == Some(c as int - 48))
      && (c as int < 128 && !('0' <= c <= '9') ==> digit(c) == None)
  }

  function AsciiDigit(c: char): Option<nat> {
    if '0' <= c <= '9' then Some(c as int - 48) else None
  }

  lemma AsciiDigitLaw()
    ensures DigitLaw(AsciiDigit)
  {
  }

  /** `int` of a text of decimal digits. */
  function Number(digit: char -> Option<nat>, s: string): nat
    requires forall i :: 0 <= i < |s| ==> digit(s[i]).Some?
  {
    if s == "" then 0 else 10 * Number(digit, s[..|s| - 1]) + digit(s[|s| - 1]).value
  }

  /** The text has, in the digits of any script, the decimal digits of `n`. */
  predicate Prints(digit: char -> Option<nat>, s: string, n: nat) {
    |s| == |NatText(n)| && forall i :: 0 <= i < |s| ==> digit(s[i]) == AsciiDigit(NatText(n)[i])
  }

  lemma {:induction false} NumberOfPrinted(digit: char -> Option<nat>, s: string, n: nat)
    requires Prints(digit, s, n)
    ensures s != "" && (forall i :: 0 <= i < |s| ==> digit(s[i]).Some?) && Number(digit, s) == n
  {
    DecimalOfText(n);
    var text, m := NatText(n), |s| - 1;
    assert digit(s[m]) == AsciiDigit(text[m]) == Some(n % 10);
    if n < 10 {
      assert s[..m] == "";
    } else {
      assert text[..m] == NatText(n / 10);
      forall i | 0 <= i < m ensures digit(s[..m][i]) == AsciiDigit(NatText(n / 10)[i]) {
        assert digit(s[i]) == AsciiDigit(text[i]) && text[..m][i] == text[i];
      }
      NumberOfPrinted(digit, s[..m], n / 10);
    }
  }
}
