/** decode_uri_escape_sequences of lib_http/http_request.cpp, called the way the server does: source and destination are the
  * same string, which the two cursors rewrite as they go. */
module PercentDecoding {
  import opened Bytes

  const PERCENT: byte := 37

  /** The value of a digit: what the code subtracts from its character. */
  function DigitValue(b: byte): byte
    requires IsHexDigit(b)
  {
    b - if b <= 57 then 48 else if b <= 70 then 65 - 10 else 97 - 10
  }

  /** Section 2.1 of RFC 3986: a percent sign and two hexadecimal digits stand for a byte; anything else stands for itself. */
  function Decode(s: seq<byte>): (r: seq<byte>)
    ensures |r| <= |s|
    decreases |s|
  {
    if s == [] then []
    else if Escape(s) then [16 * DigitValue(s[1]) + DigitValue(s[2])] + Decode(s[3..])
    else [s[0]] + Decode(s[1..])
  }

  predicate Escape(s: seq<byte>) { |s| >= 3 && s[0] == PERCENT && IsHexDigit(s[1]) && IsHexDigit(s[2]) }

  /** The character a cursor sees: the string's own, or the terminator right behind it. */
  method CharAt(s: array<byte>, i: nat) returns (c: byte)
    requires i <= s.Length
    ensures c == if i < s.Length then s[i] else 0
  {
    c := if i < s.Length then s[i] else 0;
  }

  /** The test at the read cursor; each character is looked at only when the one before it is not the terminator. */
  method AtEscape(s: array<byte>, src: nat) returns (escape: bool)
    requires src < s.Length
    ensures escape == Escape(s[src..])
  {
    var c0 := CharAt(s, src);
    if c0 != PERCENT { return false; }
    var c1 := CharAt(s, src + 1);
    if c1 == 0 { return false; }
    var c2 := CharAt(s, src + 2);
    escape := c2 != 0 && IsHexDigit(c1) && IsHexDigit(c2);
  }

  /** One turn of the loop: the byte that the characters at the read cursor stand for goes to the write cursor. */
  method DecodeOne(s: array<byte>, n: nat, src: nat) returns (next: nat)
    requires n <= src < s.Length
    modifies s
    ensures src < next <= s.Length && next == src + (if Escape(old(s[src..])) then 3 else 1)
    ensures s[..n + 1] == old(s[..n]) + [Decode(old(s[src..]))[0]] && s[next..] == old(s[next..])
  {
    var escape := AtEscape(s, src);
    if escape {
      s[src + 1] := DigitValue(s[src + 1]);
      s[src + 2] := DigitValue(s[src + 2]);
      s[n] := 16 * s[src + 1] + s[src + 2];
      next := src + 3;
    } else {
      s[n] := s[src];
      next := src + 1;
    }
  }

  lemma DecodeRest(done: seq<byte>, rest: seq<byte>)
    requires rest != []
    ensures done + Decode(rest) == done + [Decode(rest)[0]] + Decode(rest[if Escape(rest) then 3 else 1..])
  {}

  /** The read cursor is never behind the write cursor, so what it reads has not been overwritten; and it never looks past the
    * terminator. What is left in the string up to the returned length is the decoded text. */
  method DecodeInPlace(s: array<byte>) returns (n: nat)
    modifies s
    ensures n <= s.Length && s[..n] == Decode(old(s[..]))
  {
    ghost var was := s[..];
    var src: nat := 0;
    n := 0;
    assert was[0..] == was;
    hide Decode, Escape;
    while src < s.Length
      invariant n <= src <= s.Length == |was|
      invariant s[src..] == was[src..]
      invariant s[..n] + Decode(was[src..]) == Decode(was)
    {
      ghost var at := src;
      DecodeRest(s[..n], was[src..]);
      src := DecodeOne(s, n, src);
      assert was[at..][src - at..] == was[src..];
      n := n + 1;
    }
    assert Decode(was[|was|..]) == [] by { DecodeEmpty(); }
  }

  lemma DecodeEmpty()
    ensures Decode([]) == []
  {}

  /** A byte as it may be sent: as itself, unless it is the percent sign, or escaped, with digits of either case. */
  datatype Sign = Plain(b: byte) | Escaped(b: byte, upperHigh: bool, upperLow: bool)

  function Digit(v: byte, upper: bool): (d: byte)
    requires v < 16
    ensures IsHexDigit(d) && DigitValue(d) == v
  {
    if v < 10 then 48 + v else if upper then 65 + (v - 10) else 97 + (v - 10)
  }

  function Encode(text: seq<Sign>): seq<byte> {
    if text == [] then []
    else
      (match text[0]
       case Plain(b) => [b]
       case Escaped(b, high, low) => [PERCENT, Digit(b / 16, high), Digit(b % 16, low)]) + Encode(text[1..])
  }

  function Meant(text: seq<Sign>): seq<byte> {
    if text == [] then [] else [text[0].b] + Meant(text[1..])
  }

  /** A percent sign stands for itself only where it does not begin an escape. */
  predicate Proper(text: seq<Sign>) {
    text != [] ==> (text[0] == Plain(PERCENT) ==> !Escape(Encode(text))) && Proper(text[1..])
  }

  /** Every way of writing every byte string decodes to it, percent signs that stand for themselves included. */
  lemma {:induction false} DecodeInvertsEncode(text: seq<Sign>)
    requires Proper(text)
    ensures Decode(Encode(text)) == Meant(text)
    decreases |text|
  {
    if text != [] {
      DecodeInvertsEncode(text[1..]);
      var s := Encode(text);
      match text[0]
      case Plain(b) =>
        assert s[1..] == Encode(text[1..]);
      case Escaped(b, high, low) =>
        assert s[3..] == Encode(text[1..]);
        assert Escape(s);
        assert 16 * (b / 16) + b % 16 == b;
    }
  }

  lemma DigitBack(d: byte)
    requires IsHexDigit(d)
    ensures DigitValue(d) < 16 && (Digit(DigitValue(d), true) == d || Digit(DigitValue(d), false) == d)
  {}

  lemma ByteOfDigits(h: byte, l: byte)
    requires h < 16 && l < 16
    ensures 16 * (h as int) + (l as int) < 256 && (16 * h + l) / 16 == h && (16 * h + l) % 16 == l
  {}

  /** And every string is one of those. */
  lemma {:induction false} EveryStringIsWritten(s: seq<byte>) returns (text: seq<Sign>)
    ensures Proper(text) && Encode(text) == s
    decreases |s|
  {
    if s == [] {
      text := [];
    } else if Escape(s) {
      var rest := EveryStringIsWritten(s[3..]);
      var high, low := DigitValue(s[1]), DigitValue(s[2]);
      DigitBack(s[1]);
      DigitBack(s[2]);
      ByteOfDigits(high, low);
      text := [Escaped(16 * high + low, Digit(high, true) == s[1], Digit(low, true) == s[2])] + rest;
      assert text[1..] == rest;
      hide Digit, DigitValue;
      assert s == [PERCENT, s[1], s[2]] + s[3..];
    } else {
      var rest := EveryStringIsWritten(s[1..]);
      text := [Plain(s[0])] + rest;
      assert text[1..] == rest;
      assert s == [s[0]] + s[1..];
    }
  }

  /** A string stays as it is exactly when no escape begins anywhere in it. */
  lemma {:induction false} UnchangedIff(s: seq<byte>)
    ensures Decode(s) == s <==> forall i :: 0 <= i < |s| ==> !Escape(s[i..])
    ensures Decode(s) == s <==> |Decode(s)| == |s|
    decreases |s|
  {
    if s != [] {
      assert s[0..] == s;
      if Escape(s) {
        assert |Decode(s)| < |s|;
      } else {
        UnchangedIff(s[1..]);
        assert s == [s[0]] + s[1..];
        assert Decode(s)[1..] == Decode(s[1..]);
        forall i | 0 <= i < |s[1..]| ensures s[1..][i..] == s[i + 1..] {}
        if forall i :: 0 <= i < |s| ==> !Escape(s[i..]) {
          forall i | 0 <= i < |s[1..]| ensures !Escape(s[1..][i..]) { assert !Escape(s[i + 1..]); }
        }
        if forall i :: 0 <= i < |s[1..]| ==> !Escape(s[1..][i..]) {
          forall i | 0 <= i < |s| ensures !Escape(s[i..]) {
            if i > 0 { assert s[1..][i - 1..] == s[i..]; }
          }
        }
      }
    }
  }
}
