/** The JSON that json_walk of lib_util/json_frozen.c takes, as values over places in the text, and the callbacks it makes of one.
  *
  * The grammar is a little wider than JSON: commas may be missing or trail, keys may be identifiers, and numbers may begin with
  * zeros. */
module JsonGrammar {
  import opened Bytes

  const QUOTE: byte := 34
  const PLUS: byte := 43
  const COMMA: byte := 44
  const MINUS: byte := 45
  const DOT: byte := 46
  const COLON: byte := 58
  const OPEN_BRACKET: byte := 91
  const BACKSLASH: byte := 92
  const CLOSE_BRACKET: byte := 93
  const OPEN_BRACE: byte := 123
  const CLOSE_BRACE: byte := 125
  const TRUE: seq<byte> := [116, 114, 117, 101]
  const FALSE: seq<byte> := [102, 97, 108, 115, 101]
  const NULL: seq<byte> := [110, 117, 108, 108]

  predicate IsSpace(b: byte) { b == 32 || b == 9 || b == 13 || b == 10 }
  predicate IsNameChar(b: byte) { b == 95 || IsAlpha(b) || IsDigit(b) }

  /** The byte at a place is the one given. */
  predicate Has(text: seq<byte>, i: nat, b: byte) { i < |text| && text[i] == b }

  /** The first place from i on that is no space. */
  function NonSpace(text: seq<byte>, i: nat): (j: nat)
    ensures i <= j && (i <= |text| ==> j <= |text|) && (j < |text| ==> !IsSpace(text[j]))
    decreases |text| - i
  {
    if i < |text| && IsSpace(text[i]) then NonSpace(text, i + 1) else i
  }

  /** The place behind a comma, if the next byte that is no space is one. */
  function Next(text: seq<byte>, i: nat): nat {
    var j := NonSpace(text, i);
    if Has(text, j, COMMA) then j + 1 else j
  }

  // ---- numbers ----

  /** The first place from i on that is no digit. */
  function DigitsEnd(text: seq<byte>, i: nat): (j: nat)
    ensures i <= j && (i <= |text| ==> j <= |text|) && (j < |text| ==> !IsDigit(text[j]))
    ensures forall k :: i <= k < j ==> k < |text| && IsDigit(text[k])
    decreases |text| - i
  {
    if i < |text| && IsDigit(text[i]) then DigitsEnd(text, i + 1) else i
  }

  predicate HasDigits(text: seq<byte>, i: nat) { i < DigitsEnd(text, i) }

  function FractionEnd(text: seq<byte>, i: nat): nat { if Has(text, i, DOT) then DigitsEnd(text, i + 1) else i }

  predicate HasExponent(text: seq<byte>, i: nat) { Has(text, i, 101) || Has(text, i, 69) }

  function ExponentDigits(text: seq<byte>, i: nat): nat {
    if Has(text, i + 1, PLUS) || Has(text, i + 1, MINUS) then i + 2 else i + 1
  }

  function ExponentEnd(text: seq<byte>, i: nat): nat {
    if HasExponent(text, i) then DigitsEnd(text, ExponentDigits(text, i)) else i
  }

  /** A minus sign or none, digits, a point and digits or nothing, an exponent or none: each part as long as can be. */
  predicate NumberAt(text: seq<byte>, at: nat, end: nat) {
    var whole := if Has(text, at, MINUS) then at + 1 else at;
    var point := DigitsEnd(text, whole);
    var e := FractionEnd(text, point);
    && HasDigits(text, whole)
    && (Has(text, point, DOT) ==> HasDigits(text, point + 1))
    && (HasExponent(text, e) ==> HasDigits(text, ExponentDigits(text, e)))
    && end == ExponentEnd(text, e)
  }

  // ---- strings and names ----

  /** The bytes of a character by its first one. */
  function CharLength(b: byte): (n: nat)
    ensures 1 <= n <= 4
  {
    if b < 128 then 1 else if b / 16 == 15 then 4 else if b / 16 == 14 then 3 else 2
  }

  /** The bytes that a backslash at i takes along, or 0 when they are no escape. */
  function EscapeSize(text: seq<byte>, i: nat): (n: nat)
    ensures n > 0 ==> i + 1 + n <= |text|
  {
    if i + 1 >= |text| then 0
    else if text[i + 1] == 117 then
      if i + 6 <= |text| && IsHexDigit(text[i + 2]) && IsHexDigit(text[i + 3]) && IsHexDigit(text[i + 4]) && IsHexDigit(text[i + 5])
      then 5 else 0
    else if text[i + 1] in [QUOTE, BACKSLASH, 47, 98, 102, 110, 114, 116] then 1
    else 0
  }

  /** The bytes of the character of a string at i, or 0 when there is none: no control characters, no half ones, no quote. */
  function CharSize(text: seq<byte>, i: nat): (n: nat)
    ensures n > 0 ==> i + n <= |text|
  {
    if i >= |text| || text[i] < 32 || text[i] == QUOTE || i + CharLength(text[i]) > |text| then 0
    else if text[i] == BACKSLASH then (if EscapeSize(text, i) == 0 then 0 else 1 + EscapeSize(text, i))
    else CharLength(text[i])
  }

  /** Characters of a string from one place to another. */
  predicate Characters(text: seq<byte>, i: nat, end: nat)
    decreases end - i
  {
    i == end || (i < end && CharSize(text, i) > 0 && Characters(text, i + CharSize(text, i), end))
  }

  /** What lies from at to end is the inside of a string, and quotes stand around it. */
  predicate StringAt(text: seq<byte>, at: nat, end: nat) {
    at > 0 && Has(text, at - 1, QUOTE) && Characters(text, at, end) && Has(text, end, QUOTE)
  }

  /** A letter, and then letters, digits and underscores, as many as can be. */
  predicate IdentifierAt(text: seq<byte>, at: nat, end: nat) {
    && at < end <= |text| && IsAlpha(text[at]) && (forall i :: at <= i < end ==> IsNameChar(text[i]))
    && (end < |text| ==> !IsNameChar(text[end]))
  }

  lemma {:induction false} CharactersMore(text: seq<byte>, i: nat, mid: nat)
    requires Characters(text, i, mid) && CharSize(text, mid) > 0
    ensures Characters(text, i, mid + CharSize(text, mid))
    decreases mid - i
  {
    if i < mid { CharactersMore(text, i + CharSize(text, i), mid); }
  }

  /** Characters lead up to the closing quote and no further. */
  lemma {:induction false} CharactersAgree(text: seq<byte>, i: nat, mid: nat, end: nat)
    requires Characters(text, i, mid) && Characters(text, i, end) && Has(text, end, QUOTE)
    ensures mid <= end && Characters(text, mid, end)
    decreases mid - i
  {
    if i == mid {
    } else {
      assert CharSize(text, end) == 0;
      CharactersAgree(text, i + CharSize(text, i), mid, end);
    }
  }

  // ---- values ----

  datatype Kind = Str | Num | True | False | Null | ObjectStart | ObjectEnd | ArrayStart | ArrayEnd

  /** A value, with the places of its token: of a string between its quotes, of an array or an object with its brackets. */
  datatype Value =
    | Scalar(kind: Kind, at: nat, end: nat)
    | Array(at: nat, end: nat, elements: seq<Value>)
    | Object(at: nat, end: nat, pairs: seq<Pair>)

  /** A key's name, in quotes or not. */
  datatype Key = Key(quoted: bool, at: nat, end: nat)

  datatype Pair = Pair(key: Key, value: Value)

  function Behind(v: Value): nat { if v.Scalar? && v.kind.Str? then v.end + 1 else v.end }

  function BehindKey(key: Key): nat { if key.quoted then key.end + 1 else key.end }

  /** Where the next element is looked for. */
  function After(text: seq<byte>, es: seq<Value>, from: nat): nat {
    if es == [] then from else Next(text, Behind(es[|es| - 1]))
  }

  function AfterPairs(text: seq<byte>, ps: seq<Pair>, from: nat): nat {
    if ps == [] then from else Next(text, Behind(ps[|ps| - 1].value))
  }

  predicate LiteralAt(text: seq<byte>, word: seq<byte>, at: nat, end: nat) {
    end == at + |word| && end <= |text| && text[at..end] == word
  }

  predicate ScalarAt(text: seq<byte>, kind: Kind, at: nat, end: nat, first: nat) {
    match kind
    case Str => at == first + 1 && StringAt(text, at, end)
    case Num => at == first && NumberAt(text, at, end)
    case True => at == first && LiteralAt(text, TRUE, at, end)
    case False => at == first && LiteralAt(text, FALSE, at, end)
    case Null => at == first && LiteralAt(text, NULL, at, end)
    case _ => false
  }

  /** The value is what the text holds from a place on, behind spaces. */
  predicate IsValue(text: seq<byte>, v: Value, from: nat)
    decreases v
  {
    match v
    case Scalar(kind, at, end) => ScalarAt(text, kind, at, end, NonSpace(text, from))
    case Array(at, end, elements) =>
      && at == NonSpace(text, from) && Has(text, at, OPEN_BRACKET) && IsElements(text, elements, at + 1)
      && end == NonSpace(text, After(text, elements, at + 1)) + 1 && Has(text, end - 1, CLOSE_BRACKET)
    case Object(at, end, pairs) =>
      && at == NonSpace(text, from) && Has(text, at, OPEN_BRACE) && IsPairs(text, pairs, at + 1)
      && end == NonSpace(text, AfterPairs(text, pairs, at + 1)) + 1 && Has(text, end - 1, CLOSE_BRACE)
  }

  /** One behind the other, with at most a comma and spaces between two. */
  predicate IsElements(text: seq<byte>, es: seq<Value>, from: nat)
    decreases es
  {
    forall i :: 0 <= i < |es| ==> IsValue(text, es[i], After(text, es[..i], from))
  }

  predicate IsPairs(text: seq<byte>, ps: seq<Pair>, from: nat)
    decreases ps
  {
    forall i :: 0 <= i < |ps| ==> IsPair(text, ps[i], AfterPairs(text, ps[..i], from))
  }

  /** A key, a colon, and a value. */
  predicate IsPair(text: seq<byte>, p: Pair, from: nat)
    decreases p
  {
    && KeyAt(text, p.key, NonSpace(text, from))
    && Has(text, NonSpace(text, BehindKey(p.key)), COLON)
    && IsValue(text, p.value, NonSpace(text, BehindKey(p.key)) + 1)
  }

  predicate KeyAt(text: seq<byte>, key: Key, first: nat) {
    if key.quoted then key.at == first + 1 && StringAt(text, key.at, key.end)
    else key.at == first && IdentifierAt(text, key.at, key.end)
  }

  /** The text holds no value from a place on. */
  ghost predicate NoValue(text: seq<byte>, from: nat) { forall v :: !IsValue(text, v, from) }

  ghost predicate NoString(text: seq<byte>, at: nat) { forall end :: !StringAt(text, at, end) }

  ghost predicate NoPair(text: seq<byte>, from: nat) { forall p :: !IsPair(text, p, from) }

  // ---- the grammar is unambiguous ----

  /** The byte a value begins with. */
  predicate BeginsWith(v: Value, b: byte) {
    match v
    case Array(_, _, _) => b == OPEN_BRACKET
    case Object(_, _, _) => b == OPEN_BRACE
    case Scalar(kind, _, _) =>
      && (kind.Str? ==> b == QUOTE) && (kind.Num? ==> b == MINUS || IsDigit(b))
      && (kind.True? ==> b == 116) && (kind.False? ==> b == 102) && (kind.Null? ==> b == 110)
      && (kind.Str? || kind.Num? || kind.True? || kind.False? || kind.Null?)
  }

  lemma NumberEnds(text: seq<byte>, at: nat, end: nat)
    requires NumberAt(text, at, end)
    ensures at < end <= |text| && (text[at] == MINUS || IsDigit(text[at]))
  {}

  lemma CharactersAhead(text: seq<byte>, at: nat, end: nat)
    requires Characters(text, at, end)
    ensures at <= end
  {}

  lemma {:induction false} FirstByteIs(text: seq<byte>, v: Value, from: nat)
    requires IsValue(text, v, from)
    decreases v
    ensures NonSpace(text, from) < |text| && BeginsWith(v, text[NonSpace(text, from)])
    ensures NonSpace(text, from) < Behind(v) <= |text|
  {
    hide NonSpace, IsElements, IsPairs, After, AfterPairs, NumberAt, Characters;
    match v
    case Scalar(kind, at, end) =>
      match kind {
        case Str => CharactersAhead(text, at, end);
        case Num => NumberEnds(text, at, end);
        case True => assert text[at..end][0] == text[at];
        case False => assert text[at..end][0] == text[at];
        case Null => assert text[at..end][0] == text[at];
        case _ =>
      }
    case Array(at, end, elements) => ElementsAhead(text, elements, at + 1);
    case Object(at, end, pairs) => PairsAhead(text, pairs, at + 1);
  }

  lemma {:induction false} ElementsAhead(text: seq<byte>, es: seq<Value>, from: nat)
    requires IsElements(text, es, from)
    ensures from <= After(text, es, from)
    decreases es
  {
    hide IsValue, IsElements;
    if es != [] {
      var before, last := es[..|es| - 1], es[|es| - 1];
      ElementsBefore(text, es, from, |es| - 1);
      ElementsAhead(text, before, from);
      FirstByteIs(text, last, After(text, before, from));
    }
  }

  lemma {:induction false} PairsAhead(text: seq<byte>, ps: seq<Pair>, from: nat)
    requires IsPairs(text, ps, from)
    ensures from <= AfterPairs(text, ps, from)
    decreases ps
  {
    hide IsPair, IsPairs;
    if ps != [] {
      var before, last := ps[..|ps| - 1], ps[|ps| - 1];
      PairsBefore(text, ps, from, |ps| - 1);
      PairsAhead(text, before, from);
      PairAhead(text, last, AfterPairs(text, before, from));
    }
  }

  lemma {:induction false} PairAhead(text: seq<byte>, p: Pair, from: nat)
    requires IsPair(text, p, from)
    ensures NonSpace(text, from) < |text| && NonSpace(text, from) < BehindKey(p.key) < Behind(p.value) <= |text|
    ensures text[NonSpace(text, from)] == QUOTE || IsAlpha(text[NonSpace(text, from)])
    decreases p
  {
    if p.key.quoted { CharactersAhead(text, p.key.at, p.key.end); }
    FirstByteIs(text, p.value, NonSpace(text, BehindKey(p.key)) + 1);
  }

  /** Elements begin with elements. */
  lemma ElementsBefore(text: seq<byte>, es: seq<Value>, from: nat, n: nat)
    requires IsElements(text, es, from) && n <= |es|
    ensures IsElements(text, es[..n], from)
    ensures n < |es| ==> IsValue(text, es[n], After(text, es[..n], from))
  {
    hide After, IsValue;
    forall i | 0 <= i < n ensures IsValue(text, es[..n][i], After(text, es[..n][..i], from)) {
      assert es[..n][..i] == es[..i];
    }
  }

  lemma PairsBefore(text: seq<byte>, ps: seq<Pair>, from: nat, n: nat)
    requires IsPairs(text, ps, from) && n <= |ps|
    ensures IsPairs(text, ps[..n], from)
    ensures n < |ps| ==> IsPair(text, ps[n], AfterPairs(text, ps[..n], from))
  {
    hide AfterPairs, IsPair;
    forall i | 0 <= i < n ensures IsPair(text, ps[..n][i], AfterPairs(text, ps[..n][..i], from)) {
      assert ps[..n][..i] == ps[..i];
    }
  }

  /** One element more. */
  lemma ElementsMore(text: seq<byte>, es: seq<Value>, from: nat, v: Value)
    requires IsElements(text, es, from) && IsValue(text, v, After(text, es, from))
    ensures IsElements(text, es + [v], from)
  {
    hide After, IsValue;
    forall i | 0 <= i < |es| + 1 ensures IsValue(text, (es + [v])[i], After(text, (es + [v])[..i], from)) {
      assert (es + [v])[..i] == es[..i];
      if i == |es| { assert es[..i] == es; }
    }
  }

  lemma PairsMore(text: seq<byte>, ps: seq<Pair>, from: nat, p: Pair)
    requires IsPairs(text, ps, from) && IsPair(text, p, AfterPairs(text, ps, from))
    ensures IsPairs(text, ps + [p], from)
  {
    hide AfterPairs, IsPair;
    forall i | 0 <= i < |ps| + 1 ensures IsPair(text, (ps + [p])[i], AfterPairs(text, (ps + [p])[..i], from)) {
      assert (ps + [p])[..i] == ps[..i];
      if i == |ps| { assert ps[..i] == ps; }
    }
  }

  /** From one place on the text holds one value at most. */
  lemma {:induction false} Unambiguous(text: seq<byte>, a: Value, b: Value, from: nat)
    requires IsValue(text, a, from) && IsValue(text, b, from)
    ensures a == b
    decreases a
  {
    hide NumberAt, Characters, NonSpace, After, AfterPairs, IsElements, IsPairs;
    FirstByteIs(text, a, from);
    FirstByteIs(text, b, from);
    match a
    case Scalar(kind, at, end) =>
      if kind.Str? { StringsAgree(text, at, end, b.end); }
      if kind.Num? { NumbersAgree(text, at, end, b.end); }
    case Array(at, end, elements) => ArraysAgree(text, elements, b.elements, at + 1);
    case Object(at, end, pairs) => ObjectsAgree(text, pairs, b.pairs, at + 1);
  }

  lemma StringsAgree(text: seq<byte>, at: nat, end: nat, end': nat)
    requires StringAt(text, at, end) && StringAt(text, at, end')
    ensures end == end'
  {
    CharactersAgree(text, at, end, end');
    CharactersAgree(text, at, end', end);
  }

  lemma NumbersAgree(text: seq<byte>, at: nat, end: nat, end': nat)
    requires NumberAt(text, at, end) && NumberAt(text, at, end')
    ensures end == end'
  {}

  lemma {:induction false} KeysAgree(text: seq<byte>, a: Key, b: Key, first: nat)
    requires KeyAt(text, a, first) && KeyAt(text, b, first)
    ensures a == b
  {
    if a.quoted { StringsAgree(text, a.at, a.end, b.end); }
  }

  lemma {:induction false} PairsUnambiguous(text: seq<byte>, a: Pair, b: Pair, from: nat)
    requires IsPair(text, a, from) && IsPair(text, b, from)
    ensures a == b
    decreases a
  {
    hide NonSpace, KeyAt;
    KeysAgree(text, a.key, b.key, NonSpace(text, from));
    Unambiguous(text, a.value, b.value, NonSpace(text, BehindKey(a.key)) + 1);
  }

  /** Two runs of elements agree as far as both go. */
  lemma {:induction false} ElementsAgree(text: seq<byte>, es: seq<Value>, fs: seq<Value>, from: nat, n: nat)
    requires IsElements(text, es, from) && IsElements(text, fs, from) && n <= |es| && n <= |fs|
    ensures es[..n] == fs[..n]
    decreases es, n
  {
    hide After, IsValue, IsElements;
    if n > 0 {
      ElementsAgree(text, es, fs, from, n - 1);
      ElementsBefore(text, es, from, n - 1);
      ElementsBefore(text, fs, from, n - 1);
      Unambiguous(text, es[n - 1], fs[n - 1], After(text, es[..n - 1], from));
      assert es[..n] == es[..n - 1] + [es[n - 1]] && fs[..n] == fs[..n - 1] + [fs[n - 1]];
    }
  }

  lemma {:induction false} PairRunsAgree(text: seq<byte>, ps: seq<Pair>, qs: seq<Pair>, from: nat, n: nat)
    requires IsPairs(text, ps, from) && IsPairs(text, qs, from) && n <= |ps| && n <= |qs|
    ensures ps[..n] == qs[..n]
    decreases ps, n
  {
    hide AfterPairs, IsPair, IsPairs;
    if n > 0 {
      PairRunsAgree(text, ps, qs, from, n - 1);
      PairsBefore(text, ps, from, n - 1);
      PairsBefore(text, qs, from, n - 1);
      PairsUnambiguous(text, ps[n - 1], qs[n - 1], AfterPairs(text, ps[..n - 1], from));
      assert ps[..n] == ps[..n - 1] + [ps[n - 1]] && qs[..n] == qs[..n - 1] + [qs[n - 1]];
    }
  }

  /** Elements with a closing bracket behind them do not go on. */
  lemma {:induction false} ClosedNotLonger(text: seq<byte>, es: seq<Value>, fs: seq<Value>, from: nat)
    requires IsElements(text, es, from) && IsElements(text, fs, from)
    requires Has(text, NonSpace(text, After(text, es, from)), CLOSE_BRACKET)
    ensures |fs| <= |es| && es[..|fs|] == fs
    decreases es, |es| + 1
  {
    hide NonSpace, After;
    var n := Min(|es|, |fs|);
    ElementsAgree(text, es, fs, from, n);
    if |fs| > |es| {
      assert fs[..|es|] == es[..|es|] == es;
      ElementsBefore(text, fs, from, |es|);
      FirstByteIs(text, fs[|es|], After(text, es, from));
      assert false;
    }
    assert fs[..|fs|] == fs;
  }

  lemma {:induction false} ClosedPairsNotLonger(text: seq<byte>, ps: seq<Pair>, qs: seq<Pair>, from: nat)
    requires IsPairs(text, ps, from) && IsPairs(text, qs, from)
    requires Has(text, NonSpace(text, AfterPairs(text, ps, from)), CLOSE_BRACE)
    ensures |qs| <= |ps| && ps[..|qs|] == qs
    decreases ps, |ps| + 1
  {
    hide NonSpace, AfterPairs;
    var n := Min(|ps|, |qs|);
    PairRunsAgree(text, ps, qs, from, n);
    if |qs| > |ps| {
      assert qs[..|ps|] == ps[..|ps|] == ps;
      PairsBefore(text, qs, from, |ps|);
      PairAhead(text, qs[|ps|], AfterPairs(text, ps, from));
      assert false;
    }
    assert qs[..|qs|] == qs;
  }

  lemma {:induction false} ArraysAgree(text: seq<byte>, es: seq<Value>, fs: seq<Value>, from: nat)
    requires IsElements(text, es, from) && Has(text, NonSpace(text, After(text, es, from)), CLOSE_BRACKET)
    requires IsElements(text, fs, from) && Has(text, NonSpace(text, After(text, fs, from)), CLOSE_BRACKET)
    ensures es == fs
    decreases es, |es| + 2
  {
    ClosedNotLonger(text, es, fs, from);
    if |fs| < |es| {
      ElementsBefore(text, es, from, |fs|);
      FirstByteIs(text, es[|fs|], After(text, fs, from));
      assert false;
    }
  }

  lemma {:induction false} ObjectsAgree(text: seq<byte>, ps: seq<Pair>, qs: seq<Pair>, from: nat)
    requires IsPairs(text, ps, from) && Has(text, NonSpace(text, AfterPairs(text, ps, from)), CLOSE_BRACE)
    requires IsPairs(text, qs, from) && Has(text, NonSpace(text, AfterPairs(text, qs, from)), CLOSE_BRACE)
    ensures ps == qs
    decreases ps, |ps| + 2
  {
    ClosedPairsNotLonger(text, ps, qs, from);
    if |qs| < |ps| {
      PairsBefore(text, ps, from, |qs|);
      PairAhead(text, ps[|qs|], AfterPairs(text, qs, from));
      assert false;
    }
  }

  /** Elements that are not all there are are followed by one more. */
  lemma OneMoreElement(text: seq<byte>, all: seq<Value>, es: seq<Value>, from: nat)
    requires IsElements(text, all, from) && Has(text, NonSpace(text, After(text, all, from)), CLOSE_BRACKET)
    requires IsElements(text, es, from)
    ensures es == all || !NoValue(text, After(text, es, from))
  {
    hide NonSpace, After, IsElements, IsValue;
    ClosedNotLonger(text, all, es, from);
    if |all| > |es| {
      ElementsBefore(text, all, from, |es|);
    } else {
      assert all[..|es|] == all;
    }
  }

  lemma OneMorePair(text: seq<byte>, all: seq<Pair>, ps: seq<Pair>, from: nat)
    requires IsPairs(text, all, from) && Has(text, NonSpace(text, AfterPairs(text, all, from)), CLOSE_BRACE)
    requires IsPairs(text, ps, from)
    ensures ps == all || !NoPair(text, AfterPairs(text, ps, from))
  {
    hide NonSpace, AfterPairs, IsPairs, IsPair;
    ClosedPairsNotLonger(text, all, ps, from);
    if |all| > |ps| {
      PairsBefore(text, all, from, |ps|);
    } else {
      assert all[..|ps|] == all;
    }
  }

  /** Where elements are followed by neither a value nor a closing bracket, there is no array. */
  lemma ElementsStuck(text: seq<byte>, es: seq<Value>, from: nat, a: Value, at: nat)
    requires IsElements(text, es, from) && NoValue(text, After(text, es, from))
    requires !Has(text, NonSpace(text, After(text, es, from)), CLOSE_BRACKET)
    requires a.Array? && a.at + 1 == from
    ensures !IsValue(text, a, at)
  {
    hide NonSpace, After, IsElements, NoValue;
    if IsValue(text, a, at) { OneMoreElement(text, a.elements, es, from); }
  }

  lemma PairsStuck(text: seq<byte>, ps: seq<Pair>, from: nat, o: Value, at: nat)
    requires IsPairs(text, ps, from) && NoPair(text, AfterPairs(text, ps, from))
    requires !Has(text, NonSpace(text, AfterPairs(text, ps, from)), CLOSE_BRACE)
    requires o.Object? && o.at + 1 == from
    ensures !IsValue(text, o, at)
  {
    hide NonSpace, AfterPairs, IsPairs, NoPair;
    if IsValue(text, o, at) { OneMorePair(text, o.pairs, ps, from); }
  }

  // ---- the form of a number ----

  /** One digit or more. */
  predicate Digits(s: seq<byte>) { s != [] && forall i :: 0 <= i < |s| ==> IsDigit(s[i]) }

  predicate IsExponent(s: seq<byte>) {
    && |s| >= 2 && (s[0] == 101 || s[0] == 69)
    && (Digits(s[1..]) || ((s[1] == PLUS || s[1] == MINUS) && Digits(s[2..])))
  }

  ghost predicate NumberParts(sign: seq<byte>, whole: seq<byte>, fraction: seq<byte>, exponent: seq<byte>) {
    && (sign == [] || sign == [MINUS])
    && Digits(whole)
    && (fraction == [] || (fraction[0] == DOT && Digits(fraction[1..])))
    && (exponent == [] || IsExponent(exponent))
  }

  ghost predicate IsNumber(s: seq<byte>) {
    exists sign: seq<byte>, whole: seq<byte>, fraction: seq<byte>, exponent: seq<byte> ::
      && NumberParts(sign, whole, fraction, exponent)
      && s == sign + whole + fraction + exponent
  }

  lemma Adjoins(text: seq<byte>, a: nat, b: nat, c: nat)
    requires a <= b <= c <= |text|
    ensures text[a..b] + text[b..c] == text[a..c]
  {}

  lemma DigitsAre(text: seq<byte>, i: nat)
    requires HasDigits(text, i)
    ensures i < DigitsEnd(text, i) <= |text| && Digits(text[i..DigitsEnd(text, i)])
  {
    assert IsDigit(text[i]);
  }

  lemma FractionIs(text: seq<byte>, i: nat)
    requires i <= |text| && (Has(text, i, DOT) ==> HasDigits(text, i + 1))
    ensures i <= FractionEnd(text, i) <= |text|
    ensures var s := text[i..FractionEnd(text, i)]; s == [] || (s[0] == DOT && Digits(s[1..]))
  {
    if Has(text, i, DOT) {
      DigitsAre(text, i + 1);
      hide DigitsEnd, Digits, HasDigits;
      assert text[i..FractionEnd(text, i)][1..] == text[i + 1..FractionEnd(text, i)];
    }
  }

  lemma ExponentIs(text: seq<byte>, i: nat)
    requires i <= |text| && (HasExponent(text, i) ==> HasDigits(text, ExponentDigits(text, i)))
    ensures i <= ExponentEnd(text, i) <= |text|
    ensures var s := text[i..ExponentEnd(text, i)]; s == [] || IsExponent(s)
  {
    if HasExponent(text, i) {
      var d, end := ExponentDigits(text, i), ExponentEnd(text, i);
      DigitsAre(text, d);
      hide DigitsEnd, Digits, HasDigits;
      assert text[i..end][d - i..] == text[d..end];
    }
  }

  /** A number's parts make up its token. */
  lemma NumberIs(text: seq<byte>, at: nat, end: nat)
    requires NumberAt(text, at, end)
    ensures at < end <= |text| && IsNumber(text[at..end])
  {
    var whole := if Has(text, at, MINUS) then at + 1 else at;
    var point := DigitsEnd(text, whole);
    var e := FractionEnd(text, point);
    NumberEnds(text, at, end);
    DigitsAre(text, whole);
    FractionIs(text, point);
    ExponentIs(text, e);
    hide DigitsEnd, FractionEnd, ExponentEnd, Digits, IsExponent, HasDigits, IsNumber;
    assert NumberParts(text[at..whole], text[whole..point], text[point..e], text[e..end]);
    PartsMake(text, at, whole, point, e, end);
  }

  lemma PartsMake(text: seq<byte>, at: nat, a: nat, b: nat, c: nat, d: nat)
    requires at <= a <= b <= c <= d <= |text|
    requires NumberParts(text[at..a], text[a..b], text[b..c], text[c..d])
    ensures IsNumber(text[at..d])
  {
    hide NumberParts;
    Adjoins(text, at, a, b);
    Adjoins(text, at, b, c);
    Adjoins(text, at, c, d);
  }
}
