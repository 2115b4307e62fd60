/** json_walk of lib_util/json_frozen.c as a class: a cursor into the text and a path in a fixed buffer, both moved in place by
  * the functions of the recursive descent. */
module JsonWalk {
  import opened Bytes
  import opened JsonGrammar
  import opened JsonEvents

  const INVALID: int := -1
  const INCOMPLETE: int := -2
  const END_OF_STRING: int := -1

  predicate IsResult(rc: int) { rc == 0 || rc == INVALID || rc == INCOMPLETE }

  /** From one place to another the text is the value, with spaces before it, and the callbacks made meanwhile are its traversal. */
  ghost predicate Took(text: seq<byte>, v: Value, from: nat, to: nat, path: seq<byte>, evs: seq<Event>, evs': seq<Event>) {
    from < to == Behind(v) && IsValue(text, v, from) && evs' == evs + Traversal(text, v, path)
  }

  class Frozen {
    const text: seq<byte>
    const path: array<byte>
    var cur: nat
    var pathLen: nat
    // The callbacks made so far.
    var events: seq<Event>

    ghost predicate Valid()
      reads this, path
    {
      && cur <= |text| && path.Length == MAX_PATH && pathLen < MAX_PATH && path[pathLen] == 0
    }

    ghost function Path(): seq<byte>
      requires pathLen <= path.Length
      reads this`pathLen, path
    {
      path[..pathLen]
    }

    constructor (json: seq<byte>)
      ensures Valid() && text == json && cur == 0 && Path() == [] && events == [] && fresh(path)
    {
      text, cur, pathLen, events := json, 0, 0, [];
      path := new byte[MAX_PATH](_ => 0);
    }

    /** append_to_path: what does not fit is cut off; the terminator always fits. */
    method AppendToPath(str: seq<byte>) returns (n: nat)
      requires Valid()
      modifies this`pathLen, path
      ensures Valid() && n == old(pathLen) && n <= pathLen
      ensures Path() == Extended(old(Path()), str) && Path()[..n] == old(Path())
    {
      n := pathLen;
      var size := Min(|str|, MAX_PATH - n - 1);
      forall k | 0 <= k < size { path[n + k] := str[k]; }
      path[n + size] := 0;
      pathLen := pathLen + size;
    }

    method TruncatePath(len: nat)
      requires Valid() && len <= pathLen
      modifies this`pathLen, path
      ensures Valid() && Path() == old(Path())[..len]
    {
      pathLen := len;
      path[len] := 0;
    }

    /** CALL_BACK: suppressed while the path ends in a dot, that is while a key is being read. */
    method CallBack(kind: Kind, at: nat, end: nat)
      requires Valid()
      modifies this`events
      ensures events == old(events) + Reported(Path(), Event(kind, Path(), at, end))
    {
      if pathLen == 0 || path[pathLen - 1] != DOT {
        events := events + [Event(kind, path[..pathLen], at, end)];
      }
    }

    method SkipWhitespaces()
      requires Valid()
      modifies this`cur
      ensures Valid() && cur == NonSpace(text, old(cur))
    {
      while cur < |text| && IsSpace(text[cur])
        invariant Valid() && old(cur) <= cur && NonSpace(text, cur) == NonSpace(text, old(cur))
      {
        cur := cur + 1;
      }
    }

    /** The next character that is not a space, or the end. */
    method Cur() returns (ch: int)
      requires Valid()
      modifies this`cur
      ensures Valid() && cur == NonSpace(text, old(cur))
      ensures ch == if cur < |text| then text[cur] as int else END_OF_STRING
    {
      SkipWhitespaces();
      ch := if cur < |text| then text[cur] as int else END_OF_STRING;
    }

    method TestAndSkip(expected: byte) returns (rc: int)
      requires Valid()
      modifies this`cur
      ensures Valid() && IsResult(rc)
      ensures rc == 0 <==> Has(text, NonSpace(text, old(cur)), expected)
      ensures cur == NonSpace(text, old(cur)) + if rc == 0 then 1 else 0
    {
      var ch := Cur();
      if ch == expected as int {
        cur := cur + 1;
        return 0;
      }
      rc := if ch == END_OF_STRING then INCOMPLETE else INVALID;
    }

    /** The character at a place, or the terminator behind the text. */
    function At(i: nat): byte { if i < |text| then text[i] else 0 }

    /** get_escape_len, from the character after the backslash at the cursor. */
    method EscapeLength() returns (n: int)
      requires Valid() && cur < |text|
      ensures n == EscapeSize(text, cur) || (EscapeSize(text, cur) == 0 && (n == INVALID || n == INCOMPLETE))
      ensures n != 0
    {
      var left := |text| - cur;
      var c := At(cur + 1);
      if c == 117 {
        if left < 6 { return INCOMPLETE; }
        return if IsHexDigit(text[cur + 2]) && IsHexDigit(text[cur + 3]) && IsHexDigit(text[cur + 4]) && IsHexDigit(text[cur + 5])
               then 5 else INVALID;
      }
      if c in [QUOTE, BACKSLASH, 47, 98, 102, 110, 114, 116] {
        return if left < 2 then INCOMPLETE else 1;
      }
      return INVALID;
    }

    /** A letter and all the letters, digits and underscores behind it. */
    method ParseIdentifier() returns (rc: int, ghost end: nat)
      requires Valid()
      modifies this`cur, this`pathLen, this`events, path
      ensures Valid() && IsResult(rc) && old(events) <= events
      ensures rc == 0 ==> cur == end && Path() == old(Path())
      ensures rc == 0 ==> IdentifierAt(text, NonSpace(text, old(cur)), end)
      ensures rc == 0 ==> events == old(events) + Reported(Path(), Event(Str, Path(), NonSpace(text, old(cur)), end))
      ensures rc < 0 ==> forall e :: !IdentifierAt(text, NonSpace(text, old(cur)), e)
    {
      end := 0;
      var ch := Cur();
      if !(ch >= 0 && IsAlpha(ch as byte)) { return INVALID, end; }
      var at := cur;
      var n := AppendToPath([]);
      while cur < |text| && IsNameChar(text[cur])
        invariant Valid() && at <= cur && (cur == at ==> cur < |text| && IsAlpha(text[cur]))
        invariant forall i :: at <= i < cur ==> IsNameChar(text[i])
        invariant Path() == old(Path()) && n == pathLen && events == old(events)
      {
        cur := cur + 1;
      }
      TruncatePath(n);
      CallBack(Str, at, cur);
      return 0, cur;
    }

    /** Characters between two quotes. */
    method ParseString() returns (rc: int, ghost end: nat)
      requires Valid()
      modifies this`cur, this`pathLen, this`events, path
      ensures Valid() && IsResult(rc) && old(events) <= events
      ensures rc == 0 ==> cur == end + 1 && Path() == old(Path())
      ensures rc == 0 ==> StringAt(text, NonSpace(text, old(cur)) + 1, end)
      ensures rc == 0 ==> events == old(events) + Reported(Path(), Event(Str, Path(), NonSpace(text, old(cur)) + 1, end))
      ensures rc < 0 ==> NoString(text, NonSpace(text, old(cur)) + 1)
    {
      hide NonSpace, EscapeSize, Characters, NoString, Reported, Extended;
      end := 0;
      StringBegins(text, NonSpace(text, cur));
      NothingAppended(Path());
      rc := TestAndSkip(QUOTE);
      if rc < 0 { return; }
      var at := cur;
      var n := AppendToPath([]);
      while cur < |text|
        invariant Valid() && at <= cur && Characters(text, at, cur)
        invariant Path() == old(Path()) && n == pathLen && events == old(events)
      {
        var ch := text[cur];
        var len := CharLength(ch);
        if ch < 32 || len > |text| - cur {
          StringStuck(text, at, cur);
          return if ch < 32 then INVALID else INCOMPLETE, end;
        }
        if ch == BACKSLASH {
          var k := EscapeLength();
          if k <= 0 {
            StringStuck(text, at, cur);
            return k, end;
          }
          len := len + k;
        } else if ch == QUOTE {
          TruncatePath(n);
          end := cur;
          CallBack(Str, at, cur);
          cur := cur + 1;
          return 0, end;
        }
        CharactersMore(text, at, cur);
        cur := cur + len;
      }
      StringStuck(text, at, cur);
      return INCOMPLETE, end;
    }

    method SkipDigits()
      requires Valid()
      modifies this`cur
      ensures Valid() && cur == DigitsEnd(text, old(cur))
    {
      while cur < |text| && IsDigit(text[cur])
        invariant Valid() && old(cur) <= cur && DigitsEnd(text, cur) == DigitsEnd(text, old(cur))
      {
        cur := cur + 1;
      }
    }

    /** At least one digit, and all there are. */
    method SomeDigits() returns (rc: int)
      requires Valid()
      modifies this`cur
      ensures Valid() && IsResult(rc)
      ensures rc == 0 <==> HasDigits(text, old(cur))
      ensures rc == 0 ==> cur == DigitsEnd(text, old(cur))
    {
      if cur >= |text| { return INCOMPLETE; }
      if !IsDigit(text[cur]) { return INVALID; }
      SkipDigits();
      rc := 0;
    }

    method SkipFraction() returns (rc: int)
      requires Valid()
      modifies this`cur
      ensures Valid() && IsResult(rc)
      ensures rc == 0 <==> (Has(text, old(cur), DOT) ==> HasDigits(text, old(cur) + 1))
      ensures rc == 0 ==> cur == FractionEnd(text, old(cur))
    {
      hide DigitsEnd, HasDigits;
      rc := 0;
      if cur < |text| && text[cur] == DOT {
        cur := cur + 1;
        rc := SomeDigits();
      }
    }

    method SkipExponent() returns (rc: int)
      requires Valid()
      modifies this`cur
      ensures Valid() && IsResult(rc)
      ensures rc == 0 <==> (HasExponent(text, old(cur)) ==> HasDigits(text, ExponentDigits(text, old(cur))))
      ensures rc == 0 ==> cur == ExponentEnd(text, old(cur))
    {
      rc := 0;
      if cur < |text| && (text[cur] == 101 || text[cur] == 69) {
        cur := cur + 1;
        if cur >= |text| { return INCOMPLETE; }
        if text[cur] == PLUS || text[cur] == MINUS { cur := cur + 1; }
        rc := SomeDigits();
      }
    }

    /** A sign, digits, a fraction and an exponent. */
    method SkipNumber() returns (rc: int)
      requires Valid() && cur < |text|
      modifies this`cur
      ensures Valid() && IsResult(rc)
      ensures if rc == 0 then NumberAt(text, old(cur), cur) else forall e :: !NumberAt(text, old(cur), e)
    {
      hide NonSpace, DigitsEnd, HasDigits, FractionEnd, HasExponent, ExponentDigits, ExponentEnd;
      if text[cur] == MINUS { cur := cur + 1; }
      rc := SomeDigits();
      if rc < 0 { return; }
      rc := SkipFraction();
      if rc < 0 { return; }
      rc := SkipExponent();
    }

    /** A number's token. */
    method ParseNumber() returns (rc: int, ghost v: Value)
      requires Valid() && cur < |text| && (text[cur] == MINUS || IsDigit(text[cur]))
      modifies this`cur, this`pathLen, this`events, path
      ensures Valid() && IsResult(rc) && old(events) <= events
      ensures rc == 0 ==> Path() == old(Path()) && Took(text, v, old(cur), cur, Path(), old(events), events)
      ensures rc < 0 ==> NoValue(text, old(cur))
    {
      hide NonSpace, NumberAt, NoValue, Took, Reported;
      FirstStays(text, cur);
      v := Scalar(Num, cur, cur);
      var ch := Cur();
      var at := cur;
      var n := AppendToPath([]);
      rc := SkipNumber();
      if rc < 0 {
        NoNumberHere(text, at);
        return;
      }
      TruncatePath(n);
      CallBack(Num, at, cur);
      v := ScalarTook(text, Num, at, cur, Path(), old(events), events);
    }

    /** The letters of a word, one by one. */
    method Expect(s: seq<byte>, kind: Kind) returns (rc: int, ghost v: Value)
      requires Valid() && (kind.Null? || kind.True? || kind.False?) && s == Word(kind) && cur < |text| && text[cur] == s[0]
      modifies this`cur, this`pathLen, this`events, path
      ensures Valid() && IsResult(rc) && old(events) <= events
      ensures rc == 0 ==> Path() == old(Path()) && Took(text, v, old(cur), cur, Path(), old(events), events)
      ensures rc < 0 ==> NoValue(text, old(cur))
    {
      hide NonSpace, NoValue, Took, Reported;
      FirstStays(text, cur);
      v := Scalar(kind, cur, cur);
      var i, left := 0, |text| - cur;
      var at := cur;
      var n := AppendToPath([]);
      while i < |s|
        invariant 0 <= i <= |s| && i <= left && forall k :: 0 <= k < i ==> text[at + k] == s[k]
      {
        if i >= left || text[cur + i] != s[i] {
          assert at + |s| <= |text| ==> text[at..at + |s|][i] != s[i];
          NoWordHere(text, at, kind);
          return if i >= left then INCOMPLETE else INVALID, v;
        }
        i := i + 1;
      }
      assert text[at..at + |s|] == s;
      cur := cur + |s|;
      TruncatePath(n);
      CallBack(kind, at, cur);
      v := ScalarTook(text, kind, at, cur, Path(), old(events), events);
      rc := 0;
    }

    /** One element of an array, under its index. */
    method ParseElement(i: nat) returns (rc: int, ghost v: Value)
      requires Valid()
      modifies this`cur, this`pathLen, this`events, path
      decreases |text| - cur, 2
      ensures Valid() && IsResult(rc) && old(events) <= events
      ensures rc == 0 ==> Path() == old(Path()) && Took(text, v, old(cur), cur, Extended(Path(), IndexName(i)), old(events), events)
      ensures rc < 0 ==> NoValue(text, old(cur))
    {
      hide Extended, Took;
      var n := AppendToPath(IndexName(i));
      rc, v := ParseValue();
      if rc < 0 { return; }
      TruncatePath(n);
    }

    /** A value, told apart by its first character. */
    method ParseValue() returns (rc: int, ghost v: Value)
      requires Valid()
      modifies this`cur, this`pathLen, this`events, path
      decreases |text| - cur, 1
      ensures Valid() && IsResult(rc) && old(events) <= events
      ensures rc == 0 ==> Path() == old(Path()) && Took(text, v, old(cur), cur, Path(), old(events), events)
      ensures rc < 0 ==> NoValue(text, old(cur))
    {
      hide NonSpace, NoString, NoValue, Reported, Took;
      ghost var from := cur;
      v := Scalar(Str, 0, 0);
      var ch := Cur();
      SameFromFirst(text, from);
      if ch == QUOTE as int {
        ghost var end;
        rc, end := ParseString();
        if rc == 0 { v := ScalarTook(text, Str, from, end, Path(), old(events), events); } else { NoStringHere(text, from); }
        return;
      }
      if ch == OPEN_BRACE as int {
        rc, v := ParseObject();
      } else if ch == OPEN_BRACKET as int {
        rc, v := ParseArray();
      } else if ch == 110 {
        rc, v := Expect(NULL, Null);
      } else if ch == 116 {
        rc, v := Expect(TRUE, True);
      } else if ch == 102 {
        rc, v := Expect(FALSE, False);
      } else if ch == MINUS as int || 48 <= ch <= 57 {
        rc, v := ParseNumber();
      } else {
        NoneBeginsHere(text, from);
        return if ch == END_OF_STRING then INCOMPLETE else INVALID, v;
      }
      if rc == 0 { TookEarlier(text, v, from, cur, Path(), old(events), events); }
    }

    /** A name or a string. */
    method ParseKey() returns (rc: int, ghost key: Key)
      requires Valid()
      modifies this`cur, this`pathLen, this`events, path
      ensures Valid() && IsResult(rc) && old(events) <= events
      ensures rc == 0 ==> cur == BehindKey(key) && Path() == old(Path()) && KeyAt(text, key, NonSpace(text, old(cur)))
      ensures rc == 0 ==> events == old(events) + Reported(Path(), Event(Str, Path(), key.at, key.end))
      ensures rc < 0 ==> forall k :: !KeyAt(text, k, NonSpace(text, old(cur)))
    {
      key := Key(true, 0, 0);
      ghost var end: nat := 0;
      var ch := Cur();
      SameFromFirst(text, old(cur));
      if ch >= 0 && IsAlpha(ch as byte) {
        rc, end := ParseIdentifier();
        key := Key(false, NonSpace(text, old(cur)), end);
      } else if ch == QUOTE as int {
        rc, end := ParseString();
        key := Key(true, NonSpace(text, old(cur)) + 1, end);
      } else {
        rc := if ch == END_OF_STRING then INCOMPLETE else INVALID;
      }
    }

    /** A key, a colon and a value, the value under the key's name. */
    method ParsePair() returns (rc: int, ghost p: Pair)
      requires Valid()
      modifies this`cur, this`pathLen, this`events, path
      decreases |text| - cur, 2
      ensures Valid() && IsResult(rc) && old(events) <= events
      ensures rc == 0 ==> old(cur) < cur && cur == Behind(p.value) && Path() == old(Path()) && IsPair(text, p, old(cur))
      ensures rc == 0 ==> events == old(events) + OfPair(text, p, Path())
      ensures rc < 0 ==> NoPair(text, old(cur))
    {
      hide NonSpace, Extended, Took, IsPair, OfPair, KeyAt, KeyName, Reported, Has, NoPair, NoValue;
      p := Pair(Key(true, 0, 0), Scalar(Str, 0, 0));
      ghost var key: Key;
      ghost var value: Value;
      SkipWhitespaces();
      SameFromFirst(text, old(cur));
      var tok := cur;
      rc, key := ParseKey();
      if rc < 0 {
        NoKeyNoPair(text, old(cur));
        return;
      }
      PairFromKey(text, key, old(cur));
      var name := if text[tok] == QUOTE then text[tok + 1..cur - 1] else text[tok..cur];
      var n := AppendToPath(name);
      rc := TestAndSkip(COLON);
      if rc < 0 { return; }
      ghost var from := cur;
      ghost var evs := events;
      rc, value := ParseValue();
      if rc < 0 { return; }
      TruncatePath(n);
      p := Pair(key, value);
      PairTook(text, p, old(cur), cur, Path(), old(events), evs, events);
    }

    /** The elements of an array, up to its closing bracket. */
    method ParseElements() returns (rc: int, ghost es: seq<Value>)
      requires Valid()
      modifies this`cur, this`pathLen, this`events, path
      decreases |text| - cur, 3
      ensures Valid() && IsResult(rc) && old(events) <= events
      ensures IsElements(text, es, old(cur))
      ensures rc == 0 ==> cur == NonSpace(text, After(text, es, old(cur))) && Has(text, cur, CLOSE_BRACKET)
      ensures rc == 0 ==> Path() == old(Path()) && events == old(events) + OfElements(text, es, Path())
      ensures rc < 0 ==> NoValue(text, After(text, es, old(cur)))
      ensures rc < 0 ==> !Has(text, NonSpace(text, After(text, es, old(cur))), CLOSE_BRACKET)
    {
      hide NonSpace, After, Took, IsElements, NoValue, Extended, OfElements;
      rc, es := 0, [];
      var i := 0;
      NoneYet(text, cur, Path());
      var ch := Cur();
      while ch != CLOSE_BRACKET as int
        invariant Valid() && Path() == old(Path()) && rc == 0 && i == |es|
        invariant IsElements(text, es, old(cur)) && cur == NonSpace(text, After(text, es, old(cur)))
        invariant ch == if cur < |text| then text[cur] as int else END_OF_STRING
        invariant events == old(events) + OfElements(text, es, Path())
        decreases |text| - cur
      {
        ghost var v, from, evs := *, cur, events;
        SameFromFirst(text, After(text, es, old(cur)));
        rc, v := ParseElement(i);
        if rc < 0 { return; }
        i := i + 1;
        ElementDone(text, es, old(cur), v, cur, Path(), evs, events);
        ch := Cur();
        if ch == COMMA as int { cur := cur + 1; }
        ch := Cur();
        es := es + [v];
      }
    }

    /** An array: its brackets, and elements with a comma between two, which may be missing. */
    method ParseArray() returns (rc: int, ghost v: Value)
      requires Valid() && cur < |text| && text[cur] == OPEN_BRACKET
      modifies this`cur, this`pathLen, this`events, path
      decreases |text| - cur, 0
      ensures Valid() && IsResult(rc) && old(events) <= events
      ensures rc == 0 ==> v.Array? && Path() == old(Path()) && Took(text, v, old(cur), cur, Path(), old(events), events)
      ensures rc < 0 ==> NoValue(text, old(cur))
    {
      hide NonSpace, After, IsElements, NoValue, OfElements, Reported, IsValue, Took, Extended;
      v := Scalar(Str, 0, 0);
      ghost var es;
      FirstStays(text, cur);
      CallBack(ArrayStart, cur, cur);
      rc := TestAndSkip(OPEN_BRACKET);
      if rc < 0 { return; }
      var start := cur - 1;
      var n := AppendToPath([]);
      rc, es := ParseElements();
      if rc < 0 {
        NoArrayHere(text, es, old(cur));
        return;
      }
      SameFromFirst(text, After(text, es, start + 1));
      rc := TestAndSkip(CLOSE_BRACKET);
      if rc < 0 { return; }
      TruncatePath(n);
      v := Array(start, cur, es);
      CallBack(ArrayEnd, start, cur);
      ArrayTook(text, v, Path(), old(events), events);
    }

    /** The pairs of an object, up to its closing brace. */
    method ParsePairs() returns (rc: int, ghost ps: seq<Pair>)
      requires Valid()
      modifies this`cur, this`pathLen, this`events, path
      decreases |text| - cur, 3
      ensures Valid() && IsResult(rc) && old(events) <= events
      ensures IsPairs(text, ps, old(cur))
      ensures rc == 0 ==> cur == NonSpace(text, AfterPairs(text, ps, old(cur))) && Has(text, cur, CLOSE_BRACE)
      ensures rc == 0 ==> Path() == old(Path()) && events == old(events) + OfPairs(text, ps, Path())
      ensures rc < 0 ==> NoPair(text, AfterPairs(text, ps, old(cur)))
      ensures rc < 0 ==> !Has(text, NonSpace(text, AfterPairs(text, ps, old(cur))), CLOSE_BRACE)
    {
      hide NonSpace, AfterPairs, OfPair, IsPair, IsPairs, NoPair, OfPairs;
      rc, ps := 0, [];
      NoneYet(text, cur, Path());
      var ch := Cur();
      while ch != CLOSE_BRACE as int
        invariant Valid() && Path() == old(Path()) && rc == 0
        invariant IsPairs(text, ps, old(cur)) && cur == NonSpace(text, AfterPairs(text, ps, old(cur)))
        invariant ch == if cur < |text| then text[cur] as int else END_OF_STRING
        invariant events == old(events) + OfPairs(text, ps, Path())
        decreases |text| - cur
      {
        ghost var p;
        SameFromFirst(text, AfterPairs(text, ps, old(cur)));
        rc, p := ParsePair();
        if rc < 0 { return; }
        PairDone(text, ps, old(cur), p, Path());
        ch := Cur();
        if ch == COMMA as int { cur := cur + 1; }
        ch := Cur();
        ps := ps + [p];
      }
    }

    /** An object: its braces, and pairs with a comma between two, which may be missing. */
    method ParseObject() returns (rc: int, ghost v: Value)
      requires Valid() && cur < |text| && text[cur] == OPEN_BRACE
      modifies this`cur, this`pathLen, this`events, path
      decreases |text| - cur, 0
      ensures Valid() && IsResult(rc) && old(events) <= events
      ensures rc == 0 ==> v.Object? && Path() == old(Path()) && Took(text, v, old(cur), cur, Path(), old(events), events)
      ensures rc < 0 ==> NoValue(text, old(cur))
    {
      hide NonSpace, AfterPairs, IsPairs, NoPair, OfPairs, Reported, IsValue, Took, Extended;
      v := Scalar(Str, 0, 0);
      ghost var ps;
      FirstStays(text, cur);
      CallBack(ObjectStart, cur, cur);
      rc := TestAndSkip(OPEN_BRACE);
      if rc < 0 { return; }
      var start := cur - 1;
      var n := AppendToPath([DOT]);
      rc, ps := ParsePairs();
      if rc < 0 {
        NoObjectHere(text, ps, old(cur));
        return;
      }
      SameFromFirst(text, AfterPairs(text, ps, start + 1));
      rc := TestAndSkip(CLOSE_BRACE);
      if rc < 0 { return; }
      TruncatePath(n);
      v := Object(start, cur, ps);
      CallBack(ObjectEnd, start, cur);
      ObjectTook(text, v, Path(), old(events), events);
    }
  }

  lemma SameFromFirst(text: seq<byte>, from: nat)
    ensures NonSpace(text, NonSpace(text, from)) == NonSpace(text, from)
    ensures forall v :: IsValue(text, v, NonSpace(text, from)) <==> IsValue(text, v, from)
    ensures forall p :: IsPair(text, p, NonSpace(text, from)) <==> IsPair(text, p, from)
    ensures NoValue(text, NonSpace(text, from)) ==> NoValue(text, from)
    ensures NoPair(text, NonSpace(text, from)) ==> NoPair(text, from)
  {
    assert forall v :: IsValue(text, v, NonSpace(text, from)) <==> IsValue(text, v, from);
    assert forall p :: IsPair(text, p, NonSpace(text, from)) <==> IsPair(text, p, from);
    hide IsValue, IsPair;
  }

  lemma NoKeyNoPair(text: seq<byte>, from: nat)
    requires forall k :: !KeyAt(text, k, NonSpace(text, from))
    ensures NoPair(text, from)
  {}

  /** What follows a key decides whether there is a pair. */
  lemma PairFromKey(text: seq<byte>, key: Key, from: nat)
    requires KeyAt(text, key, NonSpace(text, from))
    ensures var first := NonSpace(text, from);
            && first < BehindKey(key) <= |text| && (text[first] == QUOTE ==> first + 2 <= BehindKey(key))
            && KeyName(text, key) == (if text[first] == QUOTE then text[first + 1..BehindKey(key) - 1] else text[first..BehindKey(key)])
    ensures !Has(text, NonSpace(text, BehindKey(key)), COLON) ==> NoPair(text, from)
    ensures NoValue(text, NonSpace(text, BehindKey(key)) + 1) ==> NoPair(text, from)
  {
    if key.quoted { CharactersAhead(text, key.at, key.end); }
    forall p | IsPair(text, p, from) ensures p.key == key { KeysAgree(text, p.key, key, NonSpace(text, from)); }
  }

  lemma PairTook(text: seq<byte>, p: Pair, from: nat, to: nat, path: seq<byte>, evs: seq<Event>, mid: seq<Event>, evs': seq<Event>)
    requires KeyAt(text, p.key, NonSpace(text, from)) && Has(text, NonSpace(text, BehindKey(p.key)), COLON)
    requires mid == evs + Reported(path, Event(Str, path, p.key.at, p.key.end))
    requires Took(text, p.value, NonSpace(text, BehindKey(p.key)) + 1, to, Extended(path, KeyName(text, p.key)), mid, evs')
    ensures IsPair(text, p, from) && from < to == Behind(p.value) && evs' == evs + OfPair(text, p, path)
  {
    hide NonSpace, KeyAt, Traversal, Extended, KeyName, Reported;
    assert IsPair(text, p, from);
    PairAhead(text, p, from);
  }

  lemma NoneYet(text: seq<byte>, from: nat, path: seq<byte>)
    ensures OfElements(text, [], path) == [] && OfPairs(text, [], path) == []
    ensures IsElements(text, [], from) && After(text, [], from) == from
    ensures IsPairs(text, [], from) && AfterPairs(text, [], from) == from
  {}

  lemma ElementDone(text: seq<byte>, es: seq<Value>, from: nat, v: Value, to: nat, path: seq<byte>,
                    evs: seq<Event>, evs': seq<Event>)
    requires IsElements(text, es, from)
    requires Took(text, v, NonSpace(text, After(text, es, from)), to, Extended(path, IndexName(|es|)), evs, evs')
    ensures IsElements(text, es + [v], from) && NonSpace(text, After(text, es, from)) < to
    ensures forall base :: evs == base + OfElements(text, es, path) ==> evs' == base + OfElements(text, es + [v], path)
    ensures var j := NonSpace(text, to);
            NonSpace(text, After(text, es + [v], from)) == NonSpace(text, if Has(text, j, COMMA) then j + 1 else j)
  {
    SameFromFirst(text, After(text, es, from));
    hide NonSpace, IsValue, IsElements, Traversal, Extended, IndexName;
    assert (es + [v])[..|es|] == es;
    ElementsMore(text, es, from, v);
    FirstByteIs(text, v, After(text, es, from));
  }

  lemma PairDone(text: seq<byte>, ps: seq<Pair>, from: nat, p: Pair, path: seq<byte>)
    requires IsPairs(text, ps, from) && IsPair(text, p, AfterPairs(text, ps, from))
    ensures IsPairs(text, ps + [p], from)
    ensures OfPairs(text, ps + [p], path) == OfPairs(text, ps, path) + OfPair(text, p, path)
    ensures var j := NonSpace(text, Behind(p.value));
            NonSpace(text, AfterPairs(text, ps + [p], from)) == NonSpace(text, if Has(text, j, COMMA) then j + 1 else j)
  {
    hide NonSpace, IsPair, IsPairs, OfPair;
    assert (ps + [p])[..|ps|] == ps;
    PairsMore(text, ps, from, p);
  }

  lemma FirstStays(text: seq<byte>, at: nat)
    ensures at < |text| && !IsSpace(text[at]) ==> NonSpace(text, at) == at
  {}

  lemma ScalarTook(text: seq<byte>, kind: Kind, from: nat, end: nat, path: seq<byte>, evs: seq<Event>, evs': seq<Event>)
    returns (v: Value)
    requires var first := NonSpace(text, from);
             var at := if kind.Str? then first + 1 else first;
             ScalarAt(text, kind, at, end, first) && evs' == evs + Reported(path, Event(kind, path, at, end))
    ensures Took(text, v, from, if kind.Str? then end + 1 else end, path, evs, evs')
  {
    var first := NonSpace(text, from);
    v := Scalar(kind, if kind.Str? then first + 1 else first, end);
    FirstByteIs(text, v, from);
  }

  lemma TookEarlier(text: seq<byte>, v: Value, from: nat, to: nat, path: seq<byte>, evs: seq<Event>, evs': seq<Event>)
    requires Took(text, v, NonSpace(text, from), to, path, evs, evs')
    ensures Took(text, v, from, to, path, evs, evs')
  {
    SameFromFirst(text, from);
  }

  // Where the first byte leads to nothing, there is no value.

  lemma NoStringHere(text: seq<byte>, from: nat)
    requires Has(text, NonSpace(text, from), QUOTE) && NoString(text, NonSpace(text, from) + 1)
    ensures NoValue(text, from)
  {
    forall w | IsValue(text, w, from) ensures false { FirstByteIs(text, w, from); }
  }

  function Word(kind: Kind): seq<byte> { if kind.Null? then NULL else if kind.True? then TRUE else FALSE }

  lemma NoWordHere(text: seq<byte>, from: nat, kind: Kind)
    requires kind.Null? || kind.True? || kind.False?
    requires var first := NonSpace(text, from);
             Has(text, first, Word(kind)[0]) && !LiteralAt(text, Word(kind), first, first + |Word(kind)|)
    ensures NoValue(text, from)
  {
    forall w | IsValue(text, w, from) ensures false { FirstByteIs(text, w, from); }
  }

  lemma NoNumberHere(text: seq<byte>, from: nat)
    requires var first := NonSpace(text, from); first < |text| && (text[first] == MINUS || IsDigit(text[first]))
    requires forall e :: !NumberAt(text, NonSpace(text, from), e)
    ensures NoValue(text, from)
  {
    hide NumberAt;
    forall w | IsValue(text, w, from) ensures false { FirstByteIs(text, w, from); }
  }

  lemma NoneBeginsHere(text: seq<byte>, from: nat)
    requires forall v, b :: BeginsWith(v, b) ==> !Has(text, NonSpace(text, from), b)
    ensures NoValue(text, from)
  {
    forall w | IsValue(text, w, from) ensures false {
      FirstByteIs(text, w, from);
      assert Has(text, NonSpace(text, from), text[NonSpace(text, from)]);
    }
  }

  lemma ArrayTook(text: seq<byte>, v: Value, path: seq<byte>, evs: seq<Event>, evs': seq<Event>)
    requires v.Array? && v.at == NonSpace(text, v.at) && Has(text, v.at, OPEN_BRACKET) && IsElements(text, v.elements, v.at + 1)
    requires v.end == NonSpace(text, After(text, v.elements, v.at + 1)) + 1 && Has(text, v.end - 1, CLOSE_BRACKET)
    requires evs' == evs + Reported(path, Event(ArrayStart, path, v.at, v.at)) + OfElements(text, v.elements, Extended(path, []))
                     + Reported(path, Event(ArrayEnd, path, v.at, v.end))
    ensures Took(text, v, v.at, v.end, path, evs, evs')
  {
    hide NonSpace, After, Has, IsElements, OfElements, Reported;
    NothingAppended(path);
    assert IsValue(text, v, v.at);
    FirstByteIs(text, v, v.at);
  }

  lemma ObjectTook(text: seq<byte>, v: Value, path: seq<byte>, evs: seq<Event>, evs': seq<Event>)
    requires v.Object? && v.at == NonSpace(text, v.at) && Has(text, v.at, OPEN_BRACE) && IsPairs(text, v.pairs, v.at + 1)
    requires v.end == NonSpace(text, AfterPairs(text, v.pairs, v.at + 1)) + 1 && Has(text, v.end - 1, CLOSE_BRACE)
    requires evs' == evs + Reported(path, Event(ObjectStart, path, v.at, v.at)) + OfPairs(text, v.pairs, Extended(path, [DOT]))
                     + Reported(path, Event(ObjectEnd, path, v.at, v.end))
    ensures Took(text, v, v.at, v.end, path, evs, evs')
  {
    hide NonSpace, AfterPairs, Has, IsPairs, OfPairs, Reported, Extended;
    assert IsValue(text, v, v.at);
    FirstByteIs(text, v, v.at);
  }

  lemma NothingAppended(path: seq<byte>)
    ensures Extended(path, []) == path
  {}

  lemma NoArrayHere(text: seq<byte>, es: seq<Value>, at: nat)
    requires Has(text, at, OPEN_BRACKET) && IsElements(text, es, at + 1) && NoValue(text, After(text, es, at + 1))
    requires !Has(text, NonSpace(text, After(text, es, at + 1)), CLOSE_BRACKET)
    ensures NoValue(text, at)
  {
    FirstStays(text, at);
    hide NonSpace, After, IsElements, NoValue;
    forall w | IsValue(text, w, at) ensures false {
      FirstByteIs(text, w, at);
      ElementsStuck(text, es, at + 1, w, at);
    }
    NoneIsNone(text, at);
  }

  lemma NoObjectHere(text: seq<byte>, ps: seq<Pair>, at: nat)
    requires Has(text, at, OPEN_BRACE) && IsPairs(text, ps, at + 1) && NoPair(text, AfterPairs(text, ps, at + 1))
    requires !Has(text, NonSpace(text, AfterPairs(text, ps, at + 1)), CLOSE_BRACE)
    ensures NoValue(text, at)
  {
    FirstStays(text, at);
    hide NonSpace, AfterPairs, IsPairs, NoPair, NoValue;
    forall w | IsValue(text, w, at) ensures false {
      FirstByteIs(text, w, at);
      PairsStuck(text, ps, at + 1, w, at);
    }
    NoneIsNone(text, at);
  }

  lemma NoneIsNone(text: seq<byte>, from: nat)
    requires forall v :: !IsValue(text, v, from)
    ensures NoValue(text, from)
  {}

  lemma StringBegins(text: seq<byte>, first: nat)
    ensures Characters(text, first + 1, first + 1)
    ensures !Has(text, first, QUOTE) ==> NoString(text, first + 1)
  {}

  /** A string that has come to no quote and no character is none. */
  lemma StringStuck(text: seq<byte>, at: nat, mid: nat)
    requires Characters(text, at, mid) && CharSize(text, mid) == 0 && !Has(text, mid, QUOTE)
    ensures NoString(text, at)
  {
    forall end ensures !StringAt(text, at, end) {
      if StringAt(text, at, end) { CharactersAgree(text, at, mid, end); }
    }
  }

  /** json_walk: the number of bytes the value took, or an error. Spaces and text behind the value are not looked at. It succeeds
    * if and only if the text begins with a value, and its callbacks are the traversal of the one value there is. */
  method Walk(json: seq<byte>) returns (rc: int, events: seq<Event>)
    ensures rc > 0 || rc == INVALID || rc == INCOMPLETE
    ensures json == [] ==> rc == INCOMPLETE
    ensures rc < 0 <==> NoValue(json, 0)
    ensures forall v :: IsValue(json, v, 0) ==> rc == Behind(v) && events == Traversal(json, v, [])
    ensures rc > 0 ==> rc <= |json| && Good(json, events, 0, rc)
  {
    hide IsValue, Traversal, Good;
    var f := new Frozen(json);
    if json == [] {
      NothingInNothing();
      return INCOMPLETE, [];
    }
    ghost var v;
    rc, v := f.ParseValue();
    events := f.events;
    if rc == 0 {
      rc := f.cur;
      forall w | IsValue(json, w, 0) ensures w == v { Unambiguous(json, v, w, 0); }
      TraversalGood(json, v, 0, []);
      FirstByteIs(json, v, 0);
      assert events == Traversal(json, v, []);
      GoodWider(json, events, NonSpace(json, 0), rc, 0, rc);
    }
  }

  lemma NothingInNothing()
    ensures NoValue([], 0)
  {
    var none: seq<byte> := [];
    forall v ensures !IsValue(none, v, 0) {
      if IsValue(none, v, 0) { FirstByteIs(none, v, 0); }
    }
  }
}
