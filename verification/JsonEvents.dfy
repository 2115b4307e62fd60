/** What a walk over JSON text reports, and when the reports are properly nested. */
module JsonEvents {
  import opened Bytes
  import opened JsonGrammar

  /** A callback: its path, and the token's place in the text; a start has no token, and `at` is where its bracket stands. */
  datatype Event = Event(kind: Kind, path: seq<byte>, at: nat, end: nat)

  predicate Opens(e: Event) { e.kind.ObjectStart? || e.kind.ArrayStart? }

  predicate Ends(e: Event) { e.kind.ObjectEnd? || e.kind.ArrayEnd? }

  /** The end belongs to the start: same kind, same path, and a token that runs from the start's bracket to its own. */
  predicate Paired(text: seq<byte>, s: Event, e: Event) {
    && (s.kind.ObjectStart? <==> e.kind.ObjectEnd?) && (s.kind.ArrayStart? <==> e.kind.ArrayEnd?)
    && s.path == e.path && e.at == s.at && e.at + 1 < e.end <= |text|
    && (e.kind.ObjectEnd? ==> text[e.at] == OPEN_BRACE && text[e.end - 1] == CLOSE_BRACE)
    && (e.kind.ArrayEnd? ==> text[e.at] == OPEN_BRACKET && text[e.end - 1] == CLOSE_BRACKET)
  }

  /** Every end closes the start last opened, and all are closed in the end. */
  predicate Matched(text: seq<byte>, evs: seq<Event>, open: seq<Event>)
    decreases |evs|
  {
    if evs == [] then open == []
    else if Opens(evs[0]) then Matched(text, evs[1..], [evs[0]] + open)
    else if Ends(evs[0]) then open != [] && Paired(text, open[0], evs[0]) && Matched(text, evs[1..], open[1..])
    else Matched(text, evs[1..], open)
  }

  lemma {:induction false} MatchedUnder(text: seq<byte>, a: seq<Event>, inner: seq<Event>, b: seq<Event>, open: seq<Event>)
    requires Matched(text, a, inner) && Matched(text, b, open)
    ensures Matched(text, a + b, inner + open)
    decreases |a|
  {
    if a == [] {
      assert a + b == b && inner + open == open;
    } else {
      assert (a + b)[0] == a[0] && (a + b)[1..] == a[1..] + b;
      if Opens(a[0]) {
        MatchedUnder(text, a[1..], [a[0]] + inner, b, open);
        assert [a[0]] + inner + open == [a[0]] + (inner + open);
      } else if Ends(a[0]) {
        MatchedUnder(text, a[1..], inner[1..], b, open);
        assert (inner + open)[1..] == inner[1..] + open;
      } else {
        MatchedUnder(text, a[1..], inner, b, open);
      }
    }
  }

  /** One nested run of events after another is nested. */
  lemma MatchedBoth(text: seq<byte>, a: seq<Event>, b: seq<Event>)
    requires Matched(text, a, []) && Matched(text, b, [])
    ensures Matched(text, a + b, [])
  {
    var none: seq<Event> := [];
    MatchedUnder(text, a, none, b, none);
    assert none + none == none;
  }

  /** So is a nested run between a start and its end. */
  lemma MatchedWrapped(text: seq<byte>, s: Event, inner: seq<Event>, e: Event)
    requires Matched(text, inner, []) && Opens(s) && Ends(e) && Paired(text, s, e)
    ensures Matched(text, [s] + inner + [e], [])
  {
    var none: seq<Event> := [];
    var all := [s] + inner + [e];
    assert [e][1..] == none && [s][1..] == none;
    assert Matched(text, none, none) && Matched(text, [e], [s]);
    MatchedUnder(text, inner, none, [e], [s]);
    assert none + [s] == [s] && [s] + none == [s];
    assert all[0] == s && all[1..] == inner + [e];
    assert Matched(text, all[1..], [all[0]] + none);
    assert Matched(text, all, none);
    assert all == [s] + inner + [e];
  }

  /** A start that is open is closed by an event that pairs with it, with a nested run between the two. */
  lemma {:induction false} OpenIsClosed(text: seq<byte>, evs: seq<Event>, open: seq<Event>) returns (j: nat)
    requires Matched(text, evs, open) && open != []
    ensures j < |evs| && Ends(evs[j]) && Paired(text, open[0], evs[j])
    ensures Matched(text, evs[..j], []) && Matched(text, evs[j + 1..], open[1..])
    decreases |evs|
  {
    var e := evs[0];
    if Ends(e) {
      assert evs[..0] == [];
      j := 0;
    } else if !Opens(e) {
      var k := OpenIsClosed(text, evs[1..], open);
      j := k + 1;
      assert evs[..j][1..] == evs[1..][..k] && evs[j + 1..] == evs[1..][k + 1..];
    } else {
      assert ([e] + open)[1..] == open && ([e] + open)[0] == e;
      var k := OpenIsClosed(text, evs[1..], [e] + open);
      Regrouped(evs, k);
      var rest := evs[k + 2..];
      var m := OpenIsClosed(text, rest, open);
      j := k + 2 + m;
      SkippedOver(text, e, evs[1..][..k], evs[k + 1], rest[..m]);
      RegroupedMore(evs, k, m);
    }
  }

  lemma Regrouped(evs: seq<Event>, k: nat)
    requires k + 2 <= |evs|
    ensures evs[1..][k + 1..] == evs[k + 2..] && evs[1..][k] == evs[k + 1]
  {}

  lemma RegroupedMore(evs: seq<Event>, k: nat, m: nat)
    requires k + 2 + m < |evs|
    ensures evs[..k + 2 + m] == [evs[0]] + evs[1..][..k] + [evs[k + 1]] + evs[k + 2..][..m]
    ensures evs[k + 2..][m] == evs[k + 2 + m] && evs[k + 2..][m + 1..] == evs[k + 2 + m + 1..]
  {}

  lemma SkippedOver(text: seq<byte>, s: Event, inner: seq<Event>, e: Event, more: seq<Event>)
    requires Opens(s) && Ends(e) && Paired(text, s, e) && Matched(text, inner, []) && Matched(text, more, [])
    ensures Matched(text, [s] + inner + [e] + more, [])
  {
    hide Matched;
    MatchedWrapped(text, s, inner, e);
    MatchedBoth(text, [s] + inner + [e], more);
  }

  /** In a nested run every start has its end: same path, same bracket pair, and a nested run between them. */
  lemma {:induction false} StartHasEnd(text: seq<byte>, evs: seq<Event>, open: seq<Event>, i: nat) returns (j: nat)
    requires Matched(text, evs, open) && i < |evs| && Opens(evs[i])
    ensures i < j < |evs| && Ends(evs[j]) && Paired(text, evs[i], evs[j]) && Matched(text, evs[i + 1..j], [])
    decreases |evs|
  {
    var e := evs[0];
    if i == 0 {
      var k := OpenIsClosed(text, evs[1..], [e] + open);
      j := k + 1;
      assert evs[1..][..k] == evs[1..j];
    } else {
      var k := StartHasEnd(text, evs[1..], if Opens(e) then [e] + open else if Ends(e) then open[1..] else open, i - 1);
      j := k + 1;
      assert evs[1..][i - 1 + 1..k] == evs[i + 1..j];
    }
  }

  /** The token is what its kind says. */
  ghost predicate TokenOk(text: seq<byte>, e: Event) {
    && e.at <= e.end <= |text|
    && (e.kind.True? ==> text[e.at..e.end] == TRUE)
    && (e.kind.False? ==> text[e.at..e.end] == FALSE)
    && (e.kind.Null? ==> text[e.at..e.end] == NULL)
    && (e.kind.Num? ==> IsNumber(text[e.at..e.end]))
    && (e.kind.Str? ==> StringAt(text, e.at, e.end) || IdentifierAt(text, e.at, e.end))
  }

  /** A run of events from one stretch of the text: nested, every token right, none from outside. */
  ghost predicate Good(text: seq<byte>, evs: seq<Event>, from: nat, to: nat) {
    && Matched(text, evs, [])
    && forall i :: 0 <= i < |evs| ==> TokenOk(text, evs[i]) && from <= evs[i].at && evs[i].end <= to
  }

  lemma GoodBoth(text: seq<byte>, a: seq<Event>, from: nat, mid: nat, b: seq<Event>, to: nat)
    requires Good(text, a, from, mid) && Good(text, b, mid, to) && from <= mid <= to
    ensures Good(text, a + b, from, to)
  {
    hide TokenOk;
    MatchedBoth(text, a, b);
  }

  lemma GoodWider(text: seq<byte>, a: seq<Event>, from: nat, to: nat, from': nat, to': nat)
    requires Good(text, a, from, to) && from' <= from && to <= to'
    ensures Good(text, a, from', to')
  {
    hide TokenOk, Matched;
  }

  lemma GoodNone(text: seq<byte>, from: nat, to: nat)
    ensures Good(text, [], from, to)
  {}

  lemma GoodOne(text: seq<byte>, e: Event)
    requires TokenOk(text, e) && !Opens(e) && !Ends(e)
    ensures Good(text, [e], e.at, e.end)
  {
    assert [e][1..] == [];
  }

  lemma GoodWrapped(text: seq<byte>, s: Event, inner: seq<Event>, e: Event)
    requires Opens(s) && Ends(e) && Paired(text, s, e) && s.end == s.at
    requires Good(text, inner, s.at, e.end)
    ensures Good(text, [s] + inner + [e], s.at, e.end)
  {
    MatchedWrapped(text, s, inner, e);
    hide Matched;
    forall i | 0 <= i < |inner| + 2
      ensures TokenOk(text, ([s] + inner + [e])[i]) && s.at <= ([s] + inner + [e])[i].at && ([s] + inner + [e])[i].end <= e.end
    {
      if 0 < i <= |inner| { assert ([s] + inner + [e])[i] == inner[i - 1]; }
    }
  }

  // ---- the callbacks of a value ----

  predicate Hidden(path: seq<byte>) { path != [] && path[|path| - 1] == DOT }

  /** A callback under a path, if it is made: none is while the path ends in a dot. */
  function Reported(path: seq<byte>, e: Event): seq<Event> { if Hidden(path) then [] else [e] }

  const MAX_PATH: nat := 256

  /** A path with more appended, as far as the buffer and its terminator allow. */
  function Extended(path: seq<byte>, str: seq<byte>): seq<byte> {
    if |path| < MAX_PATH then path + str[..Min(|str|, MAX_PATH - |path| - 1)] else path
  }

  /** A number in decimal digits. */
  function Decimal(n: nat): seq<byte> {
    if n < 10 then [(48 + n) as byte] else Decimal(n / 10) + [(48 + n % 10) as byte]
  }

  function IndexName(i: nat): seq<byte> { [OPEN_BRACKET] + Decimal(i) + [CLOSE_BRACKET] }

  function KeyName(text: seq<byte>, key: Key): seq<byte> {
    if key.at <= key.end <= |text| then text[key.at..key.end] else []
  }

  /** The callbacks that a value under a path comes to, in their order. */
  function Traversal(text: seq<byte>, v: Value, path: seq<byte>): seq<Event>
    decreases v
  {
    match v
    case Scalar(kind, at, end) => Reported(path, Event(kind, path, at, end))
    case Array(at, end, elements) =>
      Reported(path, Event(ArrayStart, path, at, at)) + OfElements(text, elements, path)
      + Reported(path, Event(ArrayEnd, path, at, end))
    case Object(at, end, pairs) =>
      Reported(path, Event(ObjectStart, path, at, at)) + OfPairs(text, pairs, Extended(path, [DOT]))
      + Reported(path, Event(ObjectEnd, path, at, end))
  }

  /** Each element under its index. */
  function OfElements(text: seq<byte>, es: seq<Value>, path: seq<byte>): seq<Event>
    decreases es
  {
    if es == [] then []
    else
      OfElements(text, es[..|es| - 1], path) + Traversal(text, es[|es| - 1], Extended(path, IndexName(|es| - 1)))
  }

  function OfPairs(text: seq<byte>, ps: seq<Pair>, path: seq<byte>): seq<Event>
    decreases ps
  {
    if ps == [] then [] else OfPairs(text, ps[..|ps| - 1], path) + OfPair(text, ps[|ps| - 1], path)
  }

  /** The key, which is called back only when the path was too long for the dot, and the value under the key's name. */
  function OfPair(text: seq<byte>, p: Pair, path: seq<byte>): seq<Event>
    decreases p
  {
    Reported(path, Event(Str, path, p.key.at, p.key.end)) + Traversal(text, p.value, Extended(path, KeyName(text, p.key)))
  }

  /** The callbacks of a value are a good run from its stretch of the text. */
  lemma {:induction false} TraversalGood(text: seq<byte>, v: Value, from: nat, path: seq<byte>)
    requires IsValue(text, v, from)
    ensures Good(text, Traversal(text, v, path), NonSpace(text, from), Behind(v))
    decreases v
  {
    hide NonSpace, Good, IsValue, Traversal;
    match v
    case Scalar(_, _, _) => ScalarGood(text, v, from, path);
    case Array(_, _, _) => ArrayGood(text, v, from, path);
    case Object(_, _, _) => ObjectGood(text, v, from, path);
  }

  lemma {:induction false} ArrayGood(text: seq<byte>, v: Value, from: nat, path: seq<byte>)
    requires IsValue(text, v, from) && v.Array?
    ensures Good(text, Traversal(text, v, path), NonSpace(text, from), Behind(v))
    decreases v, 0
  {
    hide NonSpace, After, IsElements, Good, OfElements, Reported;
    var inner := OfElements(text, v.elements, path);
    ElementsAhead(text, v.elements, v.at + 1);
    ElementsGood(text, v.elements, v.at + 1, path);
    GoodWider(text, inner, v.at + 1, After(text, v.elements, v.at + 1), v.at + 1, v.end - 1);
    CompositeGood(text, path, Event(ArrayStart, path, v.at, v.at), inner, Event(ArrayEnd, path, v.at, v.end));
  }

  lemma {:induction false} ObjectGood(text: seq<byte>, v: Value, from: nat, path: seq<byte>)
    requires IsValue(text, v, from) && v.Object?
    ensures Good(text, Traversal(text, v, path), NonSpace(text, from), Behind(v))
    decreases v, 0
  {
    hide NonSpace, AfterPairs, IsPairs, Good, OfPairs, Reported, Extended;
    var inside := Extended(path, [DOT]);
    var inner := OfPairs(text, v.pairs, inside);
    PairsAhead(text, v.pairs, v.at + 1);
    PairsGood(text, v.pairs, v.at + 1, inside);
    GoodWider(text, inner, v.at + 1, AfterPairs(text, v.pairs, v.at + 1), v.at + 1, v.end - 1);
    CompositeGood(text, path, Event(ObjectStart, path, v.at, v.at), inner, Event(ObjectEnd, path, v.at, v.end));
  }

  lemma ScalarGood(text: seq<byte>, v: Value, from: nat, path: seq<byte>)
    requires IsValue(text, v, from) && v.Scalar?
    ensures Good(text, Traversal(text, v, path), NonSpace(text, from), Behind(v))
  {
    FirstByteIs(text, v, from);
    if v.kind.Num? { NumberIs(text, v.at, v.end); }
    if v.kind.Str? { CharactersAhead(text, v.at, v.end); }
    var e := Event(v.kind, path, v.at, v.end);
    hide NonSpace, Characters, NumberAt;
    assert TokenOk(text, e);
    GoodOne(text, e);
    GoodNone(text, NonSpace(text, from), Behind(v));
    GoodWider(text, [e], e.at, e.end, NonSpace(text, from), Behind(v));
  }

  lemma CompositeGood(text: seq<byte>, path: seq<byte>, s: Event, inner: seq<Event>, e: Event)
    requires Opens(s) && Ends(e) && Paired(text, s, e) && s.end == s.at && Good(text, inner, s.at + 1, e.end - 1)
    ensures Good(text, Reported(path, s) + inner + Reported(path, e), s.at, e.end)
  {
    hide TokenOk, Matched;
    GoodWider(text, inner, s.at + 1, e.end - 1, s.at, e.end);
    if Hidden(path) {
      assert Reported(path, s) + inner + Reported(path, e) == inner;
    } else {
      GoodWrapped(text, s, inner, e);
    }
  }

  lemma {:induction false} ElementsGood(text: seq<byte>, es: seq<Value>, from: nat, path: seq<byte>)
    requires IsElements(text, es, from)
    ensures Good(text, OfElements(text, es, path), from, After(text, es, from))
    decreases es
  {
    hide Good, IsValue, IsElements;
    if es == [] {
      GoodNone(text, from, from);
    } else {
      var before, last := es[..|es| - 1], es[|es| - 1];
      ElementsBefore(text, es, from, |es| - 1);
      var mid := After(text, before, from);
      ElementsAhead(text, before, from);
      ElementsGood(text, before, from, path);
      var under := Extended(path, IndexName(|es| - 1));
      FirstByteIs(text, last, mid);
      TraversalGood(text, last, mid, under);
      GoodWider(text, Traversal(text, last, under), NonSpace(text, mid), Behind(last), mid, After(text, es, from));
      GoodBoth(text, OfElements(text, before, path), from, mid, Traversal(text, last, under), After(text, es, from));
    }
  }

  lemma {:induction false} PairsGood(text: seq<byte>, ps: seq<Pair>, from: nat, path: seq<byte>)
    requires IsPairs(text, ps, from)
    ensures Good(text, OfPairs(text, ps, path), from, AfterPairs(text, ps, from))
    decreases ps
  {
    hide Good, IsPair, IsPairs;
    if ps == [] {
      GoodNone(text, from, from);
    } else {
      var before, last := ps[..|ps| - 1], ps[|ps| - 1];
      PairsBefore(text, ps, from, |ps| - 1);
      var mid := AfterPairs(text, before, from);
      PairsAhead(text, before, from);
      PairsGood(text, before, from, path);
      PairAhead(text, last, mid);
      PairGood(text, last, mid, path);
      GoodWider(text, OfPair(text, last, path), NonSpace(text, mid), Behind(last.value), mid, AfterPairs(text, ps, from));
      GoodBoth(text, OfPairs(text, before, path), from, mid, OfPair(text, last, path), AfterPairs(text, ps, from));
    }
  }

  lemma {:induction false} PairGood(text: seq<byte>, p: Pair, from: nat, path: seq<byte>)
    requires IsPair(text, p, from)
    ensures Good(text, OfPair(text, p, path), NonSpace(text, from), Behind(p.value))
    decreases p
  {
    var first, mid := NonSpace(text, from), NonSpace(text, BehindKey(p.key)) + 1;
    var e, under := Event(Str, path, p.key.at, p.key.end), Extended(path, KeyName(text, p.key));
    if p.key.quoted { CharactersAhead(text, p.key.at, p.key.end); }
    PairAhead(text, p, from);
    hide NonSpace, Characters, Traversal;
    assert TokenOk(text, e);
    GoodOne(text, e);
    hide TokenOk, Good;
    GoodNone(text, first, mid);
    GoodWider(text, [e], e.at, e.end, first, mid);
    FirstByteIs(text, p.value, mid);
    TraversalGood(text, p.value, mid, under);
    GoodWider(text, Traversal(text, p.value, under), NonSpace(text, mid), Behind(p.value), mid, Behind(p.value));
    GoodBoth(text, Reported(path, e), first, mid, Traversal(text, p.value, under), Behind(p.value));
  }

  /** The callback of a value itself: a scalar's, or a start. */
  function Own(v: Value, path: seq<byte>): Event {
    match v
    case Scalar(kind, at, end) => Event(kind, path, at, end)
    case Array(at, _, _) => Event(ArrayStart, path, at, at)
    case Object(at, _, _) => Event(ObjectStart, path, at, at)
  }

  /** A value makes a callback of its own, and makes it first, if and only if its path does not end in a dot. */
  lemma OwnFirstIff(text: seq<byte>, v: Value, from: nat, path: seq<byte>)
    requires IsValue(text, v, from)
    ensures !Hidden(path) <==> Own(v, path) in Traversal(text, v, path)
    ensures !Hidden(path) ==> Own(v, path) == Traversal(text, v, path)[0]
  {
    if Hidden(path) {
      match v {
        case Scalar(_, _, _) =>
        case Array(at, _, elements) => ElementsGood(text, elements, at + 1, path);
        case Object(at, _, pairs) => PairsGood(text, pairs, at + 1, Extended(path, [DOT]));
      }
    }
  }

  /** So the value under a key, its name not cut off, is called back if and only if the name is not empty and does not end in a
    * dot. */
  lemma KeyHides(text: seq<byte>, v: Value, from: nat, path: seq<byte>, name: seq<byte>)
    requires IsValue(text, v, from) && |path| + 1 + |name| < MAX_PATH
    ensures (name != [] && name[|name| - 1] != DOT) <==>
            Own(v, path + [DOT] + name) in Traversal(text, v, Extended(Extended(path, [DOT]), name))
  {
    assert Extended(path, [DOT]) == path + [DOT];
    assert Extended(path + [DOT], name) == path + [DOT] + name;
    OwnFirstIff(text, v, from, path + [DOT] + name);
  }

  // ---- the names of elements ----

  /** The number that digits denote. */
  function NumberOf(d: seq<byte>): int {
    if d == [] then 0 else 10 * NumberOf(d[..|d| - 1]) + (d[|d| - 1] as int - 48)
  }

  /** A decimal numeral: digits, and no zero before others. */
  predicate IsNumeral(d: seq<byte>) { Digits(d) && (d[0] == 48 ==> |d| == 1) }

  lemma {:induction false} NumeralOf(n: nat)
    ensures IsNumeral(Decimal(n)) && NumberOf(Decimal(n)) == n && (0 < n ==> Decimal(n)[0] != 48)
  {
    var d := Decimal(n);
    if n < 10 {
      assert d[..0] == [];
    } else {
      NumeralOf(n / 10);
      assert d[..|d| - 1] == Decimal(n / 10);
    }
  }

  lemma NumberBounds(d: seq<byte>)
    requires forall i :: 0 <= i < |d| ==> IsDigit(d[i])
    ensures NumberOf(d) >= 0 && (d != [] && d[0] != 48 ==> NumberOf(d) > 0)
    decreases |d|
  {
    if d != [] { NumberBounds(d[..|d| - 1]); }
  }

  /** A number has one numeral. */
  lemma {:induction false} OneNumeral(a: seq<byte>, b: seq<byte>)
    requires IsNumeral(a) && IsNumeral(b) && NumberOf(a) == NumberOf(b)
    ensures a == b
    decreases |a|
  {
    var a', b' := a[..|a| - 1], b[..|b| - 1];
    NumberBounds(a');
    NumberBounds(b');
    assert a == a' + [a[|a| - 1]] && b == b' + [b[|b| - 1]];
    assert IsDigit(a[|a| - 1]) && IsDigit(b[|b| - 1]);
    if a' != [] && b' != [] { OneNumeral(a', b'); }
  }

  /** Element i of an array is called back under the path and the numeral of i in brackets, between the callbacks of the elements before
    * it and of those behind it. */
  lemma {:induction false} ElementNamed(text: seq<byte>, es: seq<Value>, path: seq<byte>, i: nat)
    returns (name: seq<byte>, behind: seq<Event>)
    requires i < |es|
    ensures IsNumeral(name) && NumberOf(name) == i
    ensures OfElements(text, es, path)
         == OfElements(text, es[..i], path) + Traversal(text, es[i], Extended(path, [OPEN_BRACKET] + name + [CLOSE_BRACKET])) + behind
    decreases |es|
  {
    hide Traversal, Extended, NumberOf, IsNumeral;
    if i == |es| - 1 {
      NumeralOf(i);
      name, behind := Decimal(i), [];
    } else {
      var es' := es[..|es| - 1];
      assert es'[..i] == es[..i] && es'[i] == es[i];
      name, behind := ElementNamed(text, es', path, i);
      behind := behind + Traversal(text, es[|es| - 1], Extended(path, IndexName(|es| - 1)));
    }
  }
}
