/** What a URL written out of its parts comes apart into, and what the fields of any URL that is taken leave over. */
module UrlCompose {
  import opened Bytes
  import opened UrlSplit
  import opened UrlReference

  // ---- the fields of a URL that is taken ----

  predicate Within(f: Option<Field>, i: nat) { f.Some? && f.value.off <= i < EndOf(f.value) }

  predicate InAField(u: Url, i: nat) {
    Within(u.schema, i) || Within(u.userinfo, i) || Within(u.host, i) || Within(u.port, i) || Within(u.path, i) || Within(u.query, i)
    || Within(u.fragment, i)
  }

  /** From k on: a path has neither a question mark nor a number sign in it, a query no number sign, and what is in none of the three is
    * one of those. */
  predicate TailIs(url: seq<byte>, u: Url, k: nat) {
    forall i :: k <= i < |url| ==>
      && (Within(u.path, i) ==> url[i] != QUESTION && url[i] != HASH)
      && (Within(u.query, i) ==> url[i] != HASH)
      && (Within(u.path, i) || Within(u.query, i) || Within(u.fragment, i) || url[i] == QUESTION || url[i] == HASH)
  }

  lemma FragmentIs(url: seq<byte>, u: Url, k: nat)
    requires k <= |url| && u.fragment == None && (k < |url| ==> url[k] == HASH)
    ensures var v := WithFragment(url, u, k);
            && v.path == u.path && v.query == u.query
            && forall i :: k <= i < |url| ==> Within(v.fragment, i) || url[i] == HASH
  {}

  lemma QueryIs(url: seq<byte>, u: Url, k: nat)
    requires k <= |url| && u.query == None && u.fragment == None && (k < |url| ==> url[k] == QUESTION || url[k] == HASH)
    ensures var v := WithQuery(url, u, k);
            && v.path == u.path
            && (v.query.Some? ==> k < v.query.value.off && EndOf(v.query.value) <= |url|)
            && forall i :: k <= i < |url| ==>
                 && (Within(v.query, i) ==> url[i] != HASH)
                 && (Within(v.query, i) || Within(v.fragment, i) || url[i] == QUESTION || url[i] == HASH)
  {
    if k < |url| && url[k] == QUESTION {
      var e := QueryEnd(url, k + 1);
      FragmentIs(url, u.(query := Stretch(k + 1, e)), e);
    } else {
      FragmentIs(url, u, k);
    }
    hide WithFragment, HashesEnd;
  }

  lemma PathIs(url: seq<byte>, u: Url, k: nat)
    requires k <= |url| && u.path == None && u.query == None && u.fragment == None
    ensures TailIs(url, WithPath(url, u, k), k)
    ensures var v := WithPath(url, u, k); (v.path.Some? ==> k <= v.path.value.off) && (v.query.Some? ==> k <= v.query.value.off)
  {
    hide WithQuery;
    if k < |url| && url[k] != QUESTION && url[k] != HASH {
      var e := PathEnd(url, k);
      QueryIs(url, u.(path := Stretch(k, e)), e);
    } else {
      QueryIs(url, u, k);
    }
  }

  predicate AuthorityCovered(url: seq<byte>, a: Authority, from: nat, to: nat)
    requires to <= |url|
  {
    forall i :: from <= i < to ==>
      || Within(a.userinfo, i) || Within(a.host, i) || Within(a.port, i)
      || url[i] == AT || url[i] == COLON || url[i] == OPEN_BRACKET || url[i] == CLOSE_BRACKET
  }

  lemma HostCovers(url: seq<byte>, u: Authority, k: nat, e: nat)
    requires k <= e <= |url| && u.port == None && WithHost(url, u, k, e).Some?
    ensures var v := WithHost(url, u, k, e).value; v.userinfo == u.userinfo && AuthorityCovered(url, v, k, e)
  {
    hide IsV6, AllHost, AllDigits;
  }

  lemma SplitCovers(url: seq<byte>, h: nat, e: nat, at: bool)
    requires h <= e <= |url| && SplitAuthority(url, h, e, at).Some?
    ensures AuthorityCovered(url, SplitAuthority(url, h, e, at).value, h, e)
  {
    hide WithHost, AllUserinfo;
    if at {
      var k := FirstOf(url, AT, h, e);
      HostCovers(url, NO_AUTHORITY.(userinfo := Stretch(h, k)), k + 1, e);
    } else {
      HostCovers(url, NO_AUTHORITY, h, e);
    }
  }

  predicate IsDelimiter(b: byte) {
    b == COLON || b == SLASH || b == AT || b == OPEN_BRACKET || b == CLOSE_BRACKET || b == QUESTION || b == HASH
  }

  /** From a place on, everything is in a field or a delimiter. */
  predicate Covered(url: seq<byte>, u: Url, from: nat) { forall i :: from <= i < |url| ==> InAField(u, i) || IsDelimiter(url[i]) }

  lemma AuthorityCovers(url: seq<byte>, a: nat, schema: Option<Field>)
    requires a <= |url| && FromAuthority(url, a, schema).Some?
    ensures var v := FromAuthority(url, a, schema).value;
            && TailIs(url, v, AuthorityEnd(url, a)) && v.schema == schema
            && (v.path.Some? ==> AuthorityEnd(url, a) <= v.path.value.off) && (v.query.Some? ==> AuthorityEnd(url, a) <= v.query.value.off)
            && (|url| < WIDTH ==> Covered(url, v, a))
  {
    var e := AuthorityEnd(url, a);
    var f := AuthorityFields(url, a, e).value;
    var u := NO_FIELDS.(schema := schema, userinfo := f.userinfo, host := f.host, port := f.port);
    hide WithPath, AuthorityEnd, AuthorityFields, TailIs, AuthorityCovered, Covered, IsAuthority, PrintableFrom;
    PathIs(url, u, e);
    WithPathKeeps(url, u, e, f);
    if |url| < WIDTH {
      FieldsCover(url, a, e);
      BothCover(url, WithPath(url, u, e), f, a, e);
    }
  }

  lemma FieldsCover(url: seq<byte>, a: nat, e: nat)
    requires a <= e <= |url| < WIDTH && AuthorityFields(url, a, e).Some?
    ensures AuthorityCovered(url, AuthorityFields(url, a, e).value, a, e)
  {
    hide SplitAuthority, HasAt;
    SplitCovers(url, a, e, HasAt(url, a, e));
  }

  lemma BothCover(url: seq<byte>, v: Url, f: Authority, a: nat, e: nat)
    requires a <= e <= |url| && TailIs(url, v, e) && AuthorityCovered(url, f, a, e)
    requires v.userinfo == f.userinfo && v.host == f.host && v.port == f.port
    ensures Covered(url, v, a)
  {
    hide Within;
  }

  /** In every URL that is taken the path ends before the first question mark or number sign and the query before the first number sign,
    * and, as long as nothing is cut to 16 bits, what is in no field is a delimiter. */
  lemma EveryPlace(url: seq<byte>, connect: bool)
    requires Parsed(url, connect).Some?
    ensures var u := Parsed(url, connect).value;
            && (forall i :: 0 <= i < |url| && Within(u.path, i) ==> url[i] != QUESTION && url[i] != HASH)
            && (forall i :: 0 <= i < |url| && Within(u.query, i) ==> url[i] != HASH)
            && (|url| < WIDTH ==> Covered(url, u, 0))
  {
    ParsedIsSplit(url, connect);
    FieldsPlaces(url, connect);
    hide Parsed, SplitFields, Within, IsDelimiter;
  }

  lemma FieldsPlaces(url: seq<byte>, connect: bool)
    requires SplitFields(url, connect).Some?
    ensures var u := SplitFields(url, connect).value;
            && (forall i :: 0 <= i < |url| && Within(u.path, i) ==> url[i] != QUESTION && url[i] != HASH)
            && (forall i :: 0 <= i < |url| && Within(u.query, i) ==> url[i] != HASH)
            && (|url| < WIDTH ==> Covered(url, u, 0))
  {
    hide FromAuthority, WithPath, AuthorityEnd, PrintableFrom;
    if connect {
      AuthorityCovers(url, 0, None);
    } else if url == [] {
    } else if url[0] == SLASH || url[0] == 42 {
      PathIs(url, NO_FIELDS, 0);
    } else {
      var k := LettersEnd(url, 0);
      AuthorityCovers(url, k + 3, Stretch(0, k));
      SchemaEndsAt(url, k);
    }
  }

  // ---- a URL written out of its parts ----

  datatype Parts = Parts(schema: seq<byte>, userinfo: Option<seq<byte>>, host: seq<byte>, brackets: bool, port: Option<seq<byte>>,
                         path: seq<byte>, query: Option<seq<byte>>, fragment: Option<seq<byte>>)

  /** A part behind the byte that leads to it. */
  function Lead(b: byte, t: Option<seq<byte>>): seq<byte> { if t.Some? then [b] + t.value else [] }

  function UserinfoText(w: Parts): seq<byte> { if w.userinfo.Some? then w.userinfo.value + [AT] else [] }

  function HostText(w: Parts): seq<byte> { if w.brackets then [OPEN_BRACKET] + w.host + [CLOSE_BRACKET] else w.host }

  function Tail(w: Parts): seq<byte> { w.path + Lead(QUESTION, w.query) + Lead(HASH, w.fragment) }

  /** The characters each part may have. */
  predicate ProperTail(w: Parts) {
    && (forall b <- w.path :: Printable(b) && b != QUESTION && b != HASH)
    && (w.query.Some? ==> forall b <- w.query.value :: Printable(b) && b != HASH)
    && (w.fragment.Some? ==> (forall b <- w.fragment.value :: Printable(b)) && (0 < |w.fragment.value| ==> w.fragment.value[0] != HASH))
  }

  predicate ProperAuthority(w: Parts) {
    && (w.userinfo.Some? ==> AllUserinfo(w.userinfo.value, 0, |w.userinfo.value|))
    && (if w.brackets then IsV6(w.host, 0, |w.host|) else 0 < |w.host| && AllHost(w.host, 0, |w.host|))
    && (w.port.Some? ==> 0 < |w.port.value| && AllDigits(w.port.value, 0, |w.port.value|))
  }

  /** The field of a part that begins at a place, if it is not empty. */
  function Piece(off: nat, t: seq<byte>): Option<Field> { Stretch(off, off + |t|) }

  /** The fields of a query and a fragment that begin at k. */
  function QueryFields(u: Url, w: Parts, k: nat): Url {
    var f := k + |Lead(QUESTION, w.query)|;
    u.(query := if w.query.Some? then Piece(k + 1, w.query.value) else None,
       fragment := if w.fragment.Some? then Piece(f + 1, w.fragment.value) else None)
  }

  /** The fields of a tail that begins at k. */
  function TailFields(u: Url, w: Parts, k: nat): Url { QueryFields(u.(path := Piece(k, w.path)), w, k + |w.path|) }

  /** Where a piece of a text stands, the text says what the piece says. */
  predicate Stands(url: seq<byte>, k: nat, t: seq<byte>) { k + |t| <= |url| && url[k..k + |t|] == t }

  lemma StandsAt(url: seq<byte>, k: nat, t: seq<byte>, i: nat)
    requires Stands(url, k, t) && i < |t|
    ensures k + i < |url| && url[k + i] == t[i]
  {
    assert url[k..k + |t|][i] == t[i];
  }

  lemma StandApart(url: seq<byte>, k: nat, a: seq<byte>, b: seq<byte>)
    requires Stands(url, k, a + b)
    ensures Stands(url, k, a) && Stands(url, k + |a|, b)
  {
    assert url[k..k + |a|] == (a + b)[..|a|];
    assert url[k + |a|..k + |a| + |b|] == (a + b)[|a|..];
  }

  lemma FragmentComposed(url: seq<byte>, u: Url, w: Parts, k: nat)
    requires ProperTail(w) && Stands(url, k, Lead(HASH, w.fragment)) && k + |Lead(HASH, w.fragment)| == |url| && u.fragment == None
    ensures WithFragment(url, u, k) == u.(fragment := if w.fragment.Some? then Piece(k + 1, w.fragment.value) else None)
  {
    if w.fragment.Some? {
      assert Lead(HASH, w.fragment) == [HASH] + w.fragment.value;
      StandApart(url, k, [HASH], w.fragment.value);
      if 0 < |w.fragment.value| { StandsAt(url, k + 1, w.fragment.value, 0); }
    }
  }

  /** What stands before the first number sign. */
  lemma QueryEndIs(url: seq<byte>, k: nat, t: seq<byte>, rest: seq<byte>)
    requires Stands(url, k, t) && Stands(url, k + |t|, rest) && k + |t| + |rest| == |url|
    requires (forall b <- t :: b != HASH) && (rest != [] ==> rest[0] == HASH)
    ensures QueryEnd(url, k) == k + |t|
  {
    if rest != [] { StandsAt(url, k + |t|, rest, 0); }
    forall i | k <= i < k + |t| ensures url[i] != HASH {
      StandsAt(url, k, t, i - k);
      assert t[i - k] in t;
    }
    hide Stands;
  }

  lemma QueryComposed(url: seq<byte>, u: Url, w: Parts, k: nat)
    requires ProperTail(w) && u.query == None && u.fragment == None
    requires Stands(url, k, Lead(QUESTION, w.query) + Lead(HASH, w.fragment))
    requires k + |Lead(QUESTION, w.query) + Lead(HASH, w.fragment)| == |url|
    ensures WithQuery(url, u, k) == QueryFields(u, w, k)
  {
    var q, f := Lead(QUESTION, w.query), Lead(HASH, w.fragment);
    StandApart(url, k, q, f);
    var e := k + |q|;
    if w.query.Some? {
      var t := w.query.value;
      StandApart(url, k, [QUESTION], t);
      StandsAt(url, k, [QUESTION], 0);
      QueryEndIs(url, k + 1, t, f);
      hide QueryEnd, Stands, WithFragment;
      FragmentComposed(url, u.(query := Piece(k + 1, t)), w, e);
    } else {
      if f != [] { StandsAt(url, e, f, 0); }
      hide QueryEnd, Stands, WithFragment;
      FragmentComposed(url, u, w, e);
    }
  }

  /** What stands before the first question mark or number sign. */
  lemma PathEndIs(url: seq<byte>, k: nat, t: seq<byte>, rest: seq<byte>)
    requires Stands(url, k, t) && Stands(url, k + |t|, rest) && k + |t| + |rest| == |url|
    requires (forall b <- t :: b != QUESTION && b != HASH) && (rest != [] ==> rest[0] == QUESTION || rest[0] == HASH)
    ensures PathEnd(url, k) == k + |t|
  {
    if rest != [] { StandsAt(url, k + |t|, rest, 0); }
    forall i | k <= i < k + |t| ensures url[i] != QUESTION && url[i] != HASH {
      StandsAt(url, k, t, i - k);
      assert t[i - k] in t;
    }
    hide Stands;
  }

  lemma TailPrintable(w: Parts)
    requires ProperTail(w)
    ensures forall b <- Tail(w) :: Printable(b)
  {
    assert Printable(QUESTION) && Printable(HASH);
    hide Printable;
  }

  /** path ? query # fragment comes apart into exactly those. */
  lemma TailComposed(url: seq<byte>, u: Url, w: Parts, k: nat)
    requires ProperTail(w) && u.path == None && u.query == None && u.fragment == None
    requires Stands(url, k, Tail(w)) && k + |Tail(w)| == |url|
    ensures WithPath(url, u, k) == TailFields(u, w, k) && PrintableFrom(url, k)
  {
    PrintableAt(url, w, k);
    var rest := Lead(QUESTION, w.query) + Lead(HASH, w.fragment);
    assert Tail(w) == w.path + rest;
    StandApart(url, k, w.path, rest);
    hide Stands, WithQuery, Tail, PrintableFrom, QueryFields;
    QueryComposed(url, u.(path := Piece(k, w.path)), w, k + |w.path|);
    if w.path == [] {
      assert u == u.(path := Piece(k, w.path));
      NoPath(url, k, rest);
    } else {
      PathEndIs(url, k, w.path, rest);
      StandsAt(url, k, w.path, 0);
    }
    hide PathEnd;
  }

  lemma NoPath(url: seq<byte>, k: nat, rest: seq<byte>)
    requires Stands(url, k, rest) && k + |rest| == |url| && (rest != [] ==> rest[0] == QUESTION || rest[0] == HASH)
    ensures k < |url| ==> url[k] == QUESTION || url[k] == HASH
  {
    if rest != [] { StandsAt(url, k, rest, 0); }
  }

  lemma PrintableAt(url: seq<byte>, w: Parts, k: nat)
    requires ProperTail(w) && Stands(url, k, Tail(w)) && k + |Tail(w)| == |url|
    ensures PrintableFrom(url, k)
  {
    TailPrintable(w);
    hide Tail, Printable, ProperTail;
    forall i | k <= i < |url| ensures Printable(url[i]) {
      StandsAt(url, k, Tail(w), i - k);
      assert Tail(w)[i - k] in Tail(w);
    }
  }

  // ---- an authority written out of its parts ----

  function AuthorityText(w: Parts): seq<byte> { UserinfoText(w) + (HostText(w) + Lead(COLON, w.port)) }

  function HostFieldsOf(u: Authority, w: Parts, k: nat): Authority {
    var b, c := if w.brackets then k + 1 else k, k + |HostText(w)|;
    u.(host := Piece(b, w.host), port := if w.port.Some? then Piece(c + 1, w.port.value) else None)
  }

  function AuthorityFieldsOf(w: Parts, h: nat): Authority {
    HostFieldsOf(NO_AUTHORITY.(userinfo := if w.userinfo.Some? then Piece(h, w.userinfo.value) else None), w, h + |UserinfoText(w)|)
  }

  lemma PortComposed(url: seq<byte>, u: Authority, w: Parts, c: nat, e: nat)
    requires ProperAuthority(w) && u.port == None && Stands(url, c, Lead(COLON, w.port)) && e == c + |Lead(COLON, w.port)|
    ensures WithPort(url, u, c, e) == Some(u.(port := if w.port.Some? then Piece(c + 1, w.port.value) else None))
    ensures c < e ==> url[c] == COLON
  {
    if w.port.Some? {
      var t := w.port.value;
      StandApart(url, c, [COLON], t);
      StandsAt(url, c, [COLON], 0);
      forall i | c + 1 <= i < e ensures IsDigit(url[i]) { StandsAt(url, c + 1, t, i - c - 1); }
      hide Stands, IsDigit;
    }
  }

  lemma NameComposed(url: seq<byte>, u: Authority, w: Parts, k: nat, e: nat)
    requires ProperAuthority(w) && !w.brackets && u.host == None && u.port == None
    requires Stands(url, k, w.host + Lead(COLON, w.port)) && e == k + |w.host + Lead(COLON, w.port)|
    ensures WithHost(url, u, k, e) == Some(HostFieldsOf(u, w, k))
  {
    var c := k + |w.host|;
    StandApart(url, k, w.host, Lead(COLON, w.port));
    forall i | k <= i < c ensures IsHostChar(url[i]) { StandsAt(url, k, w.host, i - k); }
    PortComposed(url, u.(host := Piece(k, w.host)), w, c, e);
    assert IsHostChar(url[k]) && url[k] != OPEN_BRACKET;
    assert forall i :: k <= i < c ==> url[i] != COLON;
    hide Stands, IsHostChar, IsDigit, WithPort;
    assert FirstOf(url, COLON, k, e) == c;
  }

  lemma {:induction false} FirstOfShifts(t: seq<byte>, url: seq<byte>, b: byte, k: nat, i: nat)
    requires Stands(url, k, t) && i <= |t|
    ensures FirstOf(url, b, k + i, k + |t|) == k + FirstOf(t, b, i, |t|)
    decreases |t| - i
  {
    if i < |t| {
      StandsAt(url, k, t, i);
      hide Stands;
      FirstOfShifts(t, url, b, k, i + 1);
    }
  }

  lemma V6Shifts(t: seq<byte>, url: seq<byte>, k: nat)
    requires Stands(url, k, t) && IsV6(t, 0, |t|)
    ensures IsV6(url, k, k + |t|) && forall i :: k <= i < k + |t| ==> url[i] != CLOSE_BRACKET
  {
    FirstOfShifts(t, url, PERCENT, k, 0);
    forall i | k <= i < k + |t| ensures url[i] == t[i - k] { StandsAt(url, k, t, i - k); }
    hide Stands, FirstOf;
    var z := FirstOf(t, PERCENT, 0, |t|);
    forall i | 0 <= i < |t| ensures t[i] != CLOSE_BRACKET {
      assert IsV6Char(t[i]) || t[i] == PERCENT || IsZoneChar(t[i]);
    }
    hide IsV6Char, IsZoneChar;
  }

  lemma BracketsStand(url: seq<byte>, t: seq<byte>, k: nat, rest: seq<byte>)
    requires Stands(url, k, [OPEN_BRACKET] + t + [CLOSE_BRACKET] + rest)
    ensures Stands(url, k + 1, t) && Stands(url, k + 2 + |t|, rest) && k + 2 + |t| + |rest| <= |url|
    ensures url[k] == OPEN_BRACKET && url[k + 1 + |t|] == CLOSE_BRACKET
  {
    var c := k + 1 + |t|;
    assert [OPEN_BRACKET] + t + [CLOSE_BRACKET] + rest == [OPEN_BRACKET] + (t + ([CLOSE_BRACKET] + rest));
    StandApart(url, k, [OPEN_BRACKET], t + ([CLOSE_BRACKET] + rest));
    StandApart(url, k + 1, t, [CLOSE_BRACKET] + rest);
    StandApart(url, c, [CLOSE_BRACKET], rest);
    StandsAt(url, k, [OPEN_BRACKET], 0);
    StandsAt(url, c, [CLOSE_BRACKET], 0);
  }

  lemma BracketsComposed(url: seq<byte>, u: Authority, w: Parts, k: nat, e: nat)
    requires ProperAuthority(w) && w.brackets && u.host == None && u.port == None
    requires Stands(url, k, HostText(w) + Lead(COLON, w.port)) && e == k + |HostText(w) + Lead(COLON, w.port)|
    ensures WithHost(url, u, k, e) == Some(HostFieldsOf(u, w, k))
  {
    var c := k + 1 + |w.host|;
    BracketsStand(url, w.host, k, Lead(COLON, w.port));
    V6Shifts(w.host, url, k + 1);
    PortComposed(url, u.(host := Piece(k + 1, w.host)), w, c + 1, e);
    assert 0 < |w.host|;
    hide Stands, IsV6, WithPort, ProperAuthority, Lead;
    assert FirstOf(url, CLOSE_BRACKET, k + 1, e) == c;
    hide FirstOf;
  }

  lemma HostComposed(url: seq<byte>, u: Authority, w: Parts, k: nat, e: nat)
    requires ProperAuthority(w) && u.host == None && u.port == None
    requires Stands(url, k, HostText(w) + Lead(COLON, w.port)) && e == k + |HostText(w) + Lead(COLON, w.port)|
    ensures WithHost(url, u, k, e) == Some(HostFieldsOf(u, w, k))
  {
    hide WithHost, ProperAuthority;
    if w.brackets { BracketsComposed(url, u, w, k, e); } else { NameComposed(url, u, w, k, e); }
  }

  lemma UserinfoStands(url: seq<byte>, t: seq<byte>, h: nat, e: nat)
    requires Stands(url, h, t + [AT]) && h + |t| < e <= |url| && AllUserinfo(t, 0, |t|)
    ensures FirstOf(url, AT, h, e) == h + |t| && AllUserinfo(url, h, h + |t|)
  {
    StandApart(url, h, t, [AT]);
    StandsAt(url, h + |t|, [AT], 0);
    forall i | h <= i < h + |t| ensures IsUserinfoChar(url[i]) && url[i] != AT {
      StandsAt(url, h, t, i - h);
      UserinfoVisible(url[i]);
    }
    hide Stands, IsUserinfoChar;
  }

  lemma UserinfoApart(url: seq<byte>, w: Parts, h: nat)
    requires ProperAuthority(w) && Stands(url, h, AuthorityText(w)) && w.userinfo.Some?
    ensures var t, rest := w.userinfo.value, HostText(w) + Lead(COLON, w.port);
            && Stands(url, h, t + [AT]) && Stands(url, h + |t| + 1, rest) && |AuthorityText(w)| == |t| + 1 + |rest|
            && AllUserinfo(t, 0, |t|) && h + |AuthorityText(w)| <= |url|
  {
    hide HostText, Lead;
    StandApart(url, h, UserinfoText(w), HostText(w) + Lead(COLON, w.port));
  }

  lemma UserinfoComposed(url: seq<byte>, w: Parts, h: nat, e: nat)
    requires ProperAuthority(w) && Stands(url, h, AuthorityText(w)) && e == h + |AuthorityText(w)| && w.userinfo.Some?
    ensures SplitAuthority(url, h, e, true) == Some(AuthorityFieldsOf(w, h))
  {
    hide Stands, FirstOf, AllUserinfo, HostText, WithHost, Lead, HostFieldsOf, ProperAuthority, AuthorityText;
    var t := w.userinfo.value;
    UserinfoApart(url, w, h);
    UserinfoStands(url, t, h, e);
    HostComposed(url, NO_AUTHORITY.(userinfo := Piece(h, t)), w, h + |t| + 1, e);
  }

  /** userinfo @ host : port comes apart into exactly those. */
  lemma AuthorityComposed(url: seq<byte>, w: Parts, h: nat, e: nat)
    requires ProperAuthority(w) && Stands(url, h, AuthorityText(w)) && e == h + |AuthorityText(w)|
    ensures SplitAuthority(url, h, e, w.userinfo.Some?) == Some(AuthorityFieldsOf(w, h))
  {
    if w.userinfo.Some? {
      hide *;
      UserinfoComposed(url, w, h, e);
    } else {
      StandApart(url, h, [], HostText(w) + Lead(COLON, w.port));
      hide Stands, HostText, WithHost, Lead, HostFieldsOf, ProperAuthority;
      HostComposed(url, NO_AUTHORITY, w, h, e);
    }
  }

  /** What may stand in an authority behind the user info. */
  predicate IsHostText(b: byte) { IsAuthorityChar(b) && b != AT && b != SLASH && b != QUESTION }

  lemma HostTextChars(w: Parts)
    requires ProperAuthority(w)
    ensures forall b <- HostText(w) + Lead(COLON, w.port) :: IsHostText(b)
  {
    var p := if w.port.Some? then w.port.value else [];
    forall b | b in w.host ensures IsHostText(b) {
      var i :| 0 <= i < |w.host| && w.host[i] == b;
      if w.brackets { assert IsV6Char(b) || b == PERCENT || IsZoneChar(b); } else { assert IsHostChar(b); }
    }
    forall b | b in p ensures IsHostText(b) {
      var i :| 0 <= i < |p| && p[i] == b;
      assert IsDigit(b);
    }
    assert IsHostText(COLON) && IsHostText(OPEN_BRACKET) && IsHostText(CLOSE_BRACKET);
    hide IsHostText, ProperAuthority;
  }

  /** The only at sign of an authority is the one behind the user info. */
  lemma AuthorityChars(w: Parts)
    requires ProperAuthority(w)
    ensures var t := AuthorityText(w);
            forall i :: 0 <= i < |t| ==>
              && IsAuthorityChar(t[i]) && t[i] != SLASH && t[i] != QUESTION
              && (t[i] == AT <==> w.userinfo.Some? && i == |w.userinfo.value|)
  {
    HostTextChars(w);
    var t, k, rest := AuthorityText(w), |UserinfoText(w)|, HostText(w) + Lead(COLON, w.port);
    forall i | 0 <= i < |t|
      ensures IsAuthorityChar(t[i]) && t[i] != SLASH && t[i] != QUESTION && (t[i] == AT <==> w.userinfo.Some? && i == |w.userinfo.value|)
    {
      if i < k {
        if i + 1 < k {
          assert IsUserinfoChar(w.userinfo.value[i]);
          UserinfoVisible(t[i]);
        }
      } else {
        assert t[i] == rest[i - k] && rest[i - k] in rest;
      }
      hide HostText, Lead;
    }
  }

  lemma AuthorityStands(url: seq<byte>, w: Parts, a: nat, e: nat)
    requires ProperAuthority(w) && Stands(url, a, AuthorityText(w)) && e == a + |AuthorityText(w)|
    requires e < |url| ==> url[e] == SLASH || url[e] == QUESTION
    ensures a < e && AuthorityEnd(url, a) == e && IsAuthority(url, a, e) && (HasAt(url, a, e) <==> w.userinfo.Some?)
  {
    AuthorityChars(w);
    var t := AuthorityText(w);
    assert 0 < |t|;
    assert w.userinfo.Some? ==> t[|w.userinfo.value|] == AT;
    forall i | a <= i < e ensures url[i] == t[i - a] { StandsAt(url, a, t, i - a); }
    hide Stands, AuthorityText, IsAuthorityChar, ProperAuthority;
    AtIsAt(url, t, w, a, e);
  }

  lemma AtIsAt(url: seq<byte>, t: seq<byte>, w: Parts, a: nat, e: nat)
    requires a <= e <= |url| && e - a == |t| && forall i :: a <= i < e ==> url[i] == t[i - a]
    requires forall i :: 0 <= i < |t| ==> (t[i] == AT <==> w.userinfo.Some? && i == |w.userinfo.value|)
    requires w.userinfo.Some? ==> |w.userinfo.value| < |t|
    ensures HasAt(url, a, e) <==> w.userinfo.Some?
    ensures forall i :: a < i < e ==> !(url[i] == AT && url[i - 1] == AT)
  {
    if w.userinfo.Some? {
      assert url[a + |w.userinfo.value|] == AT;
    }
  }

  // ---- whole URLs ----

  /** An authority ends at a slash or a question mark only. */
  predicate TailFollows(w: Parts) { if w.path == [] then w.query.Some? || w.fragment.None? else w.path[0] == SLASH }

  function UrlText(w: Parts): seq<byte> { w.schema + (COLON_SLASH_SLASH + (AuthorityText(w) + Tail(w))) }

  predicate TooLarge(port: Option<seq<byte>>)
    requires port.Some? ==> AllDigits(port.value, 0, |port.value|)
  {
    port.Some? && DecimalValue(port.value, 0) > 65535
  }

  function FieldsOf(w: Parts, schema: Option<Field>, a: nat): Url {
    var f := AuthorityFieldsOf(w, a);
    TailFields(NO_FIELDS.(schema := schema, userinfo := f.userinfo, host := f.host, port := f.port), w, a + |AuthorityText(w)|)
  }

  lemma FromComposed(url: seq<byte>, w: Parts, a: nat, schema: Option<Field>)
    requires ProperAuthority(w) && ProperTail(w) && TailFollows(w) && |url| < WIDTH
    requires Stands(url, a, AuthorityText(w) + Tail(w)) && a + |AuthorityText(w) + Tail(w)| == |url|
    ensures FromAuthority(url, a, schema) == Some(FieldsOf(w, schema, a))
  {
    hide ProperAuthority, ProperTail, TailFollows, Stands, AuthorityText, Tail, AuthorityEnd, IsAuthority, HasAt, PrintableFrom, WithPath,
         AuthorityFields, SplitAuthority, TailFields, AuthorityFieldsOf;
    var e := a + |AuthorityText(w)|;
    StandApart(url, a, AuthorityText(w), Tail(w));
    StandsWithin(url, a, AuthorityText(w));
    TailBegins(url, w, e);
    AuthorityStands(url, w, a, e);
    AuthorityComposed(url, w, a, e);
    NotCutShort(url, a, e);
    var f := AuthorityFieldsOf(w, a);
    TailComposed(url, NO_FIELDS.(schema := schema, userinfo := f.userinfo, host := f.host, port := f.port), w, e);
  }

  lemma NotCutShort(url: seq<byte>, a: nat, e: nat)
    requires a <= e <= |url| < WIDTH
    ensures AuthorityFields(url, a, e) == SplitAuthority(url, a, e, HasAt(url, a, e))
  {
    hide SplitAuthority, HasAt;
  }

  lemma StandsWithin(url: seq<byte>, k: nat, t: seq<byte>)
    requires Stands(url, k, t)
    ensures k + |t| <= |url|
  {}

  lemma TailBegins(url: seq<byte>, w: Parts, e: nat)
    requires TailFollows(w) && Stands(url, e, Tail(w)) && e + |Tail(w)| == |url|
    ensures e < |url| ==> url[e] == SLASH || url[e] == QUESTION
  {
    if e < |url| { StandsAt(url, e, Tail(w), 0); }
  }

  predicate NamesUser(w: Parts) { w.userinfo.Some? && w.userinfo.value != [] }

  lemma ComposedFields(w: Parts, schema: Option<Field>, a: nat)
    requires ProperAuthority(w)
    ensures var u := FieldsOf(w, schema, a);
            && u.schema == schema && u.host.Some? && u.portNumber == 0 && (u.userinfo.Some? <==> NamesUser(w))
            && u.port == (if w.port.Some? then Some(Field(a + |AuthorityText(w)| - |w.port.value|, |w.port.value|)) else None)
            && (Tail(w) == [] ==> u.path == None && u.query == None && u.fragment == None)
  {}

  lemma PortStands(url: seq<byte>, w: Parts, a: nat)
    requires w.port.Some? && Stands(url, a, AuthorityText(w))
    ensures |w.port.value| <= |AuthorityText(w)| && Stands(url, a + |AuthorityText(w)| - |w.port.value|, w.port.value)
  {
    var before, t := UserinfoText(w) + HostText(w) + [COLON], w.port.value;
    assert AuthorityText(w) == before + t;
    StandApart(url, a, before, t);
  }

  lemma NumberIsRead(url: seq<byte>, w: Parts, a: nat)
    requires ProperAuthority(w) && TailFollows(w) && w.port.Some? && |url| < WIDTH
    requires Stands(url, a, AuthorityText(w) + Tail(w)) && a + |AuthorityText(w) + Tail(w)| == |url|
    ensures |w.port.value| <= |AuthorityText(w)|
    ensures NumberAt(url, a + |AuthorityText(w)| - |w.port.value|) == DecimalValue(w.port.value, 0)
  {
    assert AllDigits(w.port.value, 0, |w.port.value|);
    hide AuthorityText, Tail, TailFollows, ProperAuthority, NumberAt, DecimalValue, Stands;
    StandApart(url, a, AuthorityText(w), Tail(w));
    PortStands(url, w, a);
    TailAfter(url, w, a, a + |AuthorityText(w)|);
    DigitsRead(url, w.port.value, a + |AuthorityText(w)| - |w.port.value|);
  }

  lemma DigitsStand(url: seq<byte>, t: seq<byte>, p: nat)
    requires Stands(url, p, t) && AllDigits(t, 0, |t|)
    ensures p + |t| <= |url| && AllDigits(url, p, p + |t|)
  {
    hide IsDigit;
    forall i | p <= i < p + |t| ensures IsDigit(url[i]) { StandsAt(url, p, t, i - p); }
  }

  lemma NotCutPlace(url: seq<byte>, p: nat)
    requires p <= |url| < WIDTH
    ensures NumberAt(url, p) == StrToUl(url, p, 0)
  {
    hide StrToUl;
  }

  lemma DigitsBetween(url: seq<byte>, t: seq<byte>, p: nat, e: nat)
    requires p <= e <= |url| && AllDigits(url, p, e) && (e < |url| ==> !IsDigit(url[e])) && AllDigits(t, 0, |t|)
    requires Stands(url, p, t) && e == p + |t|
    ensures StrToUl(url, p, 0) == DecimalValue(t, 0)
  {
    hide IsDigit, StrToUl, DecimalValue;
    StrToUlReads(url, p, e, 0);
    assert url[p..e] == t;
  }

  lemma DigitsRead(url: seq<byte>, t: seq<byte>, p: nat)
    requires Stands(url, p, t) && AllDigits(t, 0, |t|) && |url| < WIDTH && (p + |t| < |url| ==> !IsDigit(url[p + |t|]))
    ensures NumberAt(url, p) == DecimalValue(t, 0)
  {
    hide *;
    DigitsStand(url, t, p);
    NotCutPlace(url, p);
    DigitsBetween(url, t, p, p + |t|);
  }

  lemma TailAfter(url: seq<byte>, w: Parts, a: nat, e: nat)
    requires TailFollows(w) && e == a + |AuthorityText(w)|
    requires Stands(url, a, AuthorityText(w) + Tail(w)) && a + |AuthorityText(w) + Tail(w)| == |url|
    ensures e < |url| ==> !IsDigit(url[e])
  {
    hide AuthorityText, Tail, TailFollows, Stands;
    StandApart(url, a, AuthorityText(w), Tail(w));
    TailBegins(url, w, e);
  }

  /** schema :// userinfo @ host : port path ? query # fragment is taken and comes apart into exactly those, unless the port's number does
    * not fit 16 bits. */
  lemma WholeUrl(w: Parts)
    requires 0 < |w.schema| && (forall b <- w.schema :: IsAlpha(b)) && ProperAuthority(w) && ProperTail(w) && TailFollows(w)
    requires |UrlText(w)| < WIDTH
    ensures Parsed(UrlText(w), false)
         == if TooLarge(w.port) then None
            else Some(FieldsOf(w, Piece(0, w.schema), |w.schema| + 3)
                        .(portNumber := if w.port.Some? then DecimalValue(w.port.value, 0) else 0))
  {
    var url, k := UrlText(w), |w.schema|;
    var rest := AuthorityText(w) + Tail(w);
    assert Stands(url, 0, w.schema + (COLON_SLASH_SLASH + rest));
    StandApart(url, 0, w.schema, COLON_SLASH_SLASH + rest);
    StandApart(url, k, COLON_SLASH_SLASH, rest);
    FromComposed(url, w, k + 3, Stretch(0, k));
    SchemaComposed(url, w.schema);
    Numbered(url, w, Stretch(0, k), k + 3, false);
  }

  lemma SchemaComposed(url: seq<byte>, schema: seq<byte>)
    requires 0 < |schema| && (forall b <- schema :: IsAlpha(b)) && Stands(url, 0, schema) && Stands(url, |schema|, COLON_SLASH_SLASH)
    ensures 0 < |url| && LettersEnd(url, 0) == |schema| && SchemaEnds(url, |schema|) && url[0] != SLASH && url[0] != 42
  {
    forall i | 0 <= i < |schema| ensures IsAlpha(url[i]) { StandsAt(url, 0, schema, i); assert schema[i] in schema; }
    StandsAt(url, |schema|, COLON_SLASH_SLASH, 0);
    assert url[0] != SLASH && url[0] != 42;
    hide IsAlpha;
  }

  lemma SplitNumbered(url: seq<byte>, connect: bool, u: Url)
    requires SplitFields(url, connect) == Some(u) && u.portNumber == 0
    ensures connect && (u.userinfo.Some? || u.port.None? || u.path.Some? || u.query.Some? || u.fragment.Some?) ==> Split(url, connect) == None
    ensures !(connect && (u.userinfo.Some? || u.port.None? || u.path.Some? || u.query.Some? || u.fragment.Some?)) ==>
              Split(url, connect)
              == (var v := if u.port.Some? then NumberAt(url, u.port.value.off) else 0;
                  if v > 65535 then None else Some(u.(portNumber := v)))
  {
    hide SplitFields, NumberAt;
  }

  /** A port's number, and whether CONNECT takes what stands around it. */
  lemma NumberedPort(url: seq<byte>, w: Parts, schema: Option<Field>, a: nat, connect: bool)
    requires ProperAuthority(w) && w.port.Some? && |w.port.value| <= |AuthorityText(w)|
    requires SplitFields(url, connect) == Some(FieldsOf(w, schema, a)) && (connect ==> Tail(w) == [])
    ensures var n := NumberAt(url, a + |AuthorityText(w)| - |w.port.value|);
            Parsed(url, connect)
            == (if (connect && NamesUser(w)) || n > 65535 then None else Some(FieldsOf(w, schema, a).(portNumber := n)))
  {
    ParsedIsSplit(url, connect);
    hide *;
    ComposedFields(w, schema, a);
    SplitNumbered(url, connect, FieldsOf(w, schema, a));
  }

  lemma NumberedNone(url: seq<byte>, w: Parts, schema: Option<Field>, a: nat, connect: bool)
    requires ProperAuthority(w) && w.port.None? && SplitFields(url, connect) == Some(FieldsOf(w, schema, a))
    ensures Parsed(url, connect) == if connect then None else Some(FieldsOf(w, schema, a))
  {
    ParsedIsSplit(url, connect);
    hide *;
    ComposedFields(w, schema, a);
    SplitNumbered(url, connect, FieldsOf(w, schema, a));
    var u := FieldsOf(w, schema, a);
    assert u == u.(portNumber := 0);
  }

  /** What the number does to the fields that are found. */
  lemma Numbered(url: seq<byte>, w: Parts, schema: Option<Field>, a: nat, connect: bool)
    requires ProperAuthority(w) && TailFollows(w) && |url| < WIDTH
    requires Stands(url, a, AuthorityText(w) + Tail(w)) && a + |AuthorityText(w) + Tail(w)| == |url|
    requires SplitFields(url, connect) == Some(FieldsOf(w, schema, a))
    requires connect ==> Tail(w) == []
    ensures Parsed(url, connect)
         == if (connect && (NamesUser(w) || w.port.None?)) || TooLarge(w.port) then None
            else Some(FieldsOf(w, schema, a).(portNumber := if w.port.Some? then DecimalValue(w.port.value, 0) else 0))
  {
    hide AuthorityText, Tail, TailFollows, NumberAt, DecimalValue, FieldsOf, Stands, SplitFields, Split, Parsed;
    if w.port.Some? {
      NumberIsRead(url, w, a);
      NumberedPort(url, w, schema, a, connect);
    } else {
      NumberedNone(url, w, schema, a, connect);
      ComposedFields(w, schema, a);
      var u := FieldsOf(w, schema, a);
      assert u == u.(portNumber := 0);
    }
  }

  /** The target of CONNECT is host : port; an at sign before it is taken too, as long as nothing stands before that. */
  lemma ConnectTarget(w: Parts)
    requires ProperAuthority(w) && Tail(w) == [] && |AuthorityText(w)| < WIDTH
    ensures Parsed(AuthorityText(w), true)
         == if NamesUser(w) || w.port.None? || TooLarge(w.port) then None
            else Some(FieldsOf(w, None, 0).(portNumber := DecimalValue(w.port.value, 0)))
  {
    var url := AuthorityText(w);
    assert url + Tail(w) == url && Stands(url, 0, url) && w.path == [] && w.query == None && w.fragment == None;
    hide AuthorityText, Tail, ProperAuthority, Stands, FieldsOf, FromAuthority, Parsed;
    FromComposed(url, w, 0, None);
    Numbered(url, w, None, 0, true);
  }

  /** path ? query # fragment alone is taken when the path begins with a slash or is an asterisk's. */
  lemma PathAlone(w: Parts)
    requires ProperTail(w) && w.path != [] && (w.path[0] == SLASH || w.path[0] == 42)
    ensures Parsed(Tail(w), false) == Some(TailFields(NO_FIELDS, w, 0))
  {
    var url := Tail(w);
    assert url[0] == w.path[0] && Stands(url, 0, url);
    ParsedIsSplit(url, false);
    TailComposed(url, NO_FIELDS, w, 0);
    hide Tail, Stands, Parsed, WithPath, PrintableFrom, ProperTail;
  }
}
