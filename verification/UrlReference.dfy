/** The splitting of a URL without a state machine: each part runs up to the first byte that ends it. The two passes of
  * http_parser_parse_url find exactly this, and refuse exactly what it refuses. */
module UrlReference {
  import opened Bytes
  import opened UrlSplit

  predicate IsOneOf(b: byte, text: string) { b as int as char in text }

  /** The characters of http_parser.c's macros, as they stand in text. */
  lemma CharacterClasses(b: byte)
    ensures IsAlphaNum(b) <==> '0' <= b as int as char <= '9' || 'a' <= b as int as char <= 'z' || 'A' <= b as int as char <= 'Z'
    ensures IsUserinfoChar(b) <==> IsAlphaNum(b) || IsOneOf(b, "-_.!~*'()%;:&=+$,")
    ensures IsHostChar(b) <==> IsAlphaNum(b) || IsOneOf(b, ".-")
    ensures IsZoneChar(b) <==> IsAlphaNum(b) || IsOneOf(b, "%.-_~")
    ensures IsV6Char(b) <==> IsOneOf(b, "0123456789abcdefABCDEF:.")
    ensures [SLASH, QUESTION, HASH, AT, COLON, OPEN_BRACKET, CLOSE_BRACKET, PERCENT]
         == seq(8, i requires 0 <= i < 8 => ("/?#@:[]%"[i] as int) as byte)
  {}

  predicate Printable(b: byte) { 33 <= b <= 126 }

  predicate PrintableFrom(url: seq<byte>, p: nat) { forall i :: p <= i < |url| ==> Printable(url[i]) }

  /** The first place from p on that holds a byte of a kind, or the end. */
  function PathEnd(url: seq<byte>, p: nat): (k: nat)
    requires p <= |url|
    ensures p <= k <= |url| && (k < |url| ==> url[k] == QUESTION || url[k] == HASH)
    ensures forall i :: p <= i < k ==> url[i] != QUESTION && url[i] != HASH
    decreases |url| - p
  {
    if p == |url| || url[p] == QUESTION || url[p] == HASH then p else PathEnd(url, p + 1)
  }

  function QueryEnd(url: seq<byte>, p: nat): (k: nat)
    requires p <= |url|
    ensures p <= k <= |url| && (k < |url| ==> url[k] == HASH)
    ensures forall i :: p <= i < k ==> url[i] != HASH
    decreases |url| - p
  {
    if p == |url| || url[p] == HASH then p else QueryEnd(url, p + 1)
  }

  function HashesEnd(url: seq<byte>, p: nat): (k: nat)
    requires p <= |url|
    ensures p <= k <= |url| && (k < |url| ==> url[k] != HASH)
    ensures forall i :: p <= i < k ==> url[i] == HASH
    decreases |url| - p
  {
    if p == |url| || url[p] != HASH then p else HashesEnd(url, p + 1)
  }

  function AuthorityEnd(url: seq<byte>, p: nat): (k: nat)
    requires p <= |url|
    ensures p <= k <= |url| && (k < |url| ==> url[k] == SLASH || url[k] == QUESTION)
    ensures forall i :: p <= i < k ==> url[i] != SLASH && url[i] != QUESTION
    decreases |url| - p
  {
    if p == |url| || url[p] == SLASH || url[p] == QUESTION then p else AuthorityEnd(url, p + 1)
  }

  function LettersEnd(url: seq<byte>, p: nat): (k: nat)
    requires p <= |url|
    ensures p <= k <= |url| && (k < |url| ==> !IsAlpha(url[k]))
    ensures forall i :: p <= i < k ==> IsAlpha(url[i])
    decreases |url| - p
  {
    if p == |url| || !IsAlpha(url[p]) then p else LettersEnd(url, p + 1)
  }

  /** A stretch that is a field if it is not empty. */
  function Stretch(from: nat, to: nat): Option<Field> { if from < to then Some(Field(from, to - from)) else None }

  /** From a number sign on, more of which are skipped, to the end. */
  function WithFragment(url: seq<byte>, u: Url, k: nat): Url
    requires k <= |url|
  {
    if k < |url| then u.(fragment := Stretch(HashesEnd(url, k + 1), |url|)) else u
  }

  /** From a question mark on, if there is one, to the first number sign. */
  function WithQuery(url: seq<byte>, u: Url, k: nat): Url
    requires k <= |url|
  {
    if k < |url| && url[k] == QUESTION
    then WithFragment(url, u.(query := Stretch(k + 1, QueryEnd(url, k + 1))), QueryEnd(url, k + 1))
    else WithFragment(url, u, k)
  }

  /** A path to the first question mark or number sign, and what follows it. */
  function WithPath(url: seq<byte>, u: Url, k: nat): Url
    requires k <= |url|
  {
    if k < |url| && url[k] != QUESTION && url[k] != HASH
    then WithQuery(url, u.(path := Stretch(k, PathEnd(url, k))), PathEnd(url, k))
    else WithQuery(url, u, k)
  }

  predicate IsAuthorityChar(b: byte) { IsUserinfoChar(b) || b == AT || b == OPEN_BRACKET || b == CLOSE_BRACKET }

  /** No two at signs stand side by side. */
  predicate IsAuthority(url: seq<byte>, from: nat, to: nat)
    requires to <= |url|
  {
    && (forall i :: from <= i < to ==> IsAuthorityChar(url[i]))
    && (forall i :: from < i < to ==> !(url[i] == AT && url[i - 1] == AT))
  }

  // ---- the first pass, from its last states to its first ----

  lemma {:induction false} InFragmentRuns(url: seq<byte>, p: nat, u: Url, off: nat)
    requires off < p <= |url| && u.fragment == Some(Field(off, p - off))
    ensures FirstPass(url, InFragment, p, u, Some(FragmentPart))
         == if PrintableFrom(url, p) then Some(u.(fragment := Some(Field(off, |url| - off)))) else None
    decreases |url| - p
  {
    if p < |url| {
      if Printable(url[p]) {
        InFragmentRuns(url, p + 1, u.(fragment := Some(Field(off, p + 1 - off))), off);
        assert PrintableFrom(url, p) <==> PrintableFrom(url, p + 1);
      }
    } else {
      assert u == u.(fragment := Some(Field(off, |url| - off)));
    }
  }

  lemma {:induction false} FragmentRuns(url: seq<byte>, p: nat, u: Url, last: Option<Part>)
    requires p <= |url| && u.fragment == None && last != Some(FragmentPart)
    ensures FirstPass(url, FragmentStart, p, u, last)
         == if PrintableFrom(url, p) then Some(u.(fragment := Stretch(HashesEnd(url, p), |url|))) else None
    decreases |url| - p
  {
    if p < |url| {
      if url[p] == HASH {
        FragmentRuns(url, p + 1, u, last);
        assert PrintableFrom(url, p) <==> PrintableFrom(url, p + 1);
      } else if Printable(url[p]) {
        InFragmentRuns(url, p + 1, u.(fragment := Some(Field(p, 1))), p);
        assert PrintableFrom(url, p) <==> PrintableFrom(url, p + 1);
      }
    } else {
      assert u == u.(fragment := None);
    }
  }

  lemma QueryStep(url: seq<byte>, p: nat, u: Url, off: nat)
    requires off < p < |url| && u.query == Some(Field(off, p - off)) && url[p] != HASH
    ensures FirstPass(url, InQuery, p, u, Some(QueryPart))
         == if Printable(url[p]) then FirstPass(url, InQuery, p + 1, u.(query := Some(Field(off, p + 1 - off))), Some(QueryPart)) else None
    ensures QueryEnd(url, p) == QueryEnd(url, p + 1)
    ensures PrintableFrom(url, p) <==> Printable(url[p]) && PrintableFrom(url, p + 1)
  {
    var t := UrlChar(InQuery, url[p]);
    assert t == if Printable(url[p]) then InQuery else Dead;
    hide UrlChar, Printable;
  }

  /** A query's end and what follows it. */
  lemma QueryEnds(url: seq<byte>, p: nat, u: Url)
    requires p <= |url| && (p < |url| ==> url[p] == HASH) && u.query.Some? && u.fragment == None
    ensures FirstPass(url, InQuery, p, u, Some(QueryPart)) == if PrintableFrom(url, p) then Some(WithFragment(url, u, p)) else None
  {
    if p < |url| {
      FragmentRuns(url, p + 1, u, Some(QueryPart));
      assert PrintableFrom(url, p) <==> PrintableFrom(url, p + 1);
    }
    hide PrintableFrom, HashesEnd;
  }

  lemma {:induction false} InQueryRuns(url: seq<byte>, p: nat, u: Url, off: nat)
    requires off < p <= |url| && u.query == Some(Field(off, p - off)) && u.fragment == None
    ensures FirstPass(url, InQuery, p, u, Some(QueryPart))
         == if PrintableFrom(url, p)
            then Some(WithFragment(url, u.(query := Some(Field(off, QueryEnd(url, p) - off))), QueryEnd(url, p))) else None
    decreases |url| - p
  {
    hide FirstPass, WithFragment, PrintableFrom, Printable;
    if p == QueryEnd(url, p) {
      assert u == u.(query := Some(Field(off, p - off)));
      QueryEnds(url, p, u);
    } else {
      QueryStep(url, p, u, off);
      if Printable(url[p]) { InQueryRuns(url, p + 1, u.(query := Some(Field(off, p + 1 - off))), off); }
    }
  }

  lemma QueryRuns(url: seq<byte>, p: nat, u: Url, last: Option<Part>)
    requires p <= |url| && u.query == None && u.fragment == None && last != Some(QueryPart) && last != Some(FragmentPart)
    ensures FirstPass(url, QueryStart, p, u, last)
         == if PrintableFrom(url, p) then Some(WithFragment(url, u.(query := Stretch(p, QueryEnd(url, p))), QueryEnd(url, p))) else None
  {
    if p < |url| {
      assert Printable(url[p]) ==> (PrintableFrom(url, p) <==> PrintableFrom(url, p + 1));
      if url[p] == HASH {
        FragmentRuns(url, p + 1, u, last);
        assert u == u.(query := None);
      } else if Printable(url[p]) {
        InQueryRuns(url, p + 1, u.(query := Some(Field(p, 1))), p);
      }
    } else {
      assert u == u.(query := None);
    }
  }

  lemma PathStep(url: seq<byte>, p: nat, u: Url, off: nat)
    requires off < p < |url| && u.path == Some(Field(off, p - off)) && url[p] != QUESTION && url[p] != HASH
    ensures FirstPass(url, InPath, p, u, Some(PathPart))
         == if Printable(url[p]) then FirstPass(url, InPath, p + 1, u.(path := Some(Field(off, p + 1 - off))), Some(PathPart)) else None
    ensures PathEnd(url, p) == PathEnd(url, p + 1)
    ensures PrintableFrom(url, p) <==> Printable(url[p]) && PrintableFrom(url, p + 1)
  {
    var t := UrlChar(InPath, url[p]);
    assert t == if Printable(url[p]) then InPath else Dead;
    hide UrlChar, Printable;
  }

  /** A path's end and what follows it. */
  lemma PathEnds(url: seq<byte>, p: nat, u: Url)
    requires p <= |url| && (p < |url| ==> url[p] == QUESTION || url[p] == HASH)
    requires u.path.Some? && u.query == None && u.fragment == None
    ensures FirstPass(url, InPath, p, u, Some(PathPart)) == if PrintableFrom(url, p) then Some(WithQuery(url, u, p)) else None
  {
    if p < |url| {
      assert PrintableFrom(url, p) <==> PrintableFrom(url, p + 1);
      if url[p] == HASH {
        FragmentRuns(url, p + 1, u, Some(PathPart));
      } else {
        QueryRuns(url, p + 1, u, Some(PathPart));
      }
    }
    hide PrintableFrom, QueryEnd, HashesEnd;
  }

  lemma {:induction false} InPathRuns(url: seq<byte>, p: nat, u: Url, off: nat)
    requires off < p <= |url| && u.path == Some(Field(off, p - off)) && u.query == None && u.fragment == None
    ensures FirstPass(url, InPath, p, u, Some(PathPart))
         == if PrintableFrom(url, p)
            then Some(WithQuery(url, u.(path := Some(Field(off, PathEnd(url, p) - off))), PathEnd(url, p))) else None
    decreases |url| - p
  {
    hide FirstPass, WithQuery, PrintableFrom, Printable;
    if p == PathEnd(url, p) {
      assert u == u.(path := Some(Field(off, p - off)));
      PathEnds(url, p, u);
    } else {
      PathStep(url, p, u, off);
      hide PathEnd;
      if Printable(url[p]) { InPathRuns(url, p + 1, u.(path := Some(Field(off, p + 1 - off))), off); }
    }
  }

  /** What is left of an authority, from p to its end. */
  predicate IsAuthorityRest(url: seq<byte>, p: nat, to: nat)
    requires 0 < p && to <= |url|
  {
    forall i :: p <= i < to ==> IsAuthorityChar(url[i]) && !(url[i] == AT && url[i - 1] == AT)
  }

  function ServerState(url: seq<byte>, p: nat): State
    requires 0 < p <= |url|
  {
    if url[p - 1] == AT then InServerWithAt else InServer
  }

  /** One more character of an authority. */
  lemma ServerStep(url: seq<byte>, p: nat, u: Url, off: nat)
    requires off < p < |url| && p < AuthorityEnd(url, p) && u.host == Some(Field(off, p - off))
    ensures AuthorityEnd(url, p + 1) == AuthorityEnd(url, p)
    ensures FirstPass(url, ServerState(url, p), p, u, Some(HostPart))
         == (if IsAuthorityChar(url[p]) && !(url[p] == AT && url[p - 1] == AT)
             then FirstPass(url, ServerState(url, p + 1), p + 1, u.(host := Some(Field(off, p + 1 - off))), Some(HostPart)) else None)
  {
    UserinfoVisible(url[p]);
    var t := UrlChar(ServerState(url, p), url[p]);
    assert if IsAuthorityChar(url[p]) && !(url[p] == AT && url[p - 1] == AT) then t == ServerState(url, p + 1) else t == Dead by {
      hide IsUserinfoChar, FirstPass, AuthorityEnd;
    }
    hide IsUserinfoChar, UrlChar, IsAuthorityChar;
    if !t.Dead? {
      assert UrlFields(u, t, Some(HostPart), p) == u.(host := Some(Field(off, p + 1 - off)));
    }
  }

  /** What is left of an authority from p on, and what follows it. */
  function ServerRest(url: seq<byte>, p: nat, u: Url, off: nat): Option<Url>
    requires off < p <= |url|
  {
    var e := AuthorityEnd(url, p);
    if IsAuthorityRest(url, p, e) && PrintableFrom(url, e) then Some(WithPath(url, u.(host := Some(Field(off, e - off))), e)) else None
  }

  lemma ServerRestStep(url: seq<byte>, p: nat, u: Url, off: nat)
    requires off < p < |url| && p < AuthorityEnd(url, p)
    ensures ServerRest(url, p, u, off)
         == if IsAuthorityChar(url[p]) && !(url[p] == AT && url[p - 1] == AT)
            then ServerRest(url, p + 1, u.(host := Some(Field(off, p + 1 - off))), off) else None
  {
    hide PrintableFrom, WithPath, IsAuthorityChar, IsAuthorityRest;
    RestStep(url, p, AuthorityEnd(url, p));
  }

  lemma {:induction false} ServerRuns(url: seq<byte>, p: nat, u: Url, off: nat)
    requires off < p <= |url| && u.host == Some(Field(off, p - off)) && u.path == None && u.query == None && u.fragment == None
    ensures FirstPass(url, ServerState(url, p), p, u, Some(HostPart)) == ServerRest(url, p, u, off)
    decreases |url| - p
  {
    hide FirstPass, ServerState, PrintableFrom, WithPath, IsAuthorityChar;
    if p == AuthorityEnd(url, p) {
      assert u == u.(host := Some(Field(off, p - off)));
      ServerEnds(url, p, u);
    } else {
      hide ServerRest;
      ServerStep(url, p, u, off);
      ServerRestStep(url, p, u, off);
      if IsAuthorityChar(url[p]) && !(url[p] == AT && url[p - 1] == AT) {
        ServerRuns(url, p + 1, u.(host := Some(Field(off, p + 1 - off))), off);
      }
    }
  }

  lemma RestStep(url: seq<byte>, p: nat, e: nat)
    requires 0 < p < e <= |url|
    ensures IsAuthorityRest(url, p, e)
       <==> IsAuthorityChar(url[p]) && !(url[p] == AT && url[p - 1] == AT) && IsAuthorityRest(url, p + 1, e)
  {
    hide IsAuthorityChar;
  }

  lemma ServerEnds(url: seq<byte>, p: nat, u: Url)
    requires 0 < p <= |url| && (p < |url| ==> url[p] == SLASH || url[p] == QUESTION)
    requires u.path == None && u.query == None && u.fragment == None
    ensures FirstPass(url, ServerState(url, p), p, u, Some(HostPart))
         == if PrintableFrom(url, p) then Some(WithPath(url, u, p)) else None
  {
    if p < |url| {
      assert PrintableFrom(url, p) <==> PrintableFrom(url, p + 1);
      if url[p] == SLASH {
        InPathRuns(url, p + 1, u.(path := Some(Field(p, 1))), p);
      } else {
        QueryRuns(url, p + 1, u, Some(HostPart));
      }
    }
  }

  /** Whether there is an at sign in a stretch. */
  predicate HasAt(url: seq<byte>, from: nat, to: nat)
    requires to <= |url|
  {
    exists i :: from <= i < to && url[i] == AT
  }

  lemma {:induction false} NoAtLater(url: seq<byte>, s: State, p: nat)
    requires s.InPath? || s.QueryStart? || s.InQuery? || s.FragmentStart? || s.InFragment? || s.Dead?
    ensures !SeesAt(url, s, p)
    decreases |url| - p
  {
    hide IsUrlChar;
    if p < |url| { NoAtLater(url, UrlChar(s, url[p]), p + 1); }
  }

  lemma {:induction false} SeesAtIs(url: seq<byte>, p: nat, s: State)
    requires 0 < p <= |url|
    requires s == ServerState(url, p)
    requires IsAuthorityRest(url, p, AuthorityEnd(url, p))
    ensures SeesAt(url, s, p) <==> HasAt(url, p, AuthorityEnd(url, p))
    decreases |url| - p
  {
    var e := AuthorityEnd(url, p);
    if p < e {
      var t := UrlChar(s, url[p]);
      assert IsAuthorityChar(url[p]);
      hide IsUserinfoChar;
      SeesAtIs(url, p + 1, t);
      assert HasAt(url, p, e) <==> url[p] == AT || HasAt(url, p + 1, e);
    } else if p < |url| {
      NoAtLater(url, UrlChar(s, url[p]), p + 1);
    }
  }

  /** An authority that begins at p. */
  lemma AuthorityRuns(url: seq<byte>, p: nat, u: Url)
    requires p <= |url| && p < AuthorityEnd(url, p) && u.host == None && u.path == None && u.query == None && u.fragment == None
    ensures FirstPass(url, ServerStart, p, u, if u.schema.Some? then Some(SchemaPart) else None)
         == (if IsAuthority(url, p, AuthorityEnd(url, p)) && PrintableFrom(url, AuthorityEnd(url, p))
             then Some(WithPath(url, u.(host := Some(Field(p, AuthorityEnd(url, p) - p))), AuthorityEnd(url, p))) else None)
    ensures IsAuthority(url, p, AuthorityEnd(url, p)) ==> (SeesAt(url, ServerStart, p) <==> HasAt(url, p, AuthorityEnd(url, p)))
  {
    var e := AuthorityEnd(url, p);
    FirstOfAuthority(url, p, u);
    hide FirstPass, SeesAt, PrintableFrom, WithPath, IsAuthorityChar, UrlChar, AuthorityEnd, HasAt, IsAuthority, IsAuthorityRest;
    if IsAuthorityChar(url[p]) {
      ServerRuns(url, p + 1, u.(host := Some(Field(p, 1))), p);
      RestIsRest(url, p, e);
      if IsAuthority(url, p, e) {
        SeesAtIs(url, p + 1, ServerState(url, p + 1));
        HasAtStep(url, p, e);
      }
    } else {
      NotAuthority(url, p, e);
    }
  }

  lemma HasAtStep(url: seq<byte>, p: nat, e: nat)
    requires p < e <= |url|
    ensures HasAt(url, p, e) <==> url[p] == AT || HasAt(url, p + 1, e)
  {}

  lemma NotAuthority(url: seq<byte>, p: nat, e: nat)
    requires p < e <= |url| && !IsAuthorityChar(url[p])
    ensures !IsAuthority(url, p, e)
  {}

  /** Nor is anything taken that has a schema and no authority, nor is there a host without one. */
  lemma NoAuthorityRuns(url: seq<byte>, p: nat, u: Url)
    requires p <= |url| && p == AuthorityEnd(url, p) && u.host == None && u.path == None && u.query == None && u.fragment == None
    ensures var r := FirstPass(url, ServerStart, p, u, if u.schema.Some? then Some(SchemaPart) else None);
            r.Some? ==> r.value.host == None && r.value.schema == u.schema
  {
    if p < |url| {
      if url[p] == SLASH {
        InPathRuns(url, p + 1, u.(path := Some(Field(p, 1))), p);
      } else {
        QueryRuns(url, p + 1, u, if u.schema.Some? then Some(SchemaPart) else None);
      }
    }
  }

  lemma RestIsRest(url: seq<byte>, p: nat, e: nat)
    requires p < e <= |url| && IsAuthorityChar(url[p])
    ensures IsAuthority(url, p, e) <==> IsAuthorityRest(url, p + 1, e)
  {
    hide IsAuthorityChar;
  }

  lemma FirstOfAuthority(url: seq<byte>, p: nat, u: Url)
    requires p < |url| && p < AuthorityEnd(url, p) && u.host == None
    ensures var t, last := ServerState(url, p + 1), if u.schema.Some? then Some(SchemaPart) else None;
            && AuthorityEnd(url, p + 1) == AuthorityEnd(url, p)
            && FirstPass(url, ServerStart, p, u, last)
               == (if IsAuthorityChar(url[p]) then FirstPass(url, t, p + 1, u.(host := Some(Field(p, 1))), Some(HostPart)) else None)
            && (IsAuthorityChar(url[p]) ==> (SeesAt(url, ServerStart, p) <==> url[p] == AT || SeesAt(url, t, p + 1)))
  {
    hide IsUserinfoChar;
    assert IsUserinfoChar(url[p]) ==> url[p] != AT && url[p] > 32 by { UserinfoVisible(url[p]); }
  }

  lemma UserinfoVisible(b: byte)
    ensures IsUserinfoChar(b) ==> b != AT && b > 32
  {}

  // ---- the second pass, from its last states to its first ----

  /** The first place of a byte between two places, or the later of them. */
  function FirstOf(url: seq<byte>, b: byte, p: nat, e: nat): (k: nat)
    requires p <= e <= |url|
    ensures p <= k <= e && (k < e ==> url[k] == b) && forall i :: p <= i < k ==> url[i] != b
    decreases e - p
  {
    if p == e || url[p] == b then p else FirstOf(url, b, p + 1, e)
  }

  predicate AllUserinfo(url: seq<byte>, p: nat, e: nat)
    requires e <= |url|
  {
    forall i :: p <= i < e ==> IsUserinfoChar(url[i])
  }

  predicate AllHost(url: seq<byte>, p: nat, e: nat)
    requires e <= |url|
  {
    forall i :: p <= i < e ==> IsHostChar(url[i])
  }

  predicate IsV6Char(b: byte) { IsHexDigit(b) || b == COLON || b == 46 }

  predicate AllV6(url: seq<byte>, p: nat, e: nat)
    requires e <= |url|
  {
    forall i :: p <= i < e ==> IsV6Char(url[i])
  }

  predicate AllZone(url: seq<byte>, p: nat, e: nat)
    requires e <= |url|
  {
    forall i :: p <= i < e ==> IsZoneChar(url[i])
  }

  predicate AllDigits(url: seq<byte>, p: nat, e: nat)
    requires e <= |url|
  {
    forall i :: p <= i < e ==> IsDigit(url[i])
  }

  /** What stands between brackets: an address, and a zone behind a percent sign if there is one. */
  predicate IsV6(url: seq<byte>, p: nat, e: nat)
    requires p <= e <= |url|
  {
    var z := FirstOf(url, PERCENT, p, e);
    p < z && AllV6(url, p, z) && (z < e ==> z + 1 < e && AllZone(url, z + 1, e))
  }

  /** Behind a host: nothing, or a colon and digits. */
  function WithPort(url: seq<byte>, u: Authority, c: nat, e: nat): Option<Authority>
    requires c <= e <= |url|
  {
    if c == e then Some(u)
    else if url[c] == COLON && c + 1 < e && AllDigits(url, c + 1, e) then Some(u.(port := Stretch(c + 1, e)))
    else None
  }

  /** A host in brackets up to the first closing one, or a name up to the first colon. */
  function WithHost(url: seq<byte>, u: Authority, k: nat, e: nat): Option<Authority>
    requires k <= e <= |url|
  {
    if k < e && url[k] == OPEN_BRACKET then
      var c := FirstOf(url, CLOSE_BRACKET, k + 1, e);
      if c < e && IsV6(url, k + 1, c) then WithPort(url, u.(host := Stretch(k + 1, c)), c + 1, e) else None
    else
      var c := FirstOf(url, COLON, k, e);
      if k < c && AllHost(url, k, c) then WithPort(url, u.(host := Stretch(k, c)), c, e) else None
  }

  /** The user info goes up to the first at sign, if there is one at all. */
  function SplitAuthority(url: seq<byte>, h: nat, e: nat, at: bool): Option<Authority>
    requires h <= e <= |url|
  {
    if at then
      var k := FirstOf(url, AT, h, e);
      if k < e && AllUserinfo(url, h, k) then WithHost(url, NO_AUTHORITY.(userinfo := Stretch(h, k)), k + 1, e) else None
    else WithHost(url, NO_AUTHORITY, h, e)
  }

  lemma {:induction false} InPortRuns(url: seq<byte>, p: nat, e: nat, u: Authority, off: nat)
    requires off < p <= e <= |url| && u.port == Some(Field(off, p - off))
    ensures SecondPass(url, InPort, p, e, u)
         == if AllDigits(url, p, e) then Some(u.(port := Some(Field(off, e - off)))) else None
    decreases e - p
  {
    if p < e {
      hide IsDigit;
      if IsDigit(url[p]) {
        InPortRuns(url, p + 1, e, u.(port := Some(Field(off, p + 1 - off))), off);
      }
      assert AllDigits(url, p, e) <==> IsDigit(url[p]) && AllDigits(url, p + 1, e);
    } else {
      assert u == u.(port := Some(Field(off, p - off)));
    }
  }

  /** Behind a host. */
  lemma PortRuns(url: seq<byte>, c: nat, e: nat, u: Authority)
    requires c <= e <= |url| && u.port == None
    ensures SecondPass(url, V6End, c, e, u) == WithPort(url, u, c, e)
    ensures c == e || url[c] == COLON ==> SecondPass(url, InHost, c, e, u) == WithPort(url, u, c, e)
  {
    if c < e && url[c] == COLON {
      assert SecondPass(url, PortStart, c + 1, e, u) == WithPort(url, u, c, e) by {
        if c + 1 < e {
          hide IsDigit;
          if IsDigit(url[c + 1]) {
            InPortRuns(url, c + 2, e, u.(port := Some(Field(c + 1, 1))), c + 1);
          }
          assert AllDigits(url, c + 1, e) <==> IsDigit(url[c + 1]) && AllDigits(url, c + 2, e);
        }
      }
    }
  }

  lemma {:induction false} InHostRuns(url: seq<byte>, p: nat, e: nat, u: Authority, off: nat)
    requires off < p <= e <= |url| && u.host == Some(Field(off, p - off)) && u.port == None
    ensures SecondPass(url, InHost, p, e, u)
         == (if AllHost(url, p, FirstOf(url, COLON, p, e))
             then WithPort(url, u.(host := Some(Field(off, FirstOf(url, COLON, p, e) - off))), FirstOf(url, COLON, p, e), e) else None)
    decreases e - p
  {
    var c := FirstOf(url, COLON, p, e);
    if p == c {
      hide SecondPass;
      assert u == u.(host := Some(Field(off, p - off)));
      PortRuns(url, p, e, u);
    } else {
      hide IsHostChar, WithPort;
      if IsHostChar(url[p]) {
        InHostRuns(url, p + 1, e, u.(host := Some(Field(off, p + 1 - off))), off);
      }
      assert AllHost(url, p, c) <==> IsHostChar(url[p]) && AllHost(url, p + 1, c);
    }
  }

  /** What is left of a zone. */
  lemma {:induction false} InZoneRuns(url: seq<byte>, p: nat, e: nat, u: Authority, off: nat)
    requires off < p <= e <= |url| && u.host == Some(Field(off, p - off)) && u.port == None
    ensures var c := FirstOf(url, CLOSE_BRACKET, p, e);
            (SecondPass(url, InV6Zone, p, e, u)
             == (if c < e && AllZone(url, p, c) then WithPort(url, u.(host := Some(Field(off, c - off))), c + 1, e) else None))
    decreases e - p
  {
    var c := FirstOf(url, CLOSE_BRACKET, p, e);
    if p == c {
      assert u == u.(host := Some(Field(off, p - off)));
      if p < e { PortRuns(url, p + 1, e, u); }
    } else {
      hide IsZoneChar, WithPort;
      if IsZoneChar(url[p]) {
        InZoneRuns(url, p + 1, e, u.(host := Some(Field(off, p + 1 - off))), off);
      }
      assert AllZone(url, p, c) <==> IsZoneChar(url[p]) && AllZone(url, p + 1, c);
    }
  }

  /** What is left of an address in brackets. */
  predicate IsV6Rest(url: seq<byte>, p: nat, e: nat)
    requires p <= e <= |url|
  {
    var z := FirstOf(url, PERCENT, p, e);
    AllV6(url, p, z) && (z < e ==> z + 1 < e && AllZone(url, z + 1, e))
  }

  lemma V6RestStep(url: seq<byte>, p: nat, e: nat)
    requires p < e <= |url| && url[p] != PERCENT
    ensures IsV6Rest(url, p, e) <==> IsV6Char(url[p]) && IsV6Rest(url, p + 1, e)
  {
    hide IsV6Char, IsZoneChar;
  }

  /** A percent sign and the zone behind it. */
  lemma ZoneRuns(url: seq<byte>, p: nat, e: nat, u: Authority, off: nat)
    requires off < p < e <= |url| && u.host == Some(Field(off, p - off)) && u.port == None && url[p] == PERCENT
    ensures var c := FirstOf(url, CLOSE_BRACKET, p, e);
            (SecondPass(url, InV6, p, e, u)
             == (if c < e && IsV6Rest(url, p, c) then WithPort(url, u.(host := Some(Field(off, c - off))), c + 1, e) else None))
  {
    var c := FirstOf(url, CLOSE_BRACKET, p, e);
    hide IsZoneChar, WithPort;
    if p + 1 < e {
      if IsZoneChar(url[p + 1]) {
        InZoneRuns(url, p + 2, e, u.(host := Some(Field(off, p + 2 - off))), off);
      }
    }
  }

  lemma {:induction false} InV6Runs(url: seq<byte>, p: nat, e: nat, u: Authority, off: nat)
    requires off < p <= e <= |url| && u.host == Some(Field(off, p - off)) && u.port == None
    ensures var c := FirstOf(url, CLOSE_BRACKET, p, e);
            (SecondPass(url, InV6, p, e, u)
             == (if c < e && IsV6Rest(url, p, c) then WithPort(url, u.(host := Some(Field(off, c - off))), c + 1, e) else None))
    decreases e - p
  {
    var c := FirstOf(url, CLOSE_BRACKET, p, e);
    if p == c {
      assert u == u.(host := Some(Field(off, p - off)));
      if p < e { PortRuns(url, p + 1, e, u); }
    } else if url[p] == PERCENT {
      ZoneRuns(url, p, e, u, off);
    } else {
      hide IsHexDigit, WithPort, IsV6Rest;
      if IsV6Char(url[p]) {
        InV6Runs(url, p + 1, e, u.(host := Some(Field(off, p + 1 - off))), off);
      }
      V6RestStep(url, p, c);
    }
  }

  lemma V6Starts(url: seq<byte>, p: nat, e: nat)
    requires p < e <= |url|
    ensures IsV6(url, p, e) <==> url[p] != PERCENT && IsV6Char(url[p]) && IsV6Rest(url, p + 1, e)
  {
    hide IsV6Char, IsZoneChar;
  }

  /** From the first byte in brackets on. */
  lemma V6Runs(url: seq<byte>, p: nat, e: nat, u: Authority)
    requires p <= e <= |url| && u.host == None && u.port == None
    ensures var c := FirstOf(url, CLOSE_BRACKET, p, e);
            (SecondPass(url, V6Start, p, e, u)
             == (if c < e && IsV6(url, p, c) then WithPort(url, u.(host := Stretch(p, c)), c + 1, e) else None))
  {
    var c := FirstOf(url, CLOSE_BRACKET, p, e);
    if p < c {
      V6Starts(url, p, c);
      hide IsHexDigit, WithPort, IsV6Rest, IsV6;
      assert IsV6Char(PERCENT) == false;
      if IsV6Char(url[p]) {
        InV6Runs(url, p + 1, e, u.(host := Some(Field(p, 1))), p);
      }
    }
  }

  /** From where a host begins. */
  lemma HostRuns(url: seq<byte>, k: nat, e: nat, u: Authority)
    requires k <= e <= |url| && u.host == None && u.port == None
    ensures SecondPass(url, HostStart, k, e, u) == WithHost(url, u, k, e)
  {
    if k < e && url[k] == OPEN_BRACKET {
      V6Runs(url, k + 1, e, u);
    } else if k < e {
      var c := FirstOf(url, COLON, k, e);
      assert k < c && AllHost(url, k, c) <==> IsHostChar(url[k]) && AllHost(url, k + 1, c) by {
        assert !IsHostChar(COLON);
        hide IsHostChar;
      }
      hide WithPort, AllHost;
      assert !IsHostChar(OPEN_BRACKET);
      hide IsHostChar;
      if IsHostChar(url[k]) {
        InHostRuns(url, k + 1, e, u.(host := Some(Field(k, 1))), k);
      }
    }
  }

  lemma UserinfoStep(url: seq<byte>, p: nat, e: nat, u: Authority, off: nat)
    requires off < p <= e <= |url| && u.userinfo == Some(Field(off, p - off))
    ensures SecondPass(url, InUserinfo, p, e, u)
         == (if p == e then None
             else if url[p] == AT then SecondPass(url, HostStart, p + 1, e, u)
             else if IsUserinfoChar(url[p]) then SecondPass(url, InUserinfo, p + 1, e, u.(userinfo := Some(Field(off, p + 1 - off))))
             else None)
  {
    hide IsUserinfoChar;
  }

  /** What is left of a user info, and the host behind it. */
  function WithUserinfo(url: seq<byte>, u: Authority, off: nat, p: nat, e: nat): Option<Authority>
    requires off < p <= e <= |url|
  {
    var k := FirstOf(url, AT, p, e);
    if k < e && AllUserinfo(url, p, k) then WithHost(url, u.(userinfo := Some(Field(off, k - off))), k + 1, e) else None
  }

  lemma WithUserinfoStep(url: seq<byte>, u: Authority, off: nat, p: nat, e: nat)
    requires off < p < e <= |url| && url[p] != AT
    ensures WithUserinfo(url, u, off, p, e)
         == if IsUserinfoChar(url[p]) then WithUserinfo(url, u.(userinfo := Some(Field(off, p + 1 - off))), off, p + 1, e) else None
  {
    hide IsUserinfoChar, WithHost;
    var k := FirstOf(url, AT, p, e);
    assert AllUserinfo(url, p, k) <==> IsUserinfoChar(url[p]) && AllUserinfo(url, p + 1, k);
  }

  lemma WithUserinfoEnds(url: seq<byte>, u: Authority, off: nat, p: nat, e: nat)
    requires off < p <= e <= |url| && (p < e ==> url[p] == AT)
    ensures WithUserinfo(url, u, off, p, e) == if p < e then WithHost(url, u.(userinfo := Some(Field(off, p - off))), p + 1, e) else None
  {
    hide WithHost;
  }

  lemma {:induction false} InUserinfoRuns(url: seq<byte>, p: nat, e: nat, u: Authority, off: nat)
    requires off < p <= e <= |url| && u.userinfo == Some(Field(off, p - off)) && u.host == None && u.port == None
    ensures SecondPass(url, InUserinfo, p, e, u) == WithUserinfo(url, u, off, p, e)
    decreases e - p
  {
    hide *;
    UserinfoStep(url, p, e, u, off);
    if p == e {
      WithUserinfoEnds(url, u, off, p, e);
    } else if url[p] != AT {
      WithUserinfoStep(url, u, off, p, e);
      if IsUserinfoChar(url[p]) {
        InUserinfoRuns(url, p + 1, e, u.(userinfo := Some(Field(off, p + 1 - off))), off);
      }
    } else {
      WithUserinfoEnds(url, u, off, p, e);
      assert u == u.(userinfo := Some(Field(off, p - off)));
      HostRuns(url, p + 1, e, u);
    }
  }

  /** The second pass finds what splitting an authority finds. */
  lemma SecondPassIsSplit(url: seq<byte>, h: nat, e: nat, at: bool)
    requires h <= e <= |url|
    ensures SecondPass(url, if at then UserinfoStart else HostStart, h, e, NO_AUTHORITY) == SplitAuthority(url, h, e, at)
  {
    hide IsUserinfoChar, WithHost;
    if !at {
      HostRuns(url, h, e, NO_AUTHORITY);
    } else if h < e {
      var k := FirstOf(url, AT, h, e);
      if h == k {
        HostRuns(url, h + 1, e, NO_AUTHORITY);
      } else {
        if IsUserinfoChar(url[h]) {
          InUserinfoRuns(url, h + 1, e, NO_AUTHORITY.(userinfo := Some(Field(h, 1))), h);
        }
        assert AllUserinfo(url, h, k) <==> IsUserinfoChar(url[h]) && AllUserinfo(url, h + 1, k);
      }
    }
  }

  // ---- the whole URL ----

  const COLON_SLASH_SLASH: seq<byte> := [COLON, SLASH, SLASH]

  predicate SchemaEnds(url: seq<byte>, k: nat) { k + 3 <= |url| && url[k..k + 3] == COLON_SLASH_SLASH }

  /** An authority is taken apart where 16 bits say that it stands. */
  function AuthorityFields(url: seq<byte>, a: nat, e: nat): Option<Authority>
    requires a <= e <= |url|
  {
    assert a % WIDTH <= a && (e - a) % WIDTH <= e - a;
    SplitAuthority(url, a % WIDTH, a % WIDTH + (e - a) % WIDTH, HasAt(url, a, e))
  }

  /** An authority from a on and what follows it. */
  function FromAuthority(url: seq<byte>, a: nat, schema: Option<Field>): Option<Url>
    requires a <= |url|
  {
    var e := AuthorityEnd(url, a);
    if a == e || !IsAuthority(url, a, e) || !PrintableFrom(url, e) then None
    else
      var found := AuthorityFields(url, a, e);
      if found.None? then None
      else
        var f := found.value;
        Some(WithPath(url, NO_FIELDS.(schema := schema, userinfo := f.userinfo, host := f.host, port := f.port), e))
  }

  /** Without the port's number: a path, letters and "://" before an authority, or an authority alone. */
  function SplitFields(url: seq<byte>, connect: bool): Option<Url> {
    var k := LettersEnd(url, 0);
    if connect then FromAuthority(url, 0, None)
    else if url == [] then Some(NO_FIELDS)
    else if url[0] == SLASH || url[0] == 42 then (if PrintableFrom(url, 0) then Some(WithPath(url, NO_FIELDS, 0)) else None)
    else if 0 < k && SchemaEnds(url, k) then FromAuthority(url, k + 3, Stretch(0, k))
    else None
  }

  /** The number at a place, which is stored in 16 bits. */
  function NumberAt(url: seq<byte>, off: nat): nat { StrToUl(url, off % WIDTH, 0) }

  /** The target of CONNECT is a host and a port and nothing else, and a port's number has 16 bits. */
  function Split(url: seq<byte>, connect: bool): Option<Url> {
    var r := SplitFields(url, connect);
    if r.None? then None
    else
      var u := r.value;
      if connect && (u.userinfo.Some? || u.port.None? || u.path.Some? || u.query.Some? || u.fragment.Some?) then None
      else if u.port.None? then r
      else
        var v := NumberAt(url, u.port.value.off);
        if v <= 65535 then Some(u.(portNumber := v)) else None
  }

  lemma WithPathKeeps(url: seq<byte>, u: Url, k: nat, a: Authority)
    requires k <= |url|
    ensures var v := WithPath(url, u, k);
            && v.schema == u.schema && v.host == u.host && v.userinfo == u.userinfo && v.port == u.port && v.portNumber == u.portNumber
            && v.(userinfo := a.userinfo, host := a.host, port := a.port)
               == WithPath(url, u.(userinfo := a.userinfo, host := a.host, port := a.port), k)
  {
    hide PathEnd, QueryEnd, HashesEnd;
  }

  /** The passes from an authority on. */
  lemma AuthorityParsed(url: seq<byte>, a: nat, schema: Option<Field>)
    requires a <= |url| && a < AuthorityEnd(url, a)
    ensures var first := FirstPass(url, ServerStart, a, NO_FIELDS.(schema := schema), if schema.Some? then Some(SchemaPart) else None);
            && (first.Some? ==> first.value.host.Some?)
            && FromAuthority(url, a, schema)
               == (if first.None? then None else WithAuthority(url, first.value, SeesAt(url, ServerStart, a)))
  {
    var u, e := NO_FIELDS.(schema := schema), AuthorityEnd(url, a);
    var first := FirstPass(url, ServerStart, a, u, if schema.Some? then Some(SchemaPart) else None);
    var taken := IsAuthority(url, a, e) && PrintableFrom(url, e);
    assert first == (if taken then Some(WithPath(url, NO_FIELDS.(schema := schema, host := Some(Field(a, e - a))), e)) else None)
           && (taken ==> SeesAt(url, ServerStart, a) == HasAt(url, a, e)) by {
      hide FirstPass, SeesAt, HasAt, IsAuthority, PrintableFrom, WithPath;
      AuthorityRuns(url, a, u);
    }
    hide FirstPass, SeesAt, HasAt, IsAuthority, PrintableFrom, AuthorityEnd, WithAuthority, WithPath, AuthorityFields;
    if taken { FoundParsed(url, a, e, schema); }
  }

  lemma FoundParsed(url: seq<byte>, a: nat, e: nat, schema: Option<Field>)
    requires a < e <= |url|
    ensures var first := WithPath(url, NO_FIELDS.(schema := schema, host := Some(Field(a, e - a))), e);
            var found := AuthorityFields(url, a, e);
            && first.host.Some?
            && WithAuthority(url, first, HasAt(url, a, e))
               == (if found.None? then None
                   else Some(WithPath(url, NO_FIELDS.(schema := schema, userinfo := found.value.userinfo, host := found.value.host,
                                                      port := found.value.port), e)))
  {
    hide SecondPass, SplitAuthority, WithPath, HasAt;
    assert a % WIDTH <= a && (e - a) % WIDTH <= e - a;
    var at := HasAt(url, a, e);
    SecondPassIsSplit(url, a % WIDTH, a % WIDTH + (e - a) % WIDTH, at);
    var found := AuthorityFields(url, a, e);
    WithPathKeeps(url, NO_FIELDS.(schema := schema, host := Some(Field(a, e - a))), e, if found.Some? then found.value else NO_AUTHORITY);
  }

  lemma SlashesRun(url: seq<byte>, p: nat, u: Url)
    requires p <= |url| && u.host == None && (p < |url| ==> !IsAlpha(url[p]))
    ensures var r := FirstPass(url, InSchema, p, u, Some(SchemaPart));
            if SchemaEnds(url, p) then
              && r == FirstPass(url, ServerStart, p + 3, u, Some(SchemaPart))
              && SeesAt(url, InSchema, p) == SeesAt(url, ServerStart, p + 3)
            else r.Some? ==> r.value.host == None && r.value.schema == u.schema
  {
    SchemaEndsAt(url, p);
    if p < |url| {
      Between(url, InSchema, p, u, Some(SchemaPart));
      if p + 1 < |url| {
        Between(url, SchemaSlash, p + 1, u, Some(SchemaPart));
        if p + 2 < |url| { Between(url, SchemaSlashSlash, p + 2, u, Some(SchemaPart)); }
      }
      hide IsAlpha;
    }
  }

  lemma SchemaEndsAt(url: seq<byte>, p: nat)
    ensures SchemaEnds(url, p) <==> p + 3 <= |url| && url[p] == COLON && url[p + 1] == SLASH && url[p + 2] == SLASH
  {}

  /** A character outside of every field. */
  lemma Between(url: seq<byte>, s: State, p: nat, u: Url, last: Option<Part>)
    requires p < |url| && PartOf(UrlChar(s, url[p])) == None
    ensures FirstPass(url, s, p, u, last)
         == if UrlChar(s, url[p]).Dead? then None else FirstPass(url, UrlChar(s, url[p]), p + 1, u, last)
    ensures SeesAt(url, s, p) == SeesAt(url, UrlChar(s, url[p]), p + 1)
  {
    hide UrlChar;
  }

  lemma SchemaStep(url: seq<byte>, p: nat)
    requires 0 < p < |url| && IsAlpha(url[p])
    ensures var u, v := NO_FIELDS.(schema := Some(Field(0, p))), NO_FIELDS.(schema := Some(Field(0, p + 1)));
            FirstPass(url, InSchema, p, u, Some(SchemaPart)) == FirstPass(url, InSchema, p + 1, v, Some(SchemaPart))
    ensures SeesAt(url, InSchema, p) == SeesAt(url, InSchema, p + 1) && LettersEnd(url, p) == LettersEnd(url, p + 1)
  {
    assert UrlChar(InSchema, url[p]) == InSchema;
    hide UrlChar, IsAlpha;
  }

  lemma {:induction false} SchemaRuns(url: seq<byte>, p: nat)
    requires 0 < p <= |url|
    ensures var k := LettersEnd(url, p);
            var u, v := NO_FIELDS.(schema := Some(Field(0, p))), NO_FIELDS.(schema := Some(Field(0, k)));
            var r := FirstPass(url, InSchema, p, u, Some(SchemaPart));
            if SchemaEnds(url, k) then
              && r == FirstPass(url, ServerStart, k + 3, v, Some(SchemaPart))
              && SeesAt(url, InSchema, p) == SeesAt(url, ServerStart, k + 3)
            else r.Some? ==> r.value.host == None && r.value.schema.Some?
    decreases |url| - p
  {
    hide FirstPass, SeesAt, SchemaEnds, IsAlpha;
    if p < |url| && IsAlpha(url[p]) {
      SchemaStep(url, p);
      hide LettersEnd;
      SchemaRuns(url, p + 1);
    } else {
      SlashesRun(url, p, NO_FIELDS.(schema := Some(Field(0, p))));
    }
  }

  /** The two passes without the port's number. */
  function Fields(url: seq<byte>, connect: bool): Option<Url> {
    var first := First(url, connect);
    if first.None? then None else WithAuthority(url, first.value, SeesAt(url, StartState(connect), 0))
  }

  lemma PathAtStart(url: seq<byte>)
    requires 0 < |url| && (url[0] == SLASH || url[0] == 42)
    ensures Fields(url, false) == if PrintableFrom(url, 0) then Some(WithPath(url, NO_FIELDS, 0)) else None
  {
    InPathRuns(url, 1, NO_FIELDS.(path := Some(Field(0, 1))), 0);
    assert PrintableFrom(url, 0) <==> PrintableFrom(url, 1);
    WithPathKeeps(url, NO_FIELDS, 0, NO_AUTHORITY);
    FirstStep(url);
    hide FirstPass, SeesAt, PrintableFrom, WithQuery;
  }

  lemma FirstStep(url: seq<byte>)
    requires 0 < |url|
    ensures var t := UrlChar(SpacesBeforeUrl, url[0]);
            && First(url, false)
               == (if t.Dead? then None
                   else FirstPass(url, t, 1, UrlFields(NO_FIELDS, t, None, 0), if PartOf(t).Some? then PartOf(t) else None))
            && (t.InSchema? ==> SeesAt(url, SpacesBeforeUrl, 0) == SeesAt(url, t, 1))
  {
    hide UrlChar;
  }

  lemma SchemaAtStart(url: seq<byte>)
    requires 0 < |url| && url[0] != SLASH && url[0] != 42
    ensures var k := LettersEnd(url, 0);
            Fields(url, false) == if 0 < k && SchemaEnds(url, k) then FromAuthority(url, k + 3, Stretch(0, k)) else None
  {
    FirstStep(url);
    var k := LettersEnd(url, 0);
    if IsAlpha(url[0]) {
      assert UrlFields(NO_FIELDS, InSchema, None, 0) == NO_FIELDS.(schema := Some(Field(0, 1)));
      SchemaRuns(url, 1);
      hide FirstPass, SeesAt, SchemaEnds, FromAuthority, AuthorityEnd, IsAlpha, AuthorityOf;
      if SchemaEnds(url, k) {
        FromServer(url, k + 3, Stretch(0, k));
      }
    }
  }

  lemma FromServer(url: seq<byte>, a: nat, schema: Option<Field>)
    requires a <= |url| && schema.Some?
    ensures var first := FirstPass(url, ServerStart, a, NO_FIELDS.(schema := schema), Some(SchemaPart));
            (FromAuthority(url, a, schema)
             == (if first.None? then None else WithAuthority(url, first.value, SeesAt(url, ServerStart, a))))
  {
    hide FirstPass, SeesAt, AuthorityEnd, AuthorityOf;
    if a == AuthorityEnd(url, a) { NoAuthorityRuns(url, a, NO_FIELDS.(schema := schema)); } else { AuthorityParsed(url, a, schema); }
  }

  /** All but the number; without an authority, CONNECT is refused later. */
  lemma FieldsAreSplit(url: seq<byte>, connect: bool)
    ensures SplitFields(url, connect) == Fields(url, connect)
            || (connect && SplitFields(url, connect) == None && Fields(url, connect).Some? && Fields(url, connect).value.host == None)
  {
    hide FromAuthority, WithPath, FirstPass, SeesAt, PrintableFrom;
    if connect {
      ConnectAtStart(url);
    } else if url == [] {
      NothingAtStart();
    } else if url[0] == SLASH || url[0] == 42 {
      PathAtStart(url);
    } else {
      SchemaAtStart(url);
    }
  }

  lemma NothingAtStart()
    ensures Fields([], false) == Some(NO_FIELDS)
  {}

  lemma ConnectAtStart(url: seq<byte>)
    ensures Fields(url, true) == FromAuthority(url, 0, None)
            || (FromAuthority(url, 0, None) == None && Fields(url, true).Some? && Fields(url, true).value.host == None)
  {
    assert NO_FIELDS.(schema := None) == NO_FIELDS;
    hide FirstPass, SeesAt, AuthorityEnd, AuthorityOf;
    if 0 == AuthorityEnd(url, 0) { NoAuthorityRuns(url, 0, NO_FIELDS); } else { AuthorityParsed(url, 0, None); }
  }

  lemma ConnectFields(url: seq<byte>)
    ensures var r := SplitFields(url, true);
            r.Some? ==> r.value.schema == None && r.value.host.Some? && r.value.portNumber == 0
  {
    var e := AuthorityEnd(url, 0);
    if FromAuthority(url, 0, None).Some? {
      var f := AuthorityFields(url, 0, e).value;
      assert f.host.Some? by { SplitHasHost(url, 0, e % WIDTH, HasAt(url, 0, e)); }
      hide AuthorityEnd, HasAt, IsAuthority, PrintableFrom, AuthorityFields, WithPath;
      WithPathKeeps(url, NO_FIELDS.(schema := None, userinfo := f.userinfo, host := f.host, port := f.port), e, f);
    }
  }

  lemma SplitHasHost(url: seq<byte>, h: nat, e: nat, at: bool)
    requires h <= e <= |url| && SplitAuthority(url, h, e, at).Some?
    ensures SplitAuthority(url, h, e, at).value.host.Some?
  {
    hide AllV6, AllZone, AllUserinfo, AllHost, AllDigits;
  }

  /** The two passes find exactly what the splitting finds, and refuse exactly what it refuses. */
  lemma ParsedIsSplit(url: seq<byte>, connect: bool)
    ensures Parsed(url, connect) == Split(url, connect)
  {
    FieldsAreSplit(url, connect);
    ConnectFields(url);
    hide SplitFields, First, SeesAt, WithAuthority, StrToUl;
  }
}
