/** http_parser_parse_url of lib_http/http_parser.c: one pass finds the fields of a URL, a second one takes the authority apart. */
module UrlSplit {
  import opened Bytes

  /** Where a part of the URL stands. */
  datatype Field = Field(off: nat, len: nat)

  /** Offsets and lengths are stored in 16 bits. */
  const WIDTH: nat := 0x1_0000

  function Cut(f: Option<Field>): Option<Field> { if f.Some? then Some(Field(f.value.off % WIDTH, f.value.len % WIDTH)) else None }

  predicate FieldFits(f: Option<Field>) { f.Some? ==> f.value.off < WIDTH && f.value.len < WIDTH }

  /** The fields that are set, and the port's number. */
  datatype Url = Url(schema: Option<Field>, userinfo: Option<Field>, host: Option<Field>, port: Option<Field>,
                     path: Option<Field>, query: Option<Field>, fragment: Option<Field>, portNumber: nat)

  /** The authority's own fields. */
  datatype Authority = Authority(userinfo: Option<Field>, host: Option<Field>, port: Option<Field>)

  const NO_FIELDS: Url := Url(None, None, None, None, None, None, None, 0)
  const NO_AUTHORITY: Authority := Authority(None, None, None)

  function CutUrl(u: Url): Url {
    Url(Cut(u.schema), Cut(u.userinfo), Cut(u.host), Cut(u.port), Cut(u.path), Cut(u.query), Cut(u.fragment), u.portNumber)
  }

  function CutAuthority(u: Authority): Authority { Authority(Cut(u.userinfo), Cut(u.host), Cut(u.port)) }

  predicate UrlFits(u: Url) {
    && FieldFits(u.schema) && FieldFits(u.userinfo) && FieldFits(u.host) && FieldFits(u.port) && FieldFits(u.path)
    && FieldFits(u.query) && FieldFits(u.fragment)
  }

  datatype Part = SchemaPart | HostPart | PathPart | QueryPart | FragmentPart

  datatype State =
    | Dead | SpacesBeforeUrl | InSchema | SchemaSlash | SchemaSlashSlash | ServerStart | InServer | InServerWithAt
    | InPath | QueryStart | InQuery | FragmentStart | InFragment

  datatype HostState =
    | HostDead | UserinfoStart | InUserinfo | HostStart | V6Start | InHost | InV6 | V6End | V6ZoneStart | InV6Zone
    | PortStart | InPort

  const SLASH: byte := 47
  const QUESTION: byte := 63
  const HASH: byte := 35
  const AT: byte := 64
  const COLON: byte := 58
  const OPEN_BRACKET: byte := 91
  const CLOSE_BRACKET: byte := 93
  const PERCENT: byte := 37

  predicate IsAlphaNum(b: byte) { IsAlpha(b) || IsDigit(b) }

  /** The bits of normal_url_char: the printable characters but '#' and '?'. */
  predicate IsUrlChar(b: byte) { 33 <= b <= 126 && b != HASH && b != QUESTION }

  predicate IsUserinfoChar(b: byte) {
    IsAlphaNum(b) || b in [45, 95, 46, 33, 126, 42, 39, 40, 41] || b in [37, 59, 58, 38, 61, 43, 36, 44]
  }

  predicate IsHostChar(b: byte) { IsAlphaNum(b) || b == 46 || b == 45 }

  predicate IsZoneChar(b: byte) { IsAlphaNum(b) || b in [37, 46, 45, 95, 126] }

  /** parse_url_char. */
  function UrlChar(s: State, ch: byte): State {
    if ch in [32, 13, 10, 9, 12] then Dead
    else match s
      case SpacesBeforeUrl => if ch == SLASH || ch == 42 then InPath else if IsAlpha(ch) then InSchema else Dead
      case InSchema => if IsAlpha(ch) then InSchema else if ch == COLON then SchemaSlash else Dead
      case SchemaSlash => if ch == SLASH then SchemaSlashSlash else Dead
      case SchemaSlashSlash => if ch == SLASH then ServerStart else Dead
      case InServerWithAt => if ch == AT then Dead else ServerChar(ch)
      case ServerStart => ServerChar(ch)
      case InServer => ServerChar(ch)
      case InPath => if IsUrlChar(ch) then InPath else if ch == QUESTION then QueryStart else if ch == HASH then FragmentStart else Dead
      case QueryStart => QueryChar(ch)
      case InQuery => QueryChar(ch)
      case FragmentStart => if IsUrlChar(ch) || ch == QUESTION then InFragment else if ch == HASH then FragmentStart else Dead
      case InFragment => if IsUrlChar(ch) || ch == QUESTION || ch == HASH then InFragment else Dead
      case Dead => Dead
  }

  function ServerChar(ch: byte): State {
    if ch == SLASH then InPath
    else if ch == QUESTION then QueryStart
    else if ch == AT then InServerWithAt
    else if IsUserinfoChar(ch) || ch == OPEN_BRACKET || ch == CLOSE_BRACKET then InServer
    else Dead
  }

  function QueryChar(ch: byte): State {
    if IsUrlChar(ch) || ch == QUESTION then InQuery else if ch == HASH then FragmentStart else Dead
  }

  /** http_parse_host_char. */
  function HostChar(s: HostState, ch: byte): HostState {
    match s
    case UserinfoStart => if ch == AT then HostStart else if IsUserinfoChar(ch) then InUserinfo else HostDead
    case InUserinfo => if ch == AT then HostStart else if IsUserinfoChar(ch) then InUserinfo else HostDead
    case HostStart => if ch == OPEN_BRACKET then V6Start else if IsHostChar(ch) then InHost else HostDead
    case InHost => if IsHostChar(ch) then InHost else if ch == COLON then PortStart else HostDead
    case V6End => if ch == COLON then PortStart else HostDead
    case InV6 =>
      if ch == CLOSE_BRACKET then V6End
      else if IsHexDigit(ch) || ch == COLON || ch == 46 then InV6
      else if ch == PERCENT then V6ZoneStart else HostDead
    case V6Start => if IsHexDigit(ch) || ch == COLON || ch == 46 then InV6 else HostDead
    case InV6Zone => if ch == CLOSE_BRACKET then V6End else if IsZoneChar(ch) then InV6Zone else HostDead
    case V6ZoneStart => if IsZoneChar(ch) then InV6Zone else HostDead
    case InPort => if IsDigit(ch) then InPort else HostDead
    case PortStart => if IsDigit(ch) then InPort else HostDead
    case HostDead => HostDead
  }

  function EndOf(f: Field): nat { f.off + f.len }

  /** Where the next field may begin after one that may be set. */
  function After(from: nat, f: Option<Field>): nat { if f.Some? then EndOf(f.value) else from }

  /** A field that is set is not empty and does not begin before a place. */
  predicate From(from: nat, f: Option<Field>) { f.Some? ==> from <= f.value.off && 0 < f.value.len }

  /** The authority's fields are stretches between two places, one after the other. */
  predicate AuthorityInOrder(u: Authority, from: nat, to: nat) {
    var b := After(from, u.userinfo);
    var c := After(b, u.host);
    From(from, u.userinfo) && From(b, u.host) && From(c, u.port) && After(c, u.port) <= to
  }

  /** The number that strtoul reads from a place: digits up to something else, or the terminator. */
  function StrToUl(url: seq<byte>, off: nat, v: nat): nat
    decreases |url| - off
  {
    if off < |url| && IsDigit(url[off]) then StrToUl(url, off + 1, 10 * v + (url[off] as nat - 48)) else v
  }

  function DecimalValue(digits: seq<byte>, v: nat): nat
    requires forall i :: 0 <= i < |digits| ==> IsDigit(digits[i])
    decreases |digits|
  {
    if digits == [] then v
    else
      assert IsDigit(digits[0]);
      DecimalValue(digits[1..], 10 * v + (digits[0] as nat - 48))
  }

  lemma {:induction false} StrToUlReads(url: seq<byte>, from: nat, to: nat, v: nat)
    requires from <= to <= |url| && forall i :: from <= i < to ==> IsDigit(url[i])
    requires to == |url| || !IsDigit(url[to])
    ensures StrToUl(url, from, v) == DecimalValue(url[from..to], v)
    decreases |url| - from
  {
    if from < to {
      assert url[from..to][1..] == url[from + 1..to];
      StrToUlReads(url, from + 1, to, 10 * v + (url[from] as nat - 48));
    }
  }

  /** What the second pass has found up to p in an authority that begins at h. */
  ghost predicate HostInv(url: seq<byte>, h: nat, s: HostState, p: nat, u: Authority) {
    && h <= p <= |url| && AuthorityInOrder(u, h, p)
    && (u.userinfo.Some? ==> u.userinfo.value.off == h
                             && (s.InUserinfo? || (EndOf(u.userinfo.value) < p && url[EndOf(u.userinfo.value)] == AT)))
    && (u.port.Some? <==> s.InPort?)
    && (match s
        case UserinfoStart => p == h && u == Authority(None, None, None)
        case InUserinfo => u.userinfo.Some? && EndOf(u.userinfo.value) == p && u.host == None
        case HostStart => u.host == None && (p > h ==> url[p - 1] == AT)
        case V6Start => u.host == None && p > h
        case V6End => u.host.Some? && EndOf(u.host.value) < p
        case PortStart => u.host.Some? && EndOf(u.host.value) < p && url[p - 1] == COLON
        case InPort => u.host.Some? && PortIs(url, u.host.value, u.port, p)
        case HostDead => false
        case _ => u.host.Some? && EndOf(u.host.value) == p)
  }

  /** The port is the digits behind a colon behind the host. */
  ghost predicate PortIs(url: seq<byte>, host: Field, port: Option<Field>, to: nat) {
    port.Some? && EndOf(host) < port.value.off && EndOf(port.value) == to <= |url| && url[port.value.off - 1] == COLON
    && forall i :: port.value.off <= i < to ==> IsDigit(url[i])
  }

  /** A field grows by the character at p, or begins there. */
  function Grown(f: Option<Field>, begins: bool, p: nat): (g: Option<Field>)
    ensures g.Some?
  {
    if begins || f.None? then Some(Field(p, 1)) else Some(Field(f.value.off, f.value.len + 1))
  }

  /** What a character that leads from s to t does to the fields. */
  function HostFields(u: Authority, s: HostState, t: HostState, p: nat): Authority {
    match t
    case InHost => u.(host := Grown(u.host, s != InHost, p))
    case InV6 => u.(host := Grown(u.host, s != InV6, p))
    case V6ZoneStart => u.(host := Grown(u.host, false, p))
    case InV6Zone => u.(host := Grown(u.host, false, p))
    case InPort => u.(port := Grown(u.port, s != InPort, p))
    case InUserinfo => u.(userinfo := Grown(u.userinfo, s != InUserinfo, p))
    case _ => u
  }

  lemma HostStepUserinfo(url: seq<byte>, h: nat, s: HostState, p: nat, u: Authority)
    requires HostInv(url, h, s, p, u) && p < |url| && !HostChar(s, url[p]).HostDead?
    requires s.UserinfoStart? || s.InUserinfo?
    ensures HostInv(url, h, HostChar(s, url[p]), p + 1, HostFields(u, s, HostChar(s, url[p]), p))
  {
    hide IsUserinfoChar, IsHostChar, IsZoneChar, IsHexDigit, IsDigit;
  }

  lemma HostStepStart(url: seq<byte>, h: nat, s: HostState, p: nat, u: Authority)
    requires HostInv(url, h, s, p, u) && p < |url| && !HostChar(s, url[p]).HostDead?
    requires s.HostStart? || s.V6Start?
    ensures HostInv(url, h, HostChar(s, url[p]), p + 1, HostFields(u, s, HostChar(s, url[p]), p))
  {
    hide IsUserinfoChar, IsHostChar, IsZoneChar, IsHexDigit, IsDigit;
  }

  lemma HostStepHost(url: seq<byte>, h: nat, s: HostState, p: nat, u: Authority)
    requires HostInv(url, h, s, p, u) && p < |url| && !HostChar(s, url[p]).HostDead?
    requires s.InHost? || s.V6End?
    ensures HostInv(url, h, HostChar(s, url[p]), p + 1, HostFields(u, s, HostChar(s, url[p]), p))
  {
    hide IsUserinfoChar, IsHostChar, IsZoneChar, IsHexDigit, IsDigit;
  }

  lemma HostStepV6(url: seq<byte>, h: nat, s: HostState, p: nat, u: Authority)
    requires HostInv(url, h, s, p, u) && p < |url| && !HostChar(s, url[p]).HostDead?
    requires s.InV6? || s.V6ZoneStart? || s.InV6Zone?
    ensures HostInv(url, h, HostChar(s, url[p]), p + 1, HostFields(u, s, HostChar(s, url[p]), p))
  {
    hide IsUserinfoChar, IsHostChar, IsZoneChar, IsHexDigit, IsDigit;
  }

  lemma HostStepPort(url: seq<byte>, h: nat, s: HostState, p: nat, u: Authority)
    requires HostInv(url, h, s, p, u) && p < |url| && !HostChar(s, url[p]).HostDead?
    requires s.PortStart? || s.InPort?
    ensures HostInv(url, h, HostChar(s, url[p]), p + 1, HostFields(u, s, HostChar(s, url[p]), p))
  {
    hide IsUserinfoChar, IsHostChar, IsZoneChar, IsHexDigit;
  }

  /** Every character keeps what has been found. */
  lemma HostStep(url: seq<byte>, h: nat, s: HostState, p: nat, u: Authority)
    requires HostInv(url, h, s, p, u) && p < |url| && !HostChar(s, url[p]).HostDead?
    ensures HostInv(url, h, HostChar(s, url[p]), p + 1, HostFields(u, s, HostChar(s, url[p]), p))
  {
    var ch := url[p];
    hide HostFields;
    match s
    case UserinfoStart => HostStepUserinfo(url, h, s, p, u);
    case InUserinfo => HostStepUserinfo(url, h, s, p, u);
    case HostStart => HostStepStart(url, h, s, p, u);
    case V6Start => HostStepStart(url, h, s, p, u);
    case InHost => HostStepHost(url, h, s, p, u);
    case V6End => HostStepHost(url, h, s, p, u);
    case PortStart => HostStepPort(url, h, s, p, u);
    case InPort => HostStepPort(url, h, s, p, u);
    case HostDead => assert false;
    case _ => HostStepV6(url, h, s, p, u);
  }

  /** What a finished second pass has found: a host, and what may stand before and behind it. */
  ghost predicate HostFound(url: seq<byte>, h: nat, e: nat, u: Authority) {
    && h <= e <= |url| && AuthorityInOrder(u, h, e) && u.host.Some?
    && (u.userinfo.Some? ==> u.userinfo.value.off == h && EndOf(u.userinfo.value) < e && url[EndOf(u.userinfo.value)] == AT)
    && (u.port.Some? ==> PortIs(url, u.host.value, u.port, e))
  }

  predicate HostEnds(s: HostState) { s.InHost? || s.V6End? || s.InPort? }

  /** The second pass from p to e: what it finds, unless it is refused. */
  function SecondPass(url: seq<byte>, s: HostState, p: nat, e: nat, u: Authority): Option<Authority>
    decreases |url| - p
  {
    if p >= e || p >= |url| then (if HostEnds(s) then Some(u) else None)
    else
      var t := HostChar(s, url[p]);
      if t.HostDead? then None else SecondPass(url, t, p + 1, e, HostFields(u, s, t, p))
  }

  lemma {:induction false} SecondPassFinds(url: seq<byte>, h: nat, s: HostState, p: nat, e: nat, u: Authority)
    requires HostInv(url, h, s, p, u) && p <= e <= |url| && SecondPass(url, s, p, e, u).Some?
    ensures HostFound(url, h, e, SecondPass(url, s, p, e, u).value)
    decreases e - p
  {
    hide AuthorityInOrder, HostFields;
    if p < e {
      hide HostInv, HostFound;
      HostStep(url, h, s, p, u);
      SecondPassFinds(url, h, HostChar(s, url[p]), p + 1, e, HostFields(u, s, HostChar(s, url[p]), p));
    }
  }

  /** The fields that a state grows are there. */
  predicate Begun(s: HostState, u: Authority) {
    && (s.InHost? || s.InV6? || s.V6ZoneStart? || s.InV6Zone? ==> u.host.Some?)
    && (s.InPort? ==> u.port.Some?) && (s.InUserinfo? ==> u.userinfo.Some?)
  }

  function Longer(f: Field): Field { Field(f.off, (f.len + 1) % WIDTH) }

  /** A field grows by the character at p, or begins there. */
  method NoteIn(f: Option<Field>, begins: bool, p: nat, ghost wide: Option<Field>) returns (g: Option<Field>)
    requires f == Cut(wide) && (!begins ==> f.Some?)
    ensures g == Cut(Grown(wide, begins, p))
  {
    g := if begins then Some(Field(p % WIDTH, 0)) else f;
    g := Some(Longer(g.value));
  }

  /** The second switch of http_parse_host: what the character at p does to the fields. */
  method Note(u: Authority, s: HostState, ch: byte, p: nat, ghost wide: Authority) returns (v: Authority)
    requires u == CutAuthority(wide) && Begun(s, wide) && !HostChar(s, ch).HostDead?
    ensures v == CutAuthority(HostFields(wide, s, HostChar(s, ch), p))
    ensures Begun(HostChar(s, ch), HostFields(wide, s, HostChar(s, ch), p))
  {
    var t := HostChar(s, ch);
    assert t.V6ZoneStart? || t.InV6Zone? ==> u.host.Some?;
    hide HostChar, Cut;
    var f;
    v := u;
    match t {
      case InHost => f := NoteIn(u.host, s != InHost, p, wide.host); v := u.(host := f);
      case InV6 => f := NoteIn(u.host, s != InV6, p, wide.host); v := u.(host := f);
      case V6ZoneStart => f := NoteIn(u.host, false, p, wide.host); v := u.(host := f);
      case InV6Zone => f := NoteIn(u.host, false, p, wide.host); v := u.(host := f);
      case InPort => f := NoteIn(u.port, s != InPort, p, wide.port); v := u.(port := f);
      case InUserinfo => f := NoteIn(u.userinfo, s != InUserinfo, p, wide.userinfo); v := u.(userinfo := f);
      case _ =>
    }
  }

  /** http_parse_host, from the authority's first place to behind its last. */
  method ParseHost(url: seq<byte>, h: nat, e: nat, foundAt: bool) returns (rc: int, u: Authority)
    requires h <= e <= |url|
    ensures rc == 0 || rc == 1
    ensures var found := SecondPass(url, if foundAt then UserinfoStart else HostStart, h, e, NO_AUTHORITY);
            (rc == 0 <==> found.Some?) && (rc == 0 ==> u == CutAuthority(found.value))
  {
    hide HostChar, HostFields, CutAuthority;
    ghost var wide := NO_AUTHORITY;
    NothingCut();
    u := NO_AUTHORITY;
    var s := if foundAt then UserinfoStart else HostStart;
    ghost var start := s;
    var p := h;
    while p < e
      invariant h <= p <= e && u == CutAuthority(wide) && Begun(s, wide) && !s.HostDead?
      invariant SecondPass(url, s, p, e, wide) == SecondPass(url, start, h, e, NO_AUTHORITY)
    {
      var t := HostChar(s, url[p]);
      if t.HostDead? { return 1, u; }
      u := Note(u, s, url[p], p, wide);
      wide := HostFields(wide, s, t, p);
      s := t;
      p := p + 1;
    }
    if s in [HostStart, V6Start, InV6, V6ZoneStart, InV6Zone, PortStart, InUserinfo, UserinfoStart] { return 1, u; }
    rc := 0;
  }

  lemma NothingCut()
    ensures CutAuthority(NO_AUTHORITY) == NO_AUTHORITY && CutUrl(NO_FIELDS) == NO_FIELDS
  {}

  lemma HostStarts(url: seq<byte>, h: nat)
    requires h <= |url|
    ensures HostInv(url, h, UserinfoStart, h, Authority(None, None, None))
    ensures HostInv(url, h, HostStart, h, Authority(None, None, None))
  {}

  /** The fields of the first pass, one after the other up to a place; the authority is still one field. */
  predicate UrlInOrder(u: Url, to: nat) {
    var a := After(0, u.schema);
    var b := After(a, u.host);
    var c := After(b, u.path);
    var d := After(c, u.query);
    && From(0, u.schema) && From(a, u.host) && From(b, u.path) && From(c, u.query) && From(d, u.fragment)
    && After(d, u.fragment) <= to
    && u.userinfo == None && u.port == None && u.portNumber == 0
  }

  predicate FollowedBy(url: seq<byte>, f: Field, end: seq<byte>) {
    EndOf(f) + |end| <= |url| && url[EndOf(f)..EndOf(f) + |end|] == end
  }

  predicate PrecededBy(url: seq<byte>, f: Option<Field>, ch: byte) {
    f.Some? ==> 0 < f.value.off <= |url| && url[f.value.off - 1] == ch
  }

  /** What stands between the fields found so far. */
  ghost predicate UrlDelims(url: seq<byte>, s: State, p: nat, u: Url) {
    && PrecededBy(url, u.query, QUESTION) && PrecededBy(url, u.fragment, HASH)
    && (u.schema.Some? ==> u.schema.value.off == 0)
    && (u.schema.Some? && !(s.InSchema? || s.SchemaSlash? || s.SchemaSlashSlash?) ==> FollowedBy(url, u.schema.value, [COLON, SLASH, SLASH]))
    && (u.host.Some? ==> u.host.value.off == if u.schema.Some? then EndOf(u.schema.value) + 3 else 0)
    && (u.host.Some? && !(s.InServer? || s.InServerWithAt?) ==>
          EndOf(u.host.value) < p <= |url| && (url[EndOf(u.host.value)] == SLASH || url[EndOf(u.host.value)] == QUESTION))
  }

  predicate NoneFrom(u: Url, a: Part) {
    match a
    case SchemaPart => u.schema == None && u.host == None && u.path == None && u.query == None && u.fragment == None
    case HostPart => u.host == None && u.path == None && u.query == None && u.fragment == None
    case PathPart => u.path == None && u.query == None && u.fragment == None
    case QueryPart => u.query == None && u.fragment == None
    case FragmentPart => u.fragment == None
  }

  function Get(u: Url, a: Part): Option<Field> {
    match a
    case SchemaPart => u.schema
    case HostPart => u.host
    case PathPart => u.path
    case QueryPart => u.query
    case FragmentPart => u.fragment
  }

  function Put(u: Url, a: Part, f: Option<Field>): Url {
    match a
    case SchemaPart => u.(schema := f)
    case HostPart => u.(host := f)
    case PathPart => u.(path := f)
    case QueryPart => u.(query := f)
    case FragmentPart => u.(fragment := f)
  }

  /** The field that a state is inside of. */
  function PartOf(s: State): Option<Part> {
    match s
    case InSchema => Some(SchemaPart)
    case InServer => Some(HostPart)
    case InServerWithAt => Some(HostPart)
    case InPath => Some(PathPart)
    case InQuery => Some(QueryPart)
    case InFragment => Some(FragmentPart)
    case _ => None
  }

  /** Inside a field, the field grows at its end; between fields, the next one is not there yet. */
  ghost predicate UrlHere(url: seq<byte>, s: State, p: nat, u: Url, last: Option<Part>) {
    && (PartOf(s).Some? ==> last == PartOf(s) && Get(u, last.value).Some? && EndOf(Get(u, last.value).value) == p)
    && (last.Some? ==> Get(u, last.value).Some?)
    && (match s
        case SpacesBeforeUrl => p == 0 && NoneFrom(u, SchemaPart)
        case InSchema => NoneFrom(u, HostPart)
        case SchemaSlash => NoneFrom(u, HostPart) && u.schema.Some? && FollowedBy(url, u.schema.value, [COLON]) && EndOf(u.schema.value) + 1 == p
        case SchemaSlashSlash => NoneFrom(u, HostPart) && u.schema.Some? && FollowedBy(url, u.schema.value, [COLON, SLASH]) && EndOf(u.schema.value) + 2 == p
        case ServerStart => NoneFrom(u, HostPart) && p == if u.schema.Some? then EndOf(u.schema.value) + 3 else 0
        case InServer => NoneFrom(u, PathPart)
        case InServerWithAt => NoneFrom(u, PathPart)
        case InPath => NoneFrom(u, QueryPart)
        case QueryStart => NoneFrom(u, QueryPart) && 0 < p <= |url| && url[p - 1] == QUESTION
        case InQuery => NoneFrom(u, FragmentPart)
        case FragmentStart => NoneFrom(u, FragmentPart) && 0 < p <= |url| && url[p - 1] == HASH
        case InFragment => true
        case Dead => false)
  }

  ghost predicate UrlInv(url: seq<byte>, s: State, p: nat, u: Url, last: Option<Part>) {
    p <= |url| && UrlInOrder(u, p) && UrlDelims(url, s, p, u) && UrlHere(url, s, p, u, last)
  }

  function UrlFields(u: Url, t: State, last: Option<Part>, p: nat): Url {
    if PartOf(t).Some? then Put(u, PartOf(t).value, Grown(Get(u, PartOf(t).value), PartOf(t) != last, p)) else u
  }

  /** The first pass one character further. */
  ghost predicate UrlAfter(url: seq<byte>, s: State, p: nat, u: Url, last: Option<Part>) {
    p < |url| &&
    var t := UrlChar(s, url[p]);
    UrlInv(url, t, p + 1, UrlFields(u, t, last, p), if PartOf(t).Some? then PartOf(t) else last)
  }

  lemma UrlStepFirst(url: seq<byte>, s: State, p: nat, u: Url, last: Option<Part>)
    requires UrlInv(url, s, p, u, last) && p < |url| && !UrlChar(s, url[p]).Dead?
    requires s.SpacesBeforeUrl?
    ensures UrlAfter(url, s, p, u, last)
  {
    hide IsUserinfoChar, IsUrlChar, IsAlpha;
  }

  lemma UrlStepSchema(url: seq<byte>, s: State, p: nat, u: Url, last: Option<Part>)
    requires UrlInv(url, s, p, u, last) && p < |url| && !UrlChar(s, url[p]).Dead?
    requires s.InSchema?
    ensures UrlAfter(url, s, p, u, last)
  {
    hide IsUserinfoChar, IsUrlChar, IsAlpha;
  }

  lemma UrlStepSlash(url: seq<byte>, s: State, p: nat, u: Url, last: Option<Part>)
    requires UrlInv(url, s, p, u, last) && p < |url| && !UrlChar(s, url[p]).Dead?
    requires s.SchemaSlash?
    ensures UrlAfter(url, s, p, u, last)
  {
    hide IsUserinfoChar, IsUrlChar, IsAlpha;
  }

  lemma UrlStepSlashSlash(url: seq<byte>, s: State, p: nat, u: Url, last: Option<Part>)
    requires UrlInv(url, s, p, u, last) && p < |url| && !UrlChar(s, url[p]).Dead?
    requires s.SchemaSlashSlash?
    ensures UrlAfter(url, s, p, u, last)
  {
    hide IsUserinfoChar, IsUrlChar, IsAlpha;
  }

  lemma UrlStepServerStart(url: seq<byte>, s: State, p: nat, u: Url, last: Option<Part>)
    requires UrlInv(url, s, p, u, last) && p < |url| && !UrlChar(s, url[p]).Dead?
    requires s.ServerStart? && PartOf(UrlChar(s, url[p])) == Some(HostPart)
    ensures UrlAfter(url, s, p, u, last)
  {
    hide IsUserinfoChar, IsUrlChar, IsAlpha;
  }

  lemma UrlStepServerNone(url: seq<byte>, s: State, p: nat, u: Url, last: Option<Part>)
    requires UrlInv(url, s, p, u, last) && p < |url| && !UrlChar(s, url[p]).Dead?
    requires s.ServerStart? && PartOf(UrlChar(s, url[p])) != Some(HostPart)
    ensures UrlAfter(url, s, p, u, last)
  {
    hide IsUserinfoChar, IsUrlChar, IsAlpha;
  }

  lemma UrlStepServer(url: seq<byte>, s: State, p: nat, u: Url, last: Option<Part>)
    requires UrlInv(url, s, p, u, last) && p < |url| && !UrlChar(s, url[p]).Dead?
    requires (s.InServer? || s.InServerWithAt?) && PartOf(UrlChar(s, url[p])) == Some(HostPart)
    ensures UrlAfter(url, s, p, u, last)
  {
    hide IsUserinfoChar, IsUrlChar, IsAlpha;
  }

  lemma UrlStepServerEnd(url: seq<byte>, s: State, p: nat, u: Url, last: Option<Part>)
    requires UrlInv(url, s, p, u, last) && p < |url| && !UrlChar(s, url[p]).Dead?
    requires (s.InServer? || s.InServerWithAt?) && PartOf(UrlChar(s, url[p])) != Some(HostPart)
    ensures UrlAfter(url, s, p, u, last)
  {
    hide IsUserinfoChar, IsUrlChar, IsAlpha;
  }

  lemma UrlStepPath(url: seq<byte>, s: State, p: nat, u: Url, last: Option<Part>)
    requires UrlInv(url, s, p, u, last) && p < |url| && !UrlChar(s, url[p]).Dead?
    requires s.InPath?
    ensures UrlAfter(url, s, p, u, last)
  {
    hide IsUserinfoChar, IsUrlChar, IsAlpha, ServerChar, FollowedBy;
  }

  lemma UrlStepQueryStart(url: seq<byte>, s: State, p: nat, u: Url, last: Option<Part>)
    requires UrlInv(url, s, p, u, last) && p < |url| && !UrlChar(s, url[p]).Dead?
    requires s.QueryStart? && UrlChar(s, url[p]).InQuery?
    ensures UrlAfter(url, s, p, u, last)
  {
    hide IsUserinfoChar, IsUrlChar, IsAlpha, ServerChar, FollowedBy;
  }

  lemma UrlStepNoQuery(url: seq<byte>, s: State, p: nat, u: Url, last: Option<Part>)
    requires UrlInv(url, s, p, u, last) && p < |url| && !UrlChar(s, url[p]).Dead?
    requires s.QueryStart? && UrlChar(s, url[p]).FragmentStart?
    ensures UrlAfter(url, s, p, u, last)
  {
    hide IsUserinfoChar, IsUrlChar, IsAlpha, ServerChar, FollowedBy;
  }

  lemma UrlStepQuery(url: seq<byte>, s: State, p: nat, u: Url, last: Option<Part>)
    requires UrlInv(url, s, p, u, last) && p < |url| && !UrlChar(s, url[p]).Dead?
    requires s.InQuery?
    ensures UrlAfter(url, s, p, u, last)
  {
    hide IsUserinfoChar, IsUrlChar, IsAlpha, ServerChar, FollowedBy;
  }

  lemma UrlStepFragment(url: seq<byte>, s: State, p: nat, u: Url, last: Option<Part>)
    requires UrlInv(url, s, p, u, last) && p < |url| && !UrlChar(s, url[p]).Dead?
    requires s.FragmentStart? || s.InFragment?
    ensures UrlAfter(url, s, p, u, last)
  {
    hide IsUserinfoChar, IsUrlChar, IsAlpha, ServerChar, FollowedBy;
  }

  /** Every character keeps what has been found. */
  lemma UrlStep(url: seq<byte>, s: State, p: nat, u: Url, last: Option<Part>)
    requires UrlInv(url, s, p, u, last) && p < |url| && !UrlChar(s, url[p]).Dead?
    ensures UrlAfter(url, s, p, u, last)
  {
    hide UrlInOrder, UrlDelims, UrlAfter, ServerChar, NoneFrom, Get, FollowedBy, IsUserinfoChar, IsUrlChar, IsAlpha;
    match s
    case SpacesBeforeUrl => UrlStepFirst(url, s, p, u, last);
    case InSchema => UrlStepSchema(url, s, p, u, last);
    case SchemaSlash => UrlStepSlash(url, s, p, u, last);
    case SchemaSlashSlash => UrlStepSlashSlash(url, s, p, u, last);
    case ServerStart =>
      if PartOf(UrlChar(s, url[p])) == Some(HostPart) {
        UrlStepServerStart(url, s, p, u, last);
      } else {
        UrlStepServerNone(url, s, p, u, last);
      }
    case InPath => UrlStepPath(url, s, p, u, last);
    case QueryStart =>
      if UrlChar(s, url[p]).InQuery? { UrlStepQueryStart(url, s, p, u, last); } else { UrlStepNoQuery(url, s, p, u, last); }
    case InQuery => UrlStepQuery(url, s, p, u, last);
    case FragmentStart => UrlStepFragment(url, s, p, u, last);
    case InFragment => UrlStepFragment(url, s, p, u, last);
    case Dead => assert false;
    case _ =>
      if PartOf(UrlChar(s, url[p])) == Some(HostPart) {
        UrlStepServer(url, s, p, u, last);
      } else {
        UrlStepServerEnd(url, s, p, u, last);
      }
  }

  lemma UrlStarts(url: seq<byte>)
    ensures UrlInv(url, SpacesBeforeUrl, 0, Url(None, None, None, None, None, None, None, 0), None)
    ensures UrlInv(url, ServerStart, 0, Url(None, None, None, None, None, None, None, 0), None)
  {}

  /** What an accepted URL comes apart into: stretches of it in the order of a URL, the delimiters between them, and the number
    * that the port's digits denote. */
  ghost predicate Accepted(url: seq<byte>, u: Url) {
    && InOrder(u, |url|)
    && (u.schema.Some? ==> u.schema.value.off == 0 && FollowedBy(url, u.schema.value, [COLON, SLASH, SLASH]) && u.host.Some?)
    && (u.userinfo.Some? ==> FollowedBy(url, u.userinfo.value, [AT]) && u.host.Some?)
    && PrecededBy(url, u.port, COLON) && PrecededBy(url, u.query, QUESTION) && PrecededBy(url, u.fragment, HASH)
    && (u.port.Some? ==> u.host.Some? && PortNumberIs(url, u.port.value, u.portNumber))
    && (u.port.None? ==> u.portNumber == 0)
  }

  ghost predicate PortNumberIs(url: seq<byte>, f: Field, n: nat) {
    && EndOf(f) <= |url| && (forall i :: f.off <= i < EndOf(f) ==> IsDigit(url[i]))
    && n <= 0xffff && n == NumberIn(url, f)
  }

  ghost function NumberIn(url: seq<byte>, f: Field): nat
    requires EndOf(f) <= |url| && forall i :: f.off <= i < EndOf(f) ==> IsDigit(url[i])
  {
    var digits := url[f.off..EndOf(f)];
    assert forall i :: 0 <= i < |digits| ==> digits[i] == url[f.off + i];
    DecimalValue(digits, 0)
  }

  /** All seven fields, one after the other up to a place. */
  predicate InOrder(u: Url, to: nat) {
    var a := After(0, u.schema);
    var b := After(a, u.userinfo);
    var c := After(b, u.host);
    var d := After(c, u.port);
    var e := After(d, u.path);
    var f := After(e, u.query);
    && From(0, u.schema) && From(a, u.userinfo) && From(b, u.host) && From(c, u.port) && From(d, u.path)
    && From(e, u.query) && From(f, u.fragment) && After(f, u.fragment) <= to
  }

  /** The first pass from p on: what it finds, unless it is refused. */
  function FirstPass(url: seq<byte>, s: State, p: nat, u: Url, last: Option<Part>): Option<Url>
    decreases |url| - p
  {
    if p >= |url| then Some(u)
    else
      var t := UrlChar(s, url[p]);
      if t.Dead? then None else FirstPass(url, t, p + 1, UrlFields(u, t, last, p), if PartOf(t).Some? then PartOf(t) else last)
  }

  /** Whether the first pass sees an at sign in the authority. */
  function SeesAt(url: seq<byte>, s: State, p: nat): bool
    decreases |url| - p
  {
    p < |url| && (UrlChar(s, url[p]).InServerWithAt? || SeesAt(url, UrlChar(s, url[p]), p + 1))
  }

  function StartState(connect: bool): State { if connect then ServerStart else SpacesBeforeUrl }

  function First(url: seq<byte>, connect: bool): Option<Url> { FirstPass(url, StartState(connect), 0, NO_FIELDS, None) }

  /** The second pass takes the authority where its 16-bit offset and length say it stands. */
  function AuthorityOf(url: seq<byte>, host: Field, at: bool): Option<Authority> {
    var h := host.off % WIDTH;
    SecondPass(url, if at then UserinfoStart else HostStart, h, h + host.len % WIDTH, NO_AUTHORITY)
  }

  function WithAuthority(url: seq<byte>, u: Url, at: bool): Option<Url> {
    if u.schema.Some? && u.host.None? then None
    else if u.host.None? then Some(u)
    else
      var a := AuthorityOf(url, u.host.value, at);
      if a.None? then None else Some(u.(userinfo := a.value.userinfo, host := a.value.host, port := a.value.port))
  }

  predicate HostAndPortOnly(u: Url) {
    u.host.Some? && u.port.Some? && u.schema == u.userinfo == u.path == u.query == u.fragment == None
  }

  function WithNumber(url: seq<byte>, u: Url, connect: bool): Option<Url> {
    if connect && !HostAndPortOnly(u) then None
    else if u.port.None? then Some(u)
    else
      var v := StrToUl(url, u.port.value.off % WIDTH, 0);
      if v > 0xffff then None else Some(u.(portNumber := v))
  }

  /** What the two passes find before it is cut to 16 bits, unless the URL is refused. */
  function Parsed(url: seq<byte>, connect: bool): Option<Url> {
    var first := First(url, connect);
    if first.None? then None
    else
      var u := WithAuthority(url, first.value, SeesAt(url, StartState(connect), 0));
      if u.None? then None else WithNumber(url, u.value, connect)
  }

  /** The loop of http_parser_parse_url. */
  method SplitFirst(url: seq<byte>, connect: bool) returns (rc: int, u: Url, foundAt: bool)
    ensures rc == 0 || rc == 1
    ensures rc == 0 <==> First(url, connect).Some?
    ensures rc == 0 ==> u == CutUrl(First(url, connect).value) && foundAt == SeesAt(url, StartState(connect), 0)
  {
    hide UrlChar, CutUrl, Cut, Grown, Get, Put;
    NothingCut();
    u := NO_FIELDS;
    ghost var wide := u;
    var s := StartState(connect);
    var last: Option<Part>, p := None, 0;
    foundAt := false;
    while p < |url|
      invariant 0 <= p <= |url| && u == CutUrl(wide) && (last.Some? ==> Get(wide, last.value).Some?)
      invariant FirstPass(url, s, p, wide, last) == First(url, connect)
      invariant (foundAt || SeesAt(url, s, p)) == SeesAt(url, StartState(connect), 0)
    {
      var t := UrlChar(s, url[p]);
      if t.Dead? { return 1, u, foundAt; }
      if t.InServerWithAt? { foundAt := true; }
      if PartOf(t).Some? {
        var uf := PartOf(t).value;
        CutPart(wide, uf, Grown(Get(wide, uf), last != Some(uf), p));
        var f := NoteIn(Get(u, uf), last != Some(uf), p, Get(wide, uf));
        u := Put(u, uf, f);
        wide := Put(wide, uf, Grown(Get(wide, uf), last != Some(uf), p));
        last := Some(uf);
      }
      s := t;
      p := p + 1;
    }
    rc := 0;
  }

  /** Cutting a URL's fields is cutting each of them. */
  lemma CutPart(u: Url, part: Part, f: Option<Field>)
    ensures Get(CutUrl(u), part) == Cut(Get(u, part)) && (Cut(Get(u, part)).Some? <==> Get(u, part).Some?)
    ensures CutUrl(Put(u, part, f)) == Put(CutUrl(u), part, Cut(f)) && Get(Put(u, part, f), part) == f
  {}

  /** http_parser_parse_url: nonzero, or the fields of the URL, cut to 16 bits each. */
  method ParseUrl(url: seq<byte>, connect: bool) returns (rc: int, u: Url)
    ensures rc == 0 || rc == 1
    ensures rc == 0 <==> Parsed(url, connect).Some?
    ensures rc == 0 ==> u == CutUrl(Parsed(url, connect).value)
    ensures rc == 0 && |url| < WIDTH ==> u == Parsed(url, connect).value && Accepted(url, u)
    ensures rc == 0 && connect ==> HostAndPortOnly(u)
  {
    hide First, SeesAt, SecondPass, Accepted, StrToUl;
    var foundAt;
    rc, u, foundAt := SplitFirst(url, connect);
    if rc != 0 { return; }
    ghost var first := First(url, connect).value;
    FirstBounds(url, connect);
    if u.schema.Some? && u.host.None? { return 1, u; }
    if u.host.Some? {
      var h := u.host.value.off;
      var found, a := ParseHost(url, h, h + u.host.value.len, foundAt);
      if found != 0 { return 1, u; }
      u := u.(userinfo := a.userinfo, host := a.host, port := a.port);
    }
    if connect && !(u.host.Some? && u.port.Some? && u.schema == u.userinfo == u.path == u.query == u.fragment == None) { return 1, u; }
    if u.port.Some? {
      var v := StrToUl(url, u.port.value.off, 0);
      if v > 0xffff { return 1, u; }
      u := u.(portNumber := v);
    }
    rc := 0;
    if |url| < WIDTH { ShortIsAccepted(url, connect); }
  }

  /** What the first pass finds, it finds in the order of a URL. */
  lemma {:induction false} FirstPassFinds(url: seq<byte>, s: State, p: nat, u: Url, last: Option<Part>)
    returns (s': State, last': Option<Part>)
    requires UrlInv(url, s, p, u, last) && FirstPass(url, s, p, u, last).Some?
    ensures UrlInv(url, s', |url|, FirstPass(url, s, p, u, last).value, last')
    decreases |url| - p
  {
    hide UrlInv, UrlAfter, UrlFields;
    UrlInvWithin(url, s, p, u, last);
    if p == |url| {
      s', last' := s, last;
    } else {
      var t := UrlChar(s, url[p]);
      UrlStep(url, s, p, u, last);
      UrlAfterIs(url, s, p, u, last);
      s', last' := FirstPassFinds(url, t, p + 1, UrlFields(u, t, last, p), if PartOf(t).Some? then PartOf(t) else last);
    }
  }

  lemma UrlInvWithin(url: seq<byte>, s: State, p: nat, u: Url, last: Option<Part>)
    requires UrlInv(url, s, p, u, last)
    ensures p <= |url|
  {}

  lemma FirstFinds(url: seq<byte>, connect: bool) returns (s: State, last: Option<Part>)
    requires First(url, connect).Some?
    ensures UrlInv(url, s, |url|, First(url, connect).value, last)
  {
    hide UrlInv;
    UrlStarts(url);
    s, last := FirstPassFinds(url, StartState(connect), 0, NO_FIELDS, None);
  }

  lemma FirstBounds(url: seq<byte>, connect: bool)
    requires First(url, connect).Some?
    ensures var u := First(url, connect).value;
            && u.port == None && u.userinfo == None && u.portNumber == 0
            && (u.host.Some? ==> EndOf(u.host.value) <= |url| && u.host.value.off % WIDTH + u.host.value.len % WIDTH <= |url|)
  {
    hide First;
    var s, last := FirstFinds(url, connect);
    HostBounds(url, s, First(url, connect).value, last);
  }

  lemma ParsedParts(url: seq<byte>, connect: bool) returns (a: Authority)
    requires Parsed(url, connect).Some? && First(url, connect).value.host.Some?
    ensures var first, u := First(url, connect).value, Parsed(url, connect).value;
            && AuthorityOf(url, first.host.value, SeesAt(url, StartState(connect), 0)) == Some(a)
            && u == first.(userinfo := a.userinfo, host := a.host, port := a.port, portNumber := u.portNumber)
            && u.portNumber == (if a.port.Some? then StrToUl(url, a.port.value.off % WIDTH, 0) else 0) && u.portNumber <= 0xffff
  {
    hide First, SeesAt, AuthorityOf, StrToUl;
    FirstBounds(url, connect);
    a := AuthorityOf(url, First(url, connect).value.host.value, SeesAt(url, StartState(connect), 0)).value;
  }

  /** An authority that fits 16 bits is taken apart where it stands. */
  lemma AuthorityFinds(url: seq<byte>, connect: bool) returns (a: Authority)
    requires Parsed(url, connect).Some? && First(url, connect).value.host.Some? && FieldFits(First(url, connect).value.host)
    ensures var first, u := First(url, connect).value, Parsed(url, connect).value;
            && HostFound(url, first.host.value.off, EndOf(first.host.value), a) && EndOf(first.host.value) <= |url|
            && u == first.(userinfo := a.userinfo, host := a.host, port := a.port, portNumber := u.portNumber)
            && u.portNumber == (if a.port.Some? then StrToUl(url, a.port.value.off % WIDTH, 0) else 0) && u.portNumber <= 0xffff
  {
    hide Parsed, First, SeesAt, SecondPass, StrToUl, HostFound, HostInv;
    ParsedIsFirst(url, connect);
    var host, at := First(url, connect).value.host.value, SeesAt(url, StartState(connect), 0);
    FirstBounds(url, connect);
    a := ParsedParts(url, connect);
    HostStarts(url, host.off);
    SecondPassFinds(url, host.off, if at then UserinfoStart else HostStart, host.off, EndOf(host), NO_AUTHORITY);
  }

  lemma FoundWithin(url: seq<byte>, h: nat, e: nat, a: Authority)
    requires HostFound(url, h, e, a)
    ensures a.host.Some? && (a.port.Some? ==> EndOf(a.port.value) <= e)
  {}

  lemma NoAuthority(url: seq<byte>, connect: bool)
    requires Parsed(url, connect).Some? && First(url, connect).value.host.None?
    ensures First(url, connect).value.schema.None? && Parsed(url, connect).value == First(url, connect).value
  {
    hide First;
    FirstBounds(url, connect);
  }

  /** The fields of a URL that is taken are right when those found fit 16 bits: the authority's before it is taken apart, and the
    * port's. */
  lemma FittingIsAccepted(url: seq<byte>, connect: bool)
    requires Parsed(url, connect).Some? && FieldFits(First(url, connect).value.host) && FieldFits(Parsed(url, connect).value.port)
    ensures Accepted(url, Parsed(url, connect).value)
  {
    hide *;
    ParsedIsFirst(url, connect);
    var s, last := FirstFinds(url, connect);
    var first, u := First(url, connect).value, Parsed(url, connect).value;
    if first.host.None? {
      NoAuthority(url, connect);
      NoHostAccepted(url, s, first, last);
    } else {
      var a := AuthorityFinds(url, connect);
      NotCut(a.port);
      HostAccepted(url, s, first, last, a, u.portNumber);
    }
  }

  lemma NotCut(f: Option<Field>)
    requires FieldFits(f)
    ensures f.Some? ==> f.value.off % WIDTH == f.value.off
  {}

  lemma ParsedIsFirst(url: seq<byte>, connect: bool)
    requires Parsed(url, connect).Some?
    ensures First(url, connect).Some?
  {
    hide First;
  }

  lemma AcceptedFits(url: seq<byte>, u: Url)
    requires Accepted(url, u) && |url| < WIDTH
    ensures UrlFits(u) && CutUrl(u) == u
  {
    hide InOrder, UrlFits, CutUrl, FollowedBy, PrecededBy, PortNumberIs;
    InOrderFits(u, |url|);
    CutIff(u);
  }

  lemma InOrderFits(u: Url, to: nat)
    requires InOrder(u, to) && to < WIDTH
    ensures UrlFits(u)
  {}

  /** So are those of every URL shorter than 65536 bytes. */
  lemma ShortIsAccepted(url: seq<byte>, connect: bool)
    requires Parsed(url, connect).Some? && |url| < WIDTH
    ensures CutUrl(Parsed(url, connect).value) == Parsed(url, connect).value && Accepted(url, Parsed(url, connect).value)
  {
    hide Parsed, First, Accepted, HostFound;
    ParsedIsFirst(url, connect);
    FirstBounds(url, connect);
    var first := First(url, connect).value;
    if first.host.Some? {
      var a := AuthorityFinds(url, connect);
      FoundWithin(url, first.host.value.off, EndOf(first.host.value), a);
    } else {
      NoAuthority(url, connect);
    }
    FittingIsAccepted(url, connect);
    AcceptedFits(url, Parsed(url, connect).value);
  }

  /** What is found is what is stored if and only if it fits. */
  lemma CutIff(u: Url)
    ensures CutUrl(u) == u <==> UrlFits(u)
  {}

  function LongPath(n: nat): (url: seq<byte>)
    ensures |url| == n + 1 && url[0] == SLASH && forall i :: 1 <= i <= n ==> url[i] == 97
  {
    [SLASH] + seq(n, _ => 97)
  }

  lemma {:induction false} LongPathRuns(n: nat, p: nat)
    requires 1 <= p <= n + 1
    ensures FirstPass(LongPath(n), InPath, p, NO_FIELDS.(path := Some(Field(0, p))), Some(PathPart))
         == Some(NO_FIELDS.(path := Some(Field(0, n + 1))))
    decreases n + 1 - p
  {
    if p <= n { LongPathRuns(n, p + 1); }
  }

  /** One that does not: the path of a slash and 65536 letters is stored with the length 1. */
  lemma LongPathIsCut()
    ensures var r := Parsed(LongPath(WIDTH), false);
            && r == Some(NO_FIELDS.(path := Some(Field(0, WIDTH + 1))))
            && CutUrl(r.value).path == Some(Field(0, 1))
  {
    LongPathRuns(WIDTH, 1);
    hide LongPath;
    assert UrlChar(SpacesBeforeUrl, LongPath(WIDTH)[0]) == InPath;
  }

  lemma HostBounds(url: seq<byte>, s: State, u: Url, last: Option<Part>)
    requires UrlInv(url, s, |url|, u, last)
    ensures u.port == None && u.userinfo == None && u.portNumber == 0
    ensures u.host.Some? ==> EndOf(u.host.value) <= |url|
  {
    hide UrlDelims;
  }

  lemma NoHostAccepted(url: seq<byte>, s: State, u: Url, last: Option<Part>)
    requires UrlInv(url, s, |url|, u, last) && u.host.None? && u.schema.None?
    ensures Accepted(url, u) && u.port == None
  {}

  /** The authority's fields take the place of the one field it was. */
  lemma MergedInOrder(u: Url, to: nat, a: Authority, v: nat)
    requires UrlInOrder(u, to) && u.host.Some? && a.host.Some?
    requires AuthorityInOrder(a, u.host.value.off, EndOf(u.host.value))
    ensures InOrder(u.(userinfo := a.userinfo, host := a.host, port := a.port, portNumber := v), to)
  {}

  /** What the first pass leaves when it has come to the end with a host. */
  lemma UrlParts(url: seq<byte>, s: State, u: Url, last: Option<Part>)
    requires UrlInv(url, s, |url|, u, last) && u.host.Some?
    ensures UrlInOrder(u, |url|) && PrecededBy(url, u.query, QUESTION) && PrecededBy(url, u.fragment, HASH)
    ensures u.schema.Some? ==> u.schema.value.off == 0 && FollowedBy(url, u.schema.value, [COLON, SLASH, SLASH])
  {
    hide FollowedBy, UrlInOrder, PrecededBy;
  }

  lemma HostAccepted(url: seq<byte>, s: State, u: Url, last: Option<Part>, a: Authority, v: nat)
    requires UrlInv(url, s, |url|, u, last) && u.host.Some? && HostFound(url, u.host.value.off, EndOf(u.host.value), a)
    requires if a.port.Some? then v == StrToUl(url, a.port.value.off, 0) && v <= 0xffff else v == 0
    ensures Accepted(url, u.(userinfo := a.userinfo, host := a.host, port := a.port, portNumber := v))
  {
    hide UrlInv, UrlInOrder, AuthorityInOrder, InOrder, StrToUl, NumberIn;
    UrlParts(url, s, u, last);
    MergedInOrder(u, |url|, a, v);
    if a.port.Some? {
      PortIsRead(url, s, u, last, a.port.value);
    }
  }

  lemma PortIsRead(url: seq<byte>, s: State, u: Url, last: Option<Part>, port: Field)
    requires UrlInv(url, s, |url|, u, last) && u.host.Some? && EndOf(port) == EndOf(u.host.value) <= |url|
    requires forall i :: port.off <= i < EndOf(port) ==> IsDigit(url[i])
    ensures StrToUl(url, port.off, 0) == NumberIn(url, port)
  {
    assert EndOf(port) == |url| || url[EndOf(port)] == SLASH || url[EndOf(port)] == QUESTION;
    hide UrlInv, StrToUl, DecimalValue;
    StrToUlReads(url, port.off, EndOf(port), 0);
  }

  lemma UrlAfterIs(url: seq<byte>, s: State, p: nat, u: Url, last: Option<Part>)
    requires UrlAfter(url, s, p, u, last)
    ensures p < |url|
    ensures var t := UrlChar(s, url[p]);
            UrlInv(url, t, p + 1, UrlFields(u, t, last, p), if PartOf(t).Some? then PartOf(t) else last)
  {}
}
