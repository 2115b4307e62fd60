/** The body half of http_parser_execute (lib_http/http_parser.c), one byte at a time: what follows the header fields. */
module HttpBodySpec {
  import opened Bytes

  const CR: byte := 13
  const LF: byte := 10

  /** Content-Length not given. */
  const UNSET: nat := 0xFFFF_FFFF_FFFF_FFFF

  const MAX_HEADER_SIZE: nat := 80 * 1024

  /** `Start` is the next message's first line and `HeaderField` a field name; the model does not go on from either. */
  datatype State =
    | Dead | Start | HeaderFieldStart | HeaderField | HeadersAlmostDone
    | ChunkSizeStart | ChunkSize | ChunkParameters | ChunkSizeAlmostDone
    | ChunkData | ChunkDataAlmostDone | ChunkDataDone
    | BodyIdentity | BodyIdentityEof

  datatype Errno =
    | NoError | Strict | InvalidHeaderToken | HeaderOverflow | InvalidChunkSize | InvalidContentLength
    | ClosedConnection | InvalidEofState

  /** What the request line and the header fields have settled. */
  datatype Head = Head(isRequest: bool, connect: bool, upgrade: bool, status: nat, major: nat, minor: nat,
                       keepAlive: bool, close: bool, chunked: bool, skipBody: bool)

  datatype Notice = ChunkHeader | ChunkComplete | MessageComplete

  /** A callback, and how much of the body the callbacks had seen by then. */
  datatype Mark = Mark(notice: Notice, at: nat)

  datatype Session = Session(state: State, errno: Errno, contentLength: nat, nread: nat, trailing: bool,
                             body: seq<byte>, marks: seq<Mark>)

  /** Go on to the next byte; leave on an error, before the byte; leave after it, for another protocol; or leave the model. */
  datatype Outcome = Go | Fail | Exit | Outside

  predicate ParsingHeader(st: State) {
    match st
    case ChunkData => false
    case ChunkDataAlmostDone => false
    case ChunkDataDone => false
    case BodyIdentity => false
    case BodyIdentityEof => false
    case _ => true
  }

  /** The value of a hexadecimal digit, or -1. The table names 128 bytes; the others read as 0. */
  function Unhex(b: byte): int {
    if 48 <= b <= 57 then b as int - 48
    else if 65 <= b <= 70 then b as int - 55
    else if 97 <= b <= 102 then b as int - 87
    else if b < 128 then -1 else 0
  }

  predicate IsToken(b: byte) {
    48 <= b <= 57 || 65 <= b <= 90 || 94 <= b <= 122 || b == 124 || b == 126 || b == 33 || 35 <= b <= 39 || b == 42 || b == 43
    || b == 45 || b == 46
  }

  predicate NeedsEof(h: Head, contentLength: nat) {
    !h.isRequest && h.status / 100 != 1 && h.status != 204 && h.status != 304 && !h.skipBody && !h.chunked && contentLength == UNSET
  }

  predicate ShouldKeepAlive(h: Head, contentLength: nat) {
    && (if h.major > 0 && h.minor > 0 then !h.close else h.keepAlive)
    && !NeedsEof(h, contentLength)
  }

  function NewMessage(h: Head, contentLength: nat): State {
    if ShouldKeepAlive(h, contentLength) then Start else Dead
  }

  function Noted(s: Session, notice: Notice): Session {
    s.(marks := s.marks + [Mark(notice, |s.body|)])
  }

  function Failed(s: Session, e: Errno): (Session, Outcome) {
    (s.(errno := e), Fail)
  }

  function Completed(h: Head, s: Session): Session {
    Noted(s.(state := NewMessage(h, s.contentLength)), MessageComplete)
  }

  /** s_message_done. */
  function MessageDone(h: Head, s: Session): (Session, Outcome) {
    (Completed(h, s), if h.upgrade then Exit else Go)
  }

  /** s_headers_done. */
  function HeadersDone(h: Head, s: Session): (Session, Outcome) {
    var t := s.(nread := 0);
    var hasBody := h.chunked || (s.contentLength > 0 && s.contentLength != UNSET);
    if h.upgrade && (h.connect || h.skipBody || !hasBody) then (Completed(h, t), Exit)
    else if h.skipBody then (Completed(h, t), Go)
    else if h.chunked then (t.(state := ChunkSizeStart), Go)
    else if s.contentLength == 0 then (Completed(h, t), Go)
    else if s.contentLength != UNSET then (t.(state := BodyIdentity), Go)
    else if !NeedsEof(h, s.contentLength) then (Completed(h, t), Go)
    else (t.(state := BodyIdentityEof), Go)
  }

  function HeadersAlmostDoneStep(h: Head, s: Session, ch: byte): (Session, Outcome) {
    if ch != LF then Failed(s, Strict)
    else if s.trailing then MessageDone(h, Noted(s, ChunkComplete))
    else HeadersDone(h, s)
  }

  function ChunkSizeStep(s: Session, ch: byte): (Session, Outcome) {
    if ch == CR then (s.(state := ChunkSizeAlmostDone), Go)
    else if Unhex(ch) == -1 then
      if ch == 59 || ch == 32 then (s.(state := ChunkParameters), Go) else Failed(s, InvalidChunkSize)
    else if (UNSET - 16) / 16 < s.contentLength then Failed(s, InvalidContentLength)
    else (s.(contentLength := s.contentLength * 16 + Unhex(ch)), Go)
  }

  function ChunkSizeAlmostDoneStep(s: Session, ch: byte): (Session, Outcome) {
    if ch != LF then Failed(s, Strict)
    else if s.contentLength == 0 then
      (Noted(s.(nread := 0, trailing := true, state := HeaderFieldStart), ChunkHeader), Go)
    else (Noted(s.(nread := 0, state := ChunkData), ChunkHeader), Go)
  }

  /** One byte of a body, counted off. */
  function BodyByte(s: Session, ch: byte): Session {
    s.(contentLength := if s.contentLength > 0 then s.contentLength - 1 else 0, body := s.body + [ch])
  }

  function Dispatch(h: Head, s: Session, ch: byte): (Session, Outcome) {
    match s.state
    case Dead => if ch == CR || ch == LF then (s, Go) else Failed(s, ClosedConnection)
    case Start => (s, Outside)
    case HeaderField => (s, Outside)
    case HeaderFieldStart =>
      if ch == CR then (s.(state := HeadersAlmostDone), Go)
      else if ch == LF then HeadersAlmostDoneStep(h, s, ch)
      else if IsToken(ch) then (s.(state := HeaderField), Go) else Failed(s, InvalidHeaderToken)
    case HeadersAlmostDone => HeadersAlmostDoneStep(h, s, ch)
    case ChunkSizeStart =>
      if Unhex(ch) == -1 then Failed(s, InvalidChunkSize) else (s.(contentLength := Unhex(ch), state := ChunkSize), Go)
    case ChunkSize => ChunkSizeStep(s, ch)
    case ChunkParameters => (if ch == CR then s.(state := ChunkSizeAlmostDone) else s, Go)
    case ChunkSizeAlmostDone => ChunkSizeAlmostDoneStep(s, ch)
    case ChunkData => (BodyByte(s, ch).(state := if s.contentLength == 1 then ChunkDataAlmostDone else ChunkData), Go)
    case ChunkDataAlmostDone => if ch != CR then Failed(s, Strict) else (s.(state := ChunkDataDone), Go)
    case ChunkDataDone =>
      if ch != LF then Failed(s, Strict) else (Noted(s.(nread := 0, state := ChunkSizeStart), ChunkComplete), Go)
    case BodyIdentity => if s.contentLength == 1 then MessageDone(h, BodyByte(s, ch)) else (BodyByte(s, ch), Go)
    case BodyIdentityEof => (s.(body := s.body + [ch]), Go)
  }

  /** One byte: header bytes are counted first. */
  function Step(h: Head, s: Session, ch: byte): (Session, Outcome) {
    if s.state.Start? || s.state.HeaderField? then (s, Outside)
    else if ParsingHeader(s.state) then
      var t := s.(nread := s.nread + 1);
      if t.nread > MAX_HEADER_SIZE then Failed(t, HeaderOverflow) else Dispatch(h, t, ch)
    else Dispatch(h, s, ch)
  }

  /** The bytes of one call, how many of them were parsed, and how the call left. */
  function Run(h: Head, s: Session, data: seq<byte>): (r: (Session, nat, Outcome))
    ensures r.1 <= |data| && (r.2.Go? ==> r.1 == |data|)
    decreases |data|
  {
    if data == [] then (s, 0, Go)
    else
      var (t, out) := Step(h, s, data[0]);
      match out
      case Go => var (u, n, o) := Run(h, t, data[1..]); (u, n + 1, o)
      case Exit => (t, 1, Exit)
      case _ => (t, 0, out)
  }

  /** A call with no bytes says that the connection has ended. */
  function AtEof(h: Head, s: Session): (Session, nat, Outcome) {
    match s.state
    case BodyIdentityEof => (Noted(s, MessageComplete), 0, Go)
    case Dead => (s, 0, Go)
    case Start => (s, 0, Go)
    case _ => (s.(errno := InvalidEofState), 1, Fail)
  }

  /** http_parser_execute. */
  function Executed(h: Head, s: Session, data: seq<byte>): (Session, nat, Outcome) {
    if !s.errno.NoError? then (s, 0, Fail)
    else if data == [] then AtEof(h, s)
    else Run(h, s, data)
  }

  predicate InChunks(st: State) {
    st.ChunkSizeStart? || st.ChunkSize? || st.ChunkParameters? || st.ChunkSizeAlmostDone? || st.ChunkData? || st.ChunkDataAlmostDone?
    || st.ChunkDataDone?
  }

  /** A body is in progress only while bytes of it are missing, a chunk size starts a count of its own, and chunks come only in
    * a message that announced them. */
  predicate Ok(h: Head, s: Session) {
    && s.errno.NoError?
    && (InChunks(s.state) ==> h.chunked)
    && (s.state.ChunkData? || s.state.BodyIdentity? ==> 0 < s.contentLength < UNSET)
    && (s.state.ChunkDataAlmostDone? ==> s.contentLength == 0)
    && (s.state.ChunkSizeStart? ==> s.nread == 0)
    && (s.state.ChunkSize? || s.state.ChunkParameters? || s.state.ChunkSizeAlmostDone? ==> s.contentLength < UNSET)
    && s.contentLength <= UNSET
  }

  lemma HeadersKeepOk(h: Head, s: Session, ch: byte)
    requires Ok(h, s) && HeadersAlmostDoneStep(h, s, ch).1.Go?
    ensures Ok(h, HeadersAlmostDoneStep(h, s, ch).0)
  {}

  /** The assertions in the code hold at every byte. */
  lemma StepKeepsOk(h: Head, s: Session, ch: byte)
    requires Ok(h, s) && Step(h, s, ch).1.Go?
    ensures Ok(h, Step(h, s, ch).0)
  {
    hide HeadersAlmostDoneStep, IsToken, ShouldKeepAlive;
    if s.state.HeadersAlmostDone? || s.state.HeaderFieldStart? {
      var t := s.(nread := s.nread + 1);
      if HeadersAlmostDoneStep(h, t, ch).1.Go? { HeadersKeepOk(h, t, ch); }
    }
  }

  /** Bytes parsed in one call are bytes parsed in two. */
  lemma {:induction false} RunSplit(h: Head, s: Session, a: seq<byte>, b: seq<byte>)
    requires Run(h, s, a).2.Go?
    ensures var (t, _, _) := Run(h, s, a); var (u, n, o) := Run(h, t, b); Run(h, s, a + b) == (u, |a| + n, o)
    decreases |a|
  {
    if a == [] {
      assert a + b == b;
    } else {
      assert (a + b)[1..] == a[1..] + b;
      RunSplit(h, Step(h, s, a[0]).0, a[1..], b);
    }
  }

  lemma {:induction false} RunKeepsOk(h: Head, s: Session, data: seq<byte>)
    requires Ok(h, s) && Run(h, s, data).2.Go?
    ensures Ok(h, Run(h, s, data).0)
    decreases |data|
  {
    if data != [] {
      StepKeepsOk(h, s, data[0]);
      RunKeepsOk(h, Step(h, s, data[0]).0, data[1..]);
    }
  }

  /** One call after another, as long as each parses all it is given. */
  function ExecutedAll(h: Head, s: Session, pieces: seq<seq<byte>>): (Session, Outcome)
    decreases |pieces|
  {
    if pieces == [] then (s, Go)
    else
      var (t, _, o) := Executed(h, s, pieces[0]);
      if o.Go? then ExecutedAll(h, t, pieces[1..]) else (t, o)
  }

  /** However the bytes are cut into calls that are not empty, the session ends the same. */
  lemma {:induction false} AnySplit(h: Head, s: Session, pieces: seq<seq<byte>>)
    requires Ok(h, s) && forall i :: 0 <= i < |pieces| ==> pieces[i] != []
    ensures ExecutedAll(h, s, pieces) == (Run(h, s, Flatten(pieces)).0, Run(h, s, Flatten(pieces)).2)
    decreases |pieces|
  {
    if pieces != [] {
      var (t, n, o) := Run(h, s, pieces[0]);
      if o.Go? {
        RunKeepsOk(h, s, pieces[0]);
        RunSplit(h, s, pieces[0], Flatten(pieces[1..]));
        AnySplit(h, t, pieces[1..]);
      } else {
        RunStops(h, s, pieces[0], Flatten(pieces[1..]));
      }
    }
  }

  /** A call that stops early would have stopped there with more bytes too. */
  lemma {:induction false} RunStops(h: Head, s: Session, a: seq<byte>, b: seq<byte>)
    requires !Run(h, s, a).2.Go?
    ensures Run(h, s, a + b) == Run(h, s, a)
    decreases |a|
  {
    assert (a + b)[0] == a[0] && (a + b)[1..] == a[1..] + b;
    if Step(h, s, a[0]).1.Go? { RunStops(h, Step(h, s, a[0]).0, a[1..], b); }
  }
}
