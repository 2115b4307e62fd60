/** The body half of the parser as a class: bodies go by in stretches, not bytes, and a stretch is reported when it ends. */
module HttpParser {
  import opened Bytes
  import opened HttpBodySpec
  import opened HttpFraming

  class Parser {
    const head: Head
    var state: State
    var errno: Errno
    var contentLength: nat
    var nread: nat
    var trailing: bool
    // What the callbacks have been given.
    var body: seq<byte>
    var marks: seq<Mark>

    ghost function Value(): Session
      reads this
    {
      Session(state, errno, contentLength, nread, trailing, body, marks)
    }

    /** The parser at the end of the header fields. */
    constructor (h: Head, length: nat, nreadSoFar: nat)
      ensures head == h && Value() == Session(HeadersAlmostDone, NoError, length, nreadSoFar, false, [], [])
    {
      head := h;
      state, errno, contentLength, nread, trailing, body, marks := HeadersAlmostDone, NoError, length, nreadSoFar, false, [], [];
    }

    method Notify(notice: Notice)
      modifies this`marks
      ensures Value() == Noted(old(Value()), notice)
    {
      marks := marks + [Mark(notice, |body|)];
    }

    method Complete() returns (out: Outcome)
      modifies this
      ensures (Value(), out) == HttpBodySpec.MessageDone(head, old(Value()))
    {
      state := NewMessage(head, contentLength);
      Notify(MessageComplete);
      out := if head.upgrade then Exit else Go;
    }

    method EndHeaders() returns (out: Outcome)
      modifies this
      ensures (Value(), out) == HttpBodySpec.HeadersDone(head, old(Value()))
    {
      nread := 0;
      var hasBody := head.chunked || (contentLength > 0 && contentLength != UNSET);
      out := Go;
      if head.upgrade && (head.connect || head.skipBody || !hasBody) {
        state := NewMessage(head, contentLength);
        Notify(MessageComplete);
        return Exit;
      }
      if head.skipBody {
        state := NewMessage(head, contentLength);
        Notify(MessageComplete);
      } else if head.chunked {
        state := ChunkSizeStart;
      } else if contentLength == 0 {
        state := NewMessage(head, contentLength);
        Notify(MessageComplete);
      } else if contentLength != UNSET {
        state := BodyIdentity;
      } else if !NeedsEof(head, contentLength) {
        state := NewMessage(head, contentLength);
        Notify(MessageComplete);
      } else {
        state := BodyIdentityEof;
      }
    }

    method LastHeaderByte(ch: byte) returns (out: Outcome)
      modifies this
      ensures (Value(), out) == HeadersAlmostDoneStep(head, old(Value()), ch)
    {
      if ch != LF { errno := Strict; return Fail; }
      if trailing {
        Notify(ChunkComplete);
        out := Complete();
      } else {
        out := EndHeaders();
      }
    }

    method SizeByte(ch: byte) returns (out: Outcome)
      modifies this
      ensures (Value(), out) == ChunkSizeStep(old(Value()), ch)
    {
      if ch == CR { state := ChunkSizeAlmostDone; return Go; }
      var digit := Unhex(ch);
      if digit == -1 {
        if ch == 59 || ch == 32 { state := ChunkParameters; return Go; }
        errno := InvalidChunkSize;
        return Fail;
      }
      var t := contentLength * 16 + digit;
      if (UNSET - 16) / 16 < contentLength { errno := InvalidContentLength; return Fail; }
      contentLength := t;
      out := Go;
    }

    method SizeLastByte(ch: byte) returns (out: Outcome)
      modifies this
      ensures (Value(), out) == ChunkSizeAlmostDoneStep(old(Value()), ch)
    {
      if ch != LF { errno := Strict; return Fail; }
      nread := 0;
      if contentLength == 0 {
        trailing := true;
        state := HeaderFieldStart;
      } else {
        state := ChunkData;
      }
      Notify(ChunkHeader);
      out := Go;
    }

    /** A byte that is not part of a body: the switch over the states. */
    method FramingByte(ch: byte) returns (out: Outcome)
      requires !Bulk(state)
      modifies this
      ensures (Value(), out) == Step(head, old(Value()), ch)
    {
      out := Go;
      if state == Start || state == HeaderField { return Outside; }
      if ParsingHeader(state) {
        nread := nread + 1;
        if nread > MAX_HEADER_SIZE { errno := HeaderOverflow; return Fail; }
      }
      match state {
        case Dead =>
          if !(ch == CR || ch == LF) { errno := ClosedConnection; return Fail; }
        case HeaderFieldStart =>
          if ch == CR {
            state := HeadersAlmostDone;
          } else if ch == LF {
            out := LastHeaderByte(ch);
          } else if IsToken(ch) {
            state := HeaderField;
          } else {
            errno := InvalidHeaderToken;
            return Fail;
          }
        case HeadersAlmostDone => out := LastHeaderByte(ch);
        case ChunkSizeStart =>
          var digit := Unhex(ch);
          if digit == -1 { errno := InvalidChunkSize; return Fail; }
          contentLength := digit;
          state := ChunkSize;
        case ChunkSize => out := SizeByte(ch);
        case ChunkParameters =>
          if ch == CR { state := ChunkSizeAlmostDone; }
        case ChunkSizeAlmostDone => out := SizeLastByte(ch);
        case ChunkDataDone =>
          if ch != LF { errno := Strict; return Fail; }
          nread := 0;
          state := ChunkSizeStart;
          Notify(ChunkComplete);
        case _ =>
      }
    }

    /** The bytes of a body of known length that are there, up to its last. */
    method IdentityBytes(data: seq<byte>, p: nat, mark: Option<nat>, ghost s0: Session)
      returns (next: nat, waiting: Option<nat>, out: Outcome)
      requires p < |data| && Parsed(head, s0, data, Value(), mark, p) && state.BodyIdentity?
      modifies this
      ensures out.Go? ==> p < next && Parsed(head, s0, data, Value(), waiting, next)
      ensures !out.Go? ==> Stopped(Run(head, s0, data), (Value(), next, out))
    {
      hide Run, Step, Completed;
      var toRead := Min(contentLength, |data| - p);
      if toRead < contentLength {
        IdentityTurn(head, s0, data, Value(), mark, p, toRead);
      } else {
        IdentityLastTurn(head, s0, data, Value(), mark, p, toRead);
      }
      hide Parsed, Ok;
      waiting, out := MarkAt(mark, p), Go;
      contentLength := contentLength - toRead;
      next := p + toRead;
      if contentLength == 0 {
        body := body + data[waiting.value..next];
        waiting := None;
        out := Complete();
      }
    }

    /** The bytes of a chunk that are there, up to its last. */
    method ChunkBytes(data: seq<byte>, p: nat, mark: Option<nat>, ghost s0: Session) returns (next: nat, waiting: Option<nat>)
      requires p < |data| && Parsed(head, s0, data, Value(), mark, p) && state.ChunkData?
      modifies this
      ensures p < next && Parsed(head, s0, data, Value(), waiting, next)
    {
      hide Run, Step;
      var toRead := Min(contentLength, |data| - p);
      ChunkTurn(head, s0, data, Value(), mark, p, toRead);
      hide Parsed, Ok;
      waiting := MarkAt(mark, p);
      contentLength := contentLength - toRead;
      next := p + toRead;
      if contentLength == 0 { state := ChunkDataAlmostDone; }
    }

    /** A byte, or the stretch of body bytes that begins with it. When a chunk's data is not followed by CR, what waits to be
      * reported of it is not reported at all. */
    method Turn(data: seq<byte>, p: nat, mark: Option<nat>, ghost s0: Session)
      returns (next: nat, waiting: Option<nat>, out: Outcome)
      requires p < |data| && Parsed(head, s0, data, Value(), mark, p)
      modifies this
      ensures out.Go? ==> p < next && Parsed(head, s0, data, Value(), waiting, next)
      ensures !out.Go? ==> Stopped(Run(head, s0, data), (Value(), next, out))
    {
      hide Run, Step, Completed, Ok;
      next, waiting, out := p + 1, mark, Go;
      match state {
        case BodyIdentity => next, waiting, out := IdentityBytes(data, p, mark, s0);
        case BodyIdentityEof =>
          EofTurn(head, s0, data, Value(), mark, p);
          hide Parsed;
          if mark == None { waiting := Some(p); }
          next := |data|;
        case ChunkData => next, waiting := ChunkBytes(data, p, mark, s0);
        case ChunkDataAlmostDone =>
          ChunkEndTurn(head, s0, data, Value(), mark, p);
          if data[p] != CR { errno := Strict; return p, mark, Fail; }
          state := ChunkDataDone;
          if mark.Some? { body := body + data[mark.value..p]; }
          waiting := None;
        case _ =>
          FramingTurn(head, s0, data, Value(), mark, p);
          hide Parsed;
          out := FramingByte(data[p]);
          if out.Fail? || out.Outside? { next := p; }
      }
    }

    /** http_parser_execute: what it parses, reports and answers is what the bytes one by one come to. */
    method Execute(data: seq<byte>) returns (parsed: nat, out: Outcome)
      requires errno == NoError ==> Ok(head, Value())
      modifies this
      ensures Stopped(Executed(head, old(Value()), data), (Value(), parsed, out))
    {
      if errno != NoError { return 0, Fail; }
      if data == [] {
        match state {
          case BodyIdentityEof =>
            Notify(MessageComplete);
            return 0, Go;
          case Dead => return 0, Go;
          case Start => return 0, Go;
          case _ =>
            errno := InvalidEofState;
            return 1, Fail;
        }
      }
      ghost var s0 := Value();
      var p, mark: Option<nat> := 0, None;
      Begins(head, s0, data);
      hide Run, Ok;
      while p < |data|
        invariant p <= |data| && Parsed(head, s0, data, Value(), mark, p)
      {
        p, mark, out := Turn(data, p, mark, s0);
        if !out.Go? { return p, out; }
      }
      Finishes(head, s0, data, Value(), mark);
      if mark.Some? { body := body + data[mark.value..p]; }
      return |data|, Go;
    }
  }

  /** How a call left, against the bytes one by one: the same, except for what of a chunk was never reported because the byte
    * after its data was wrong. */
  ghost predicate Stopped(r: (Session, nat, Outcome), got: (Session, nat, Outcome)) {
    && got.1 == r.1 && got.2 == r.2 && got.0 == r.0.(body := got.0.body)
    && (got.0.body == r.0.body || (got.2.Fail? && got.0.state.ChunkDataAlmostDone? && got.0.body <= r.0.body))
  }

  /** The first p bytes are parsed, and the stretch from the mark on is yet to be reported. */
  ghost predicate Parsed(h: Head, s0: Session, data: seq<byte>, s: Session, mark: Option<nat>, p: nat) {
    && p <= |data| && Ok(h, s) && (mark.Some? ==> mark.value <= p && Bulk(s.state))
    && Run(h, s0, data) == Ahead(Run(h, Pending(s, data, mark, p), data[p..]), p)
  }

  lemma Begins(h: Head, s: Session, data: seq<byte>)
    requires Ok(h, s)
    ensures Parsed(h, s, data, s, None, 0)
  {
    assert data[0..] == data;
  }

  lemma Finishes(h: Head, s0: Session, data: seq<byte>, s: Session, mark: Option<nat>)
    requires Parsed(h, s0, data, s, mark, |data|)
    ensures Run(h, s0, data) == (Pending(s, data, mark, |data|), |data|, Go)
  {}

  function MarkAt(mark: Option<nat>, p: nat): Option<nat> { if mark == None then Some(p) else mark }

  /** The waiting stretch with k more bytes. */
  lemma PendingMore(s: Session, data: seq<byte>, mark: Option<nat>, p: nat, k: nat)
    requires p + k <= |data| && (mark.Some? ==> mark.value <= p)
    ensures Pending(s, data, MarkAt(mark, p), p + k) ==
            Pending(s, data, mark, p).(body := Pending(s, data, mark, p).body + data[p..p + k])
  {
    if mark.Some? { assert data[mark.value..p] + data[p..p + k] == data[mark.value..p + k]; }
    assert s.body + [] == s.body;
  }

  lemma ChunkTurn(h: Head, s0: Session, data: seq<byte>, s: Session, mark: Option<nat>, p: nat, k: nat)
    requires Parsed(h, s0, data, s, mark, p) && p < |data| && s.state.ChunkData? && k == Min(s.contentLength, |data| - p)
    ensures 0 < k && Parsed(h, s0, data, s.(contentLength := s.contentLength - k,
                                            state := if s.contentLength == k then ChunkDataAlmostDone else ChunkData),
                            MarkAt(mark, p), p + k)
  {
    hide Run;
    ChunkStretch(h, Pending(s, data, mark, p), data[p..], k);
    PendingMore(s, data, mark, p, k);
    assert data[p..][..k] == data[p..p + k] && data[p..][k..] == data[p + k..];
  }

  lemma IdentityTurn(h: Head, s0: Session, data: seq<byte>, s: Session, mark: Option<nat>, p: nat, k: nat)
    requires Parsed(h, s0, data, s, mark, p) && p < |data| && s.state.BodyIdentity? && k == |data| - p < s.contentLength
    ensures Parsed(h, s0, data, s.(contentLength := s.contentLength - k), MarkAt(mark, p), p + k)
  {
    hide Run;
    IdentityStretch(h, Pending(s, data, mark, p), data[p..], k);
    PendingMore(s, data, mark, p, k);
    assert data[p..][..k] == data[p..p + k] && data[p..][k..] == data[p + k..];
  }

  lemma IdentityLastTurn(h: Head, s0: Session, data: seq<byte>, s: Session, mark: Option<nat>, p: nat, k: nat)
    requires Parsed(h, s0, data, s, mark, p) && p < |data| && s.state.BodyIdentity? && k == s.contentLength <= |data| - p
    ensures 0 < k
    ensures var t := Completed(h, s.(contentLength := 0, body := s.body + data[MarkAt(mark, p).value..p + k]));
            if h.upgrade then Run(h, s0, data) == (t, p + k, Exit) else Parsed(h, s0, data, t, None, p + k)
  {
    hide Run, Completed;
    var q := Pending(s, data, mark, p);
    IdentityStretch(h, q, data[p..], k);
    PendingMore(s, data, mark, p, k);
    assert data[p..][..k] == data[p..p + k] && data[p..][k..] == data[p + k..];
    CompletedOk(h, s.(contentLength := 0, body := s.body + data[MarkAt(mark, p).value..p + k]));
  }

  lemma CompletedOk(h: Head, s: Session)
    requires s.errno.NoError? && s.contentLength == 0
    ensures Ok(h, Completed(h, s))
  {}

  lemma EofTurn(h: Head, s0: Session, data: seq<byte>, s: Session, mark: Option<nat>, p: nat)
    requires Parsed(h, s0, data, s, mark, p) && p < |data| && s.state.BodyIdentityEof?
    ensures Parsed(h, s0, data, s, MarkAt(mark, p), |data|)
  {
    EofRun(h, Pending(s, data, mark, p), data[p..]);
    PendingMore(s, data, mark, p, |data| - p);
    assert data[p..|data|] == data[p..];
    assert Run(h, Pending(s, data, MarkAt(mark, p), |data|), data[|data|..]) == (Pending(s, data, MarkAt(mark, p), |data|), 0, Go);
  }

  lemma ChunkEndStep(h: Head, s: Session, ch: byte)
    requires s.state.ChunkDataAlmostDone? && Ok(h, s)
    ensures Step(h, s, ch) == if ch == CR then (s.(state := ChunkDataDone), Go) else (s.(errno := Strict), Fail)
    ensures Ok(h, s.(state := ChunkDataDone))
  {}

  lemma ChunkEndTurn(h: Head, s0: Session, data: seq<byte>, s: Session, mark: Option<nat>, p: nat)
    requires Parsed(h, s0, data, s, mark, p) && p < |data| && s.state.ChunkDataAlmostDone?
    ensures var t := Pending(s, data, mark, p);
            if data[p] == CR then Parsed(h, s0, data, t.(state := ChunkDataDone), None, p + 1)
            else Run(h, s0, data) == (t.(errno := Strict), p, Fail)
  {
    hide Step;
    var t := Pending(s, data, mark, p);
    assert Ok(h, t) && Ok(h, t.(state := ChunkDataDone));
    ChunkEndStep(h, t, data[p]);
    hide Ok;
    assert data[p..][0] == data[p] && data[p..][1..] == data[p + 1..];
  }

  lemma FramingTurn(h: Head, s0: Session, data: seq<byte>, s: Session, mark: Option<nat>, p: nat)
    requires Parsed(h, s0, data, s, mark, p) && p < |data| && !Bulk(s.state)
    ensures mark == None
    ensures var (t, o) := Step(h, s, data[p]);
            if o.Go? then Parsed(h, s0, data, t, None, p + 1)
            else Run(h, s0, data) == (t, if o.Exit? then p + 1 else p, o)
  {
    hide Step, Ok;
    assert data[p..][0] == data[p] && data[p..][1..] == data[p + 1..];
    if Step(h, s, data[p]).1.Go? { StepKeepsOk(h, s, data[p]); }
  }

  /** The states in which a stretch of body may be waiting to be reported. */
  predicate Bulk(st: State) { st.ChunkData? || st.ChunkDataAlmostDone? || st.BodyIdentity? || st.BodyIdentityEof? }

  /** What has been parsed, with the stretch that waits counted in. */
  ghost function Pending(s: Session, data: seq<byte>, mark: Option<nat>, p: nat): Session {
    if mark.Some? && mark.value <= p <= |data| then s.(body := s.body + data[mark.value..p]) else s
  }

  ghost function Ahead(r: (Session, nat, Outcome), k: nat): (Session, nat, Outcome) { (r.0, r.1 + k, r.2) }

  lemma ChunkStretch(h: Head, s: Session, data: seq<byte>, k: nat)
    requires s.state.ChunkData? && 0 < k <= |data| && k <= s.contentLength
    ensures Run(h, s, data) ==
            Ahead(Run(h, s.(contentLength := s.contentLength - k, body := s.body + data[..k],
                            state := if s.contentLength == k then ChunkDataAlmostDone else ChunkData), data[k..]), k)
  {
    assert data == data[..k] + data[k..];
    DataRun(h, s, data[..k]);
    RunSplit(h, s, data[..k], data[k..]);
  }

  lemma LastBodyByte(h: Head, m: Session, ch: byte)
    requires m.state.BodyIdentity? && m.contentLength == 1
    ensures Run(h, m, [ch]) ==
            (Completed(h, m.(contentLength := 0, body := m.body + [ch])), 1, if h.upgrade then Exit else Go)
  {
    assert [ch][1..] == [];
    assert Step(h, m, ch) == MessageDone(h, BodyByte(m, ch));
    hide Step, Completed;
    assert Run(h, Step(h, m, ch).0, []) == (Step(h, m, ch).0, 0, Go);
  }

  /** A stretch that ends the body, and the message. */
  lemma IdentityEnd(h: Head, s: Session, data: seq<byte>)
    requires s.state.BodyIdentity? && 0 < |data| == s.contentLength
    ensures Run(h, s, data) ==
            (Completed(h, s.(contentLength := 0, body := s.body + data)), |data|, if h.upgrade then Exit else Go)
  {
    hide Step, Run, Completed;
    var k := |data| - 1;
    var m := s.(contentLength := 1, body := s.body + data[..k]);
    var t := Completed(h, s.(contentLength := 0, body := s.body + data));
    assert m.body + [data[k]] == s.body + data;
    LastBodyByte(h, m, data[k]);
    IdentityRun(h, s, data[..k]);
    Then(h, s, data[..k], m, [data[k]], t, if h.upgrade then Exit else Go);
    assert data == data[..k] + [data[k]];
  }

  /** A stretch that is short of the end of the body, or one that ends it. */
  lemma IdentityStretch(h: Head, s: Session, data: seq<byte>, k: nat)
    requires s.state.BodyIdentity? && 0 < k <= |data| && k <= s.contentLength
    ensures var t := s.(contentLength := s.contentLength - k, body := s.body + data[..k]);
            Run(h, s, data) ==
            if k < s.contentLength then Ahead(Run(h, t, data[k..]), k)
            else if h.upgrade then (Completed(h, t), k, Exit)
            else Ahead(Run(h, Completed(h, t), data[k..]), k)
  {
    hide Run, Completed;
    assert data == data[..k] + data[k..];
    if k < s.contentLength {
      IdentityRun(h, s, data[..k]);
      RunSplit(h, s, data[..k], data[k..]);
    } else {
      IdentityEnd(h, s, data[..k]);
      if h.upgrade { RunStops(h, s, data[..k], data[k..]); } else { RunSplit(h, s, data[..k], data[k..]); }
    }
  }
}
