/** What a framed body is (section 4.1 of RFC 7230, without trailers, its numerals as lenient as the parser's), and that the parser takes exactly the body out of it,
  * in whatever pieces it arrives. */
module HttpFraming {
  import opened Bytes
  import opened HttpBodySpec

  /** A chunk as it is sent: any numeral of its size, an optional extension, and the data. */
  datatype Chunk = Chunk(digits: seq<byte>, ext: seq<byte>, data: seq<byte>)

  /** What the table says of a byte in a size line, -1 read as 0. */
  function DigitOf(b: byte): nat { if Unhex(b) < 0 then 0 else Unhex(b) }

  /** The number that v and then the digits denote. */
  function Numeral(v: nat, digits: seq<byte>): (n: nat)
    ensures digits == [] ==> n == v
    ensures digits != [] ==> n >= 16 * v
    decreases |digits|
  {
    if digits == [] then v else Numeral(16 * v + DigitOf(digits[0]), digits[1..])
  }

  /** The bytes that the table takes for digits: the hexadecimal ones, and all from 128 up, for which it has no entry. */
  predicate SizeDigit(b: byte) { IsHexDigit(b) || b >= 128 }

  /** A stretch of a size line that ends neither it nor its number. */
  predicate InNumber(bytes: seq<byte>) { forall i :: 0 <= i < |bytes| ==> bytes[i] != CR && bytes[i] != 59 && bytes[i] != 32 }

  predicate SizeNumber(v: nat, bytes: seq<byte>) {
    (forall i :: 0 <= i < |bytes| ==> SizeDigit(bytes[i])) && Numeral(v, bytes) < UNSET - 15
  }

  /** A size line as the parser takes it: any numeral of the data's size in the digits of its table, small enough for its overflow
    * test, an extension or none, and not too long for a header line. */
  predicate SizeLine(c: Chunk) {
    && c.digits != [] && SizeNumber(0, c.digits) && Numeral(0, c.digits) == |c.data|
    && (c.ext != [] ==> c.ext[0] == 59 || c.ext[0] == 32)
    && (forall i :: 0 <= i < |c.ext| ==> c.ext[i] != CR)
    && |c.digits| + |c.ext| + 2 <= MAX_HEADER_SIZE
  }

  function Encoded(c: Chunk): seq<byte> {
    (c.digits + c.ext) + [CR, LF] + (c.data + [CR, LF])
  }

  /** The chunks, and the last one, which has no data. */
  function EncodedAll(chunks: seq<Chunk>): seq<byte>
    decreases |chunks|
  {
    if chunks == [] then [] else Encoded(chunks[0]) + EncodedAll(chunks[1..])
  }

  function Payload(chunks: seq<Chunk>): seq<byte>
    decreases |chunks|
  {
    if chunks == [] then [] else chunks[0].data + Payload(chunks[1..])
  }

  /** Two stretches of bytes in a row. */
  lemma Then(h: Head, s: Session, a: seq<byte>, t: Session, b: seq<byte>, u: Session, o: Outcome)
    requires Run(h, s, a) == (t, |a|, Go) && Run(h, t, b) == (u, |b|, o)
    ensures Run(h, s, a + b) == (u, |a + b|, o)
  {
    RunSplit(h, s, a, b);
  }

  lemma One(h: Head, s: Session, ch: byte)
    requires Step(h, s, ch).1.Go?
    ensures Run(h, s, [ch]) == (Step(h, s, ch).0, 1, Go)
  {
    assert Run(h, Step(h, s, ch).0, []) == (Step(h, s, ch).0, 0, Go);
    assert [ch][1..] == [];
  }

  lemma {:induction false} ParametersRun(h: Head, s: Session, ext: seq<byte>)
    requires s.state.ChunkParameters? && forall i :: 0 <= i < |ext| ==> ext[i] != CR
    requires s.nread + |ext| <= MAX_HEADER_SIZE
    ensures Run(h, s, ext) == (s.(nread := s.nread + |ext|), |ext|, Go)
    decreases |ext|
  {
    if ext != [] { ParametersRun(h, s.(nread := s.nread + 1), ext[1..]); }
  }

  /** A stretch of chunk data, all that is missing of it or less. */
  lemma {:induction false} DataRun(h: Head, s: Session, data: seq<byte>)
    requires s.state.ChunkData? && s.contentLength >= |data| > 0
    ensures Run(h, s, data) ==
            (s.(contentLength := s.contentLength - |data|, body := s.body + data,
                state := if s.contentLength == |data| then ChunkDataAlmostDone else ChunkData), |data|, Go)
    decreases |data|
  {
    var t := Step(h, s, data[0]).0;
    if |data| == 1 {
      assert data[1..] == [] && data == [data[0]];
    } else {
      DataRun(h, t, data[1..]);
      assert t.body + data[1..] == s.body + data;
    }
  }

  lemma SizeNumberStep(v: nat, bytes: seq<byte>)
    requires bytes != []
    ensures SizeNumber(v, bytes) <==>
            SizeDigit(bytes[0]) && v <= (UNSET - 16) / 16 && SizeNumber(16 * v + DigitOf(bytes[0]), bytes[1..])
  {
    var rest := bytes[1..];
    assert Numeral(v, bytes) >= 16 * v;
    if SizeDigit(bytes[0]) && SizeNumber(16 * v + DigitOf(bytes[0]), rest) {
      forall i | 0 <= i < |bytes| ensures SizeDigit(bytes[i]) {
        if i > 0 { assert rest[i - 1] == bytes[i]; }
      }
    }
  }

  /** Inside a size line the parser goes on exactly over the bytes the table takes for digits, as long as their number is below
    * 2^64 - 16 and the line is not too long for a header line. */
  lemma {:induction false} DigitsIff(h: Head, s: Session, bytes: seq<byte>)
    requires s.state.ChunkSize? && s.contentLength < UNSET - 15 && s.nread <= MAX_HEADER_SIZE && InNumber(bytes)
    ensures Run(h, s, bytes).2.Go? <==> SizeNumber(s.contentLength, bytes) && s.nread + |bytes| <= MAX_HEADER_SIZE
    ensures Run(h, s, bytes).2.Go? ==>
            Run(h, s, bytes).0 == s.(contentLength := Numeral(s.contentLength, bytes), nread := s.nread + |bytes|)
    decreases |bytes|
  {
    if bytes != [] {
      SizeNumberStep(s.contentLength, bytes);
      var t := s.(contentLength := 16 * s.contentLength + DigitOf(bytes[0]), nread := s.nread + 1);
      if SizeDigit(bytes[0]) && s.contentLength <= (UNSET - 16) / 16 && s.nread < MAX_HEADER_SIZE {
        assert Step(h, s, bytes[0]) == (t, Go);
        hide Step, SizeNumber;
        DigitsIff(h, t, bytes[1..]);
      } else {
        assert !Step(h, s, bytes[0]).1.Go?;
      }
    }
  }

  /** From the start of a size line: any bytes but CR, ';' and ' ' are taken if and only if each is a hexadecimal digit or at
    * least 128 and their number, such bytes read as 0, is below 2^64 - 16. */
  lemma SizeLineIff(h: Head, s: Session, bytes: seq<byte>)
    requires s.state.ChunkSizeStart? && s.nread == 0 && InNumber(bytes) && bytes != []
    ensures Run(h, s, bytes).2.Go? <==> SizeNumber(0, bytes) && |bytes| <= MAX_HEADER_SIZE
    ensures Run(h, s, bytes).2.Go? ==>
            Run(h, s, bytes).0 == s.(state := ChunkSize, contentLength := Numeral(0, bytes), nread := |bytes|)
  {
    SizeNumberStep(0, bytes);
    var t := s.(state := ChunkSize, contentLength := DigitOf(bytes[0]), nread := 1);
    if SizeDigit(bytes[0]) {
      assert Step(h, s, bytes[0]) == (t, Go);
      hide Step, SizeNumber;
      DigitsIff(h, t, bytes[1..]);
    } else {
      assert !Step(h, s, bytes[0]).1.Go?;
    }
  }

  /** So what is taken is a numeral of section 4.1 of RFC 7230 if and only if no byte of it is 128 or more. */
  lemma SizeIsNumeralIff(h: Head, s: Session, bytes: seq<byte>)
    requires s.state.ChunkSizeStart? && s.nread == 0 && InNumber(bytes) && bytes != []
    requires Run(h, s, bytes).2.Go?
    ensures (forall i :: 0 <= i < |bytes| ==> IsHexDigit(bytes[i])) <==> (forall i :: 0 <= i < |bytes| ==> bytes[i] < 128)
  {
    SizeLineIff(h, s, bytes);
    hide Run, Numeral;
    assert forall i :: 0 <= i < |bytes| ==> SizeDigit(bytes[i]);
  }

  /** One that is not: a '5' and a byte 128 are taken for the size 80. */
  lemma HighByteIsDigit(h: Head, s: Session)
    requires s.state.ChunkSizeStart? && s.nread == 0
    ensures Run(h, s, [53, 128]) == (s.(state := ChunkSize, contentLength := 80, nread := 2), 2, Go)
  {
    SizeLineIff(h, s, [53, 128]);
    assert [53 as byte, 128][1..] == [128] && [128 as byte][1..] == [];
    assert Numeral(0, [53, 128]) == Numeral(5, [128]) == Numeral(80, []) == 80;
  }

  lemma SizeDigits(h: Head, s: Session, c: Chunk)
    requires s.state.ChunkSizeStart? && s.nread == 0 && SizeLine(c)
    ensures Run(h, s, c.digits) ==
            (s.(state := ChunkSize, contentLength := |c.data|, nread := |c.digits|), |c.digits|, Go)
  {
    hide Run, Step, Numeral;
    assert forall i :: 0 <= i < |c.digits| ==> SizeDigit(c.digits[i]);
    SizeLineIff(h, s, c.digits);
  }

  /** The state after an extension, or after none. */
  function Extended(s: Session, ext: seq<byte>): Session {
    if ext == [] then s else s.(state := ChunkParameters, nread := s.nread + |ext|)
  }

  lemma ExtensionRun(h: Head, s: Session, c: Chunk)
    requires s.state.ChunkSize? && SizeLine(c) && s.nread == |c.digits|
    ensures Run(h, s, c.ext) == (Extended(s, c.ext), |c.ext|, Go)
  {
    hide Numeral;
    if c.ext != [] {
      var t := s.(state := ChunkParameters, nread := s.nread + 1);
      assert Step(h, s, c.ext[0]) == (t, Go);
      ParametersRun(h, t, c.ext[1..]);
    }
  }

  /** CR LF after the size line: the chunk's data begins, or after the last chunk the trailer. */
  lemma SizeEnd(h: Head, s: Session)
    requires (s.state.ChunkSize? || s.state.ChunkParameters?) && s.nread + 2 <= MAX_HEADER_SIZE
    ensures Run(h, s, [CR, LF]) == (AfterSize(s), 2, Go)
  {
    var t := s.(state := ChunkSizeAlmostDone, nread := s.nread + 1);
    assert Step(h, s, CR) == (t, Go) && Step(h, t, LF) == (AfterSize(s), Go);
    One(h, s, CR);
    One(h, t, LF);
    Then(h, s, [CR], t, [LF], AfterSize(s), Go);
    assert [CR] + [LF] == [CR, LF];
  }

  function AfterSize(s: Session): Session {
    Noted(s.(nread := 0, trailing := s.trailing || s.contentLength == 0,
             state := if s.contentLength == 0 then HeaderFieldStart else ChunkData), ChunkHeader)
  }

  /** The size line of a chunk. */
  lemma SizeLineRun(h: Head, s: Session, c: Chunk)
    requires s.state.ChunkSizeStart? && s.nread == 0 && SizeLine(c)
    ensures Run(h, s, c.digits + c.ext + [CR, LF]) == (AfterSize(s.(contentLength := |c.data|)), |c.digits| + |c.ext| + 2, Go)
  {
    hide Run, Numeral, Step;
    var s1 := s.(state := ChunkSize, contentLength := |c.data|, nread := |c.digits|);
    var s2 := Extended(s1, c.ext);
    SizeDigits(h, s, c);
    ExtensionRun(h, s1, c);
    SizeEnd(h, s2);
    Then(h, s, c.digits, s1, c.ext, s2, Go);
    Then(h, s, c.digits + c.ext, s2, [CR, LF], AfterSize(s2), Go);
  }

  /** What a chunk leaves behind: its data in the body, and two notices. */
  function AfterChunk(s: Session, data: seq<byte>): Session {
    s.(contentLength := 0, body := s.body + data,
       marks := s.marks + [Mark(ChunkHeader, |s.body|)] + [Mark(ChunkComplete, |s.body| + |data|)])
  }

  lemma DataEnd(h: Head, s: Session)
    requires s.state.ChunkDataAlmostDone?
    ensures Run(h, s, [CR, LF]) == (Noted(s.(nread := 0, state := ChunkSizeStart), ChunkComplete), 2, Go)
  {
    var t := s.(state := ChunkDataDone);
    var u := Noted(s.(nread := 0, state := ChunkSizeStart), ChunkComplete);
    assert Step(h, s, CR) == (t, Go) && Step(h, t, LF) == (u, Go);
    One(h, s, CR);
    One(h, t, LF);
    Then(h, s, [CR], t, [LF], u, Go);
    assert [CR] + [LF] == [CR, LF];
  }

  lemma ChunkRun(h: Head, s: Session, c: Chunk)
    requires s.state.ChunkSizeStart? && s.nread == 0 && SizeLine(c) && c.data != []
    ensures Run(h, s, Encoded(c)) == (AfterChunk(s, c.data), |Encoded(c)|, Go)
  {
    hide Run, Numeral, Step;
    var s1 := AfterSize(s.(contentLength := |c.data|));
    var s2 := s1.(contentLength := 0, body := s.body + c.data, state := ChunkDataAlmostDone);
    SizeLineRun(h, s, c);
    DataRun(h, s1, c.data);
    DataEnd(h, s2);
    Then(h, s1, c.data, s2, [CR, LF], AfterChunk(s, c.data), Go);
    Then(h, s, c.digits + c.ext + [CR, LF], s1, c.data + [CR, LF], AfterChunk(s, c.data), Go);
  }

  function AfterChunks(s: Session, chunks: seq<Chunk>): Session
    decreases |chunks|
  {
    if chunks == [] then s else AfterChunks(AfterChunk(s, chunks[0].data), chunks[1..])
  }

  lemma {:induction false} ChunksRun(h: Head, s: Session, chunks: seq<Chunk>)
    requires s.state.ChunkSizeStart? && s.nread == 0
    requires forall i :: 0 <= i < |chunks| ==> SizeLine(chunks[i]) && chunks[i].data != []
    ensures Run(h, s, EncodedAll(chunks)) == (AfterChunks(s, chunks), |EncodedAll(chunks)|, Go)
    decreases |chunks|
  {
    hide SizeLine, Step, Encoded;
    if chunks != [] {
      var t := AfterChunk(s, chunks[0].data);
      ChunkRun(h, s, chunks[0]);
      ChunksRun(h, t, chunks[1..]);
      Then(h, s, Encoded(chunks[0]), t, EncodedAll(chunks[1..]), AfterChunks(t, chunks[1..]), Go);
    }
  }

  /** The chunks' data is the body, and the message is not complete yet. */
  lemma {:induction false} ChunksBody(s: Session, chunks: seq<Chunk>)
    ensures var t := AfterChunks(s, chunks);
            && t.body == s.body + Payload(chunks) && t.state == s.state && t.nread == s.nread && t.trailing == s.trailing
            && t.errno == s.errno && s.marks <= t.marks
            && forall m <- t.marks[|s.marks|..] :: !m.notice.MessageComplete?
    decreases |chunks|
  {
    if chunks != [] {
      var t, u := AfterChunk(s, chunks[0].data), AfterChunks(s, chunks);
      ChunksBody(t, chunks[1..]);
      assert (s.body + chunks[0].data) + Payload(chunks[1..]) == s.body + Payload(chunks);
      hide AfterChunks, Payload;
      ChunkMarks(s, t, u, chunks[0].data);
    }
  }

  lemma ChunkMarks(s: Session, t: Session, u: Session, data: seq<byte>)
    requires t == AfterChunk(s, data) && t.marks <= u.marks && forall m <- u.marks[|t.marks|..] :: !m.notice.MessageComplete?
    ensures s.marks <= u.marks && forall m <- u.marks[|s.marks|..] :: !m.notice.MessageComplete?
  {
    assert t.marks[|s.marks|..] == [Mark(ChunkHeader, |s.body|), Mark(ChunkComplete, |s.body| + |data|)];
    assert u.marks[|s.marks|..] == t.marks[|s.marks|..] + u.marks[|t.marks|..];
  }

  /** The last chunk and the empty trailer, but for the last byte. */
  lemma LastRun(h: Head, s: Session, last: Chunk)
    requires s.state.ChunkSizeStart? && s.nread == 0 && SizeLine(last) && last.data == []
    ensures Run(h, s, last.digits + last.ext + [CR, LF] + [CR]) ==
            (BeforeEnd(s), |last.digits| + |last.ext| + 3, Go)
    ensures Run(h, BeforeEnd(s), [LF]) == (Ended(h, s), 1, if h.upgrade then Exit else Go)
  {
    var s1 := AfterSize(s.(contentLength := 0));
    assert Step(h, s1, CR) == (BeforeEnd(s), Go);
    One(h, s1, CR);
    assert Step(h, BeforeEnd(s), LF) == (Ended(h, s), if h.upgrade then Exit else Go);
    assert [LF][1..] == [];
    SizeLineRun(h, s, last);
    hide Step, Run, SizeLine;
    Then(h, s, last.digits + last.ext + [CR, LF], s1, [CR], BeforeEnd(s), Go);
  }

  function BeforeEnd(s: Session): Session {
    s.(contentLength := 0, nread := 1, trailing := true, state := HeadersAlmostDone, marks := s.marks + [Mark(ChunkHeader, |s.body|)])
  }

  /** The end of a chunked message: the last chunk's notice, and the message's. */
  function Ended(h: Head, s: Session): Session {
    s.(contentLength := 0, nread := 2, trailing := true, state := NewMessage(h, 0),
       marks := s.marks + [Mark(ChunkHeader, |s.body|)] + [Mark(ChunkComplete, |s.body|)] + [Mark(MessageComplete, |s.body|)])
  }

  /** Just before the line feed that ends the header fields. */
  predicate AtHeadersEnd(s: Session) {
    s.state.HeadersAlmostDone? && !s.trailing && s.nread < MAX_HEADER_SIZE && s.errno.NoError? && s.contentLength <= UNSET
  }

  /** Where the parser stands behind a message whose end it has seen: at the next message if the connection stays open, which
    * HTTP/1.1 does unless it says close, and HTTP/1.0 if it says keep-alive. */
  function NextState(h: Head): State { if (if h.major > 0 && h.minor > 0 then !h.close else h.keepAlive) then Start else Dead }

  lemma NextIs(h: Head, contentLength: nat)
    requires contentLength != UNSET || HasNoBody(h, contentLength)
    ensures NewMessage(h, contentLength) == NextState(h)
  {}

  /** A message that has no body: it was told to have none, its length is 0, or it has no length and is a request or a response
    * of those that never have one. */
  predicate HasNoBody(h: Head, contentLength: nat) {
    h.skipBody || (!h.chunked && (contentLength == 0 || (contentLength == UNSET && (h.isRequest || StatusHasNoBody(h.status)))))
  }

  predicate StatusHasNoBody(status: nat) { 100 <= status < 200 || status == 204 || status == 304 }

  /** A response with neither chunks nor a length, which ends with its connection. */
  predicate ReadsToEnd(h: Head, contentLength: nat) {
    !h.isRequest && !StatusHasNoBody(h.status) && !h.skipBody && !h.chunked && contentLength == UNSET
  }

  /** The message goes on in this protocol, with a body if its framing has one. */
  predicate HasBodyHere(h: Head) { !h.skipBody && !(h.upgrade && h.connect) }

  predicate Framed(chunks: seq<Chunk>, last: Chunk) {
    && (forall i :: 0 <= i < |chunks| ==> SizeLine(chunks[i]) && chunks[i].data != [])
    && SizeLine(last) && last.data == []
  }

  /** All of a chunked body but its last byte, after the line feed that ends the header fields. */
  function WireButLast(chunks: seq<Chunk>, last: Chunk): seq<byte> {
    ([LF] + EncodedAll(chunks)) + (last.digits + last.ext + [CR, LF] + [CR])
  }

  /** A run that has not completed the message, and the run that the last byte then makes of it. */
  ghost predicate OneMore(h: Head, s: Session, data: seq<byte>, last: byte, t: Session, body: seq<byte>) {
    var (m, n, o) := Run(h, s, data);
    && o.Go? && n == |data| && s.marks <= m.marks && s.body <= m.body <= s.body + body
    && (forall k <- m.marks[|s.marks|..] :: !k.notice.MessageComplete?)
    && Run(h, m, [last]) == (t, 1, if h.upgrade then Exit else Go)
    && t.body == s.body + body && t.errno.NoError? && t.state == NextState(h) && m.marks <= t.marks && t.marks != m.marks
    && t.marks[|t.marks| - 1] == Mark(MessageComplete, |t.body|)
    && (forall k <- t.marks[|m.marks|..|t.marks| - 1] :: !k.notice.MessageComplete?)
  }

  lemma ChunkedRun(h: Head, s: Session, chunks: seq<Chunk>, last: Chunk)
    requires AtHeadersEnd(s) && h.chunked && HasBodyHere(h) && Framed(chunks, last)
    ensures OneMore(h, s, WireButLast(chunks, last), LF, Run(h, s, WireButLast(chunks, last) + [LF]).0, Payload(chunks))
  {
    var s0 := s.(nread := 0, state := ChunkSizeStart);
    var s1 := AfterChunks(s0, chunks);
    var m, t := BeforeEnd(s1), Ended(h, s1);
    var o := if h.upgrade then Exit else Go;
    assert Step(h, s, LF) == (s0, Go);
    One(h, s, LF);
    ChunksBody(s0, chunks);
    hide Run, Step, SizeLine, AfterChunks, Payload;
    ChunksRun(h, s0, chunks);
    LastRun(h, s1, last);
    Then(h, s, [LF], s0, EncodedAll(chunks), s1, Go);
    Then(h, s, [LF] + EncodedAll(chunks), s1, last.digits + last.ext + [CR, LF] + [CR], m, Go);
    Then(h, s, WireButLast(chunks, last), m, [LF], t, o);
    MarksOfLast(s, s1, m, t, h);
    NextIs(h, 0);
  }

  lemma MarksOfLast(s: Session, s1: Session, m: Session, t: Session, h: Head)
    requires s.marks <= s1.marks && (forall k <- s1.marks[|s.marks|..] :: !k.notice.MessageComplete?)
    requires m == BeforeEnd(s1) && t == Ended(h, s1)
    ensures s.marks <= m.marks && (forall k <- m.marks[|s.marks|..] :: !k.notice.MessageComplete?)
    ensures m.marks <= t.marks && (forall k <- t.marks[|m.marks|..|t.marks| - 1] :: !k.notice.MessageComplete?)
  {
    assert m.marks[|s.marks|..] == s1.marks[|s.marks|..] + [Mark(ChunkHeader, |s1.body|)];
    assert t.marks[|m.marks|..|t.marks| - 1] == [Mark(ChunkComplete, |s1.body|)];
  }

  /** What pieces of the wire leave behind: part of it nothing complete, all of it the body, complete once and at the end. */
  ghost predicate Delivers(h: Head, s: Session, wire: seq<byte>, body: seq<byte>, pieces: seq<seq<byte>>) {
    var (t, o) := ExecutedAll(h, s, pieces);
    && s.body <= t.body <= s.body + body && s.marks <= t.marks && t.errno.NoError?
    && (Flatten(pieces) < wire ==> o.Go? && forall k <- t.marks[|s.marks|..] :: !k.notice.MessageComplete?)
    && (Flatten(pieces) == wire ==>
          && t.body == s.body + body && o == (if h.upgrade then Exit else Go) && t.state == NextState(h)
          && |s.marks| < |t.marks| && t.marks[|t.marks| - 1] == Mark(MessageComplete, |t.body|)
          && forall k <- t.marks[|s.marks|..|t.marks| - 1] :: !k.notice.MessageComplete?)
  }

  /** A chunked body, cut into calls in any way: on_body sees the chunks' data, all of it and in order, and on_message_complete
    * comes once, with the last byte. */
  lemma ChunkedBody(h: Head, s: Session, chunks: seq<Chunk>, last: Chunk, pieces: seq<seq<byte>>)
    requires AtHeadersEnd(s) && h.chunked && HasBodyHere(h) && Framed(chunks, last)
    requires (forall i :: 0 <= i < |pieces| ==> pieces[i] != []) && Flatten(pieces) <= WireButLast(chunks, last) + [LF]
    ensures Delivers(h, s, WireButLast(chunks, last) + [LF], Payload(chunks), pieces)
  {
    hide *;
    ChunkedRun(h, s, chunks, last);
    HeadersEndOk(h, s);
    Deliver(h, s, WireButLast(chunks, last), LF, Run(h, s, WireButLast(chunks, last) + [LF]).0, Payload(chunks), pieces);
  }

  lemma HeadersEndOk(h: Head, s: Session)
    requires AtHeadersEnd(s)
    ensures Ok(h, s)
  {}

  ghost predicate Grows(s: Session, t: Session) { s.marks <= t.marks && s.body <= t.body }

  lemma HeadersGrow(h: Head, s: Session, ch: byte)
    ensures Grows(s, HeadersAlmostDoneStep(h, s, ch).0)
  {
    hide NeedsEof, ShouldKeepAlive, NewMessage;
  }

  lemma BodyByteGrows(s: Session, ch: byte)
    ensures Grows(s, BodyByte(s, ch)) && s.body <= s.body + [ch]
  {}

  lemma DispatchGrows(h: Head, s: Session, ch: byte)
    ensures Grows(s, Dispatch(h, s, ch).0)
  {
    hide HeadersAlmostDoneStep, BodyByte, Unhex, IsToken, NewMessage;
    HeadersGrow(h, s, ch);
    BodyByteGrows(s, ch);
  }

  lemma StepGrows(h: Head, s: Session, ch: byte)
    ensures Grows(s, Step(h, s, ch).0)
  {
    hide Dispatch, ParsingHeader;
    DispatchGrows(h, s, ch);
    DispatchGrows(h, s.(nread := s.nread + 1), ch);
  }

  /** Callbacks only add to what was delivered. */
  lemma {:induction false} RunGrows(h: Head, s: Session, data: seq<byte>)
    ensures s.marks <= Run(h, s, data).0.marks && s.body <= Run(h, s, data).0.body
    decreases |data|
  {
    hide Step;
    if data != [] {
      StepGrows(h, s, data[0]);
      RunGrows(h, Step(h, s, data[0]).0, data[1..]);
    }
  }

  lemma RunPrefix(h: Head, s: Session, a: seq<byte>, b: seq<byte>)
    requires Run(h, s, a + b).2.Go?
    ensures Run(h, s, a).2.Go? && Run(h, s, a + b).0 == Run(h, Run(h, s, a).0, b).0
  {
    hide Run;
    if !Run(h, s, a).2.Go? { RunStops(h, s, a, b); } else { RunSplit(h, s, a, b); }
  }

  lemma Deliver(h: Head, s: Session, data: seq<byte>, last: byte, t: Session, body: seq<byte>, pieces: seq<seq<byte>>)
    requires Ok(h, s) && OneMore(h, s, data, last, t, body)
    requires (forall i :: 0 <= i < |pieces| ==> pieces[i] != []) && Flatten(pieces) <= data + [last]
    ensures Delivers(h, s, data + [last], body, pieces)
  {
    hide *;
    AnySplit(h, s, pieces);
    var got := Flatten(pieces);
    if got == data + [last] {
      DeliverAll(h, s, data, last, t, body, pieces);
    } else {
      assert got == data[..|got|] && data == got + data[|got|..];
      DeliverPart(h, s, data, last, t, body, pieces, data[|got|..]);
    }
  }

  lemma DeliverAll(h: Head, s: Session, data: seq<byte>, last: byte, t: Session, body: seq<byte>, pieces: seq<seq<byte>>)
    requires OneMore(h, s, data, last, t, body) && Flatten(pieces) == data + [last]
    requires ExecutedAll(h, s, pieces) == (Run(h, s, Flatten(pieces)).0, Run(h, s, Flatten(pieces)).2)
    ensures Delivers(h, s, data + [last], body, pieces)
  {
    hide Run, ExecutedAll, Flatten, NextState;
    var m := Run(h, s, data).0;
    Then(h, s, data, m, [last], t, if h.upgrade then Exit else Go);
    assert t.marks[|s.marks|..|t.marks| - 1] == m.marks[|s.marks|..] + t.marks[|m.marks|..|t.marks| - 1];
  }

  lemma DeliverPart(h: Head, s: Session, data: seq<byte>, last: byte, t: Session, body: seq<byte>, pieces: seq<seq<byte>>,
                    rest: seq<byte>)
    requires Ok(h, s) && OneMore(h, s, data, last, t, body) && data == Flatten(pieces) + rest
    requires ExecutedAll(h, s, pieces) == (Run(h, s, Flatten(pieces)).0, Run(h, s, Flatten(pieces)).2)
    ensures Delivers(h, s, data + [last], body, pieces)
  {
    hide Run, ExecutedAll, Flatten, NextState, Ok;
    var got := Flatten(pieces);
    var p, m := Run(h, s, got).0, Run(h, s, data).0;
    RunPrefix(h, s, got, rest);
    RunGrows(h, s, got);
    RunGrows(h, p, rest);
    RunKeepsOk(h, s, got);
    OkHasNoError(h, p);
    assert p.marks[|s.marks|..] <= m.marks[|s.marks|..];
  }

  lemma OkHasNoError(h: Head, s: Session)
    requires Ok(h, s)
    ensures s.errno.NoError?
  {}

  lemma {:induction false} IdentityRun(h: Head, s: Session, data: seq<byte>)
    requires s.state.BodyIdentity? && s.contentLength > |data|
    ensures Run(h, s, data) == (s.(contentLength := s.contentLength - |data|, body := s.body + data), |data|, Go)
    decreases |data|
  {
    if data == [] {
      assert s.body + data == s.body;
    } else {
      var t := Step(h, s, data[0]).0;
      IdentityRun(h, t, data[1..]);
      assert t.body + data[1..] == s.body + data;
    }
  }

  /** A body of a given length, cut into calls in any way: on_body sees exactly that many bytes, and the message is complete
    * with the last of them. */
  lemma LengthBody(h: Head, s: Session, data: seq<byte>, pieces: seq<seq<byte>>)
    requires AtHeadersEnd(s) && !h.chunked && HasBodyHere(h) && s.contentLength == |data| && 0 < |data| < UNSET
    requires (forall i :: 0 <= i < |pieces| ==> pieces[i] != []) && Flatten(pieces) <= [LF] + data
    ensures Delivers(h, s, [LF] + data, data, pieces)
  {
    hide *;
    var n := |data| - 1;
    LengthRun(h, s, data);
    HeadersEndOk(h, s);
    FrontAndLast(data);
    Deliver(h, s, [LF] + data[..n], data[n], Run(h, s, [LF] + data).0, data, pieces);
  }

  lemma FrontAndLast(data: seq<byte>)
    requires data != []
    ensures [LF] + data == ([LF] + data[..|data| - 1]) + [data[|data| - 1]]
  {}

  lemma LengthRun(h: Head, s: Session, data: seq<byte>)
    requires AtHeadersEnd(s) && !h.chunked && HasBodyHere(h) && s.contentLength == |data| && 0 < |data| < UNSET
    ensures OneMore(h, s, [LF] + data[..|data| - 1], data[|data| - 1], Run(h, s, [LF] + data).0, data)
  {
    var n := |data| - 1;
    var s0 := s.(nread := 0, state := BodyIdentity);
    var m := s0.(contentLength := 1, body := s.body + data[..n]);
    var t := Completed(h, BodyByte(m, data[n]));
    assert Step(h, s, LF) == (s0, Go);
    One(h, s, LF);
    LastBodyByte(h, m, data[n]);
    hide Step, Completed, NextState;
    IdentityRun(h, s0, data[..n]);
    Then(h, s, [LF], s0, data[..n], m, Go);
    assert data == data[..n] + [data[n]];
    Then(h, s, [LF] + data[..n], m, [data[n]], t, if h.upgrade then Exit else Go);
    FrontAndLast(data);
  }

  lemma LastBodyByte(h: Head, m: Session, ch: byte)
    requires m.state.BodyIdentity? && m.contentLength == 1
    ensures var t := Completed(h, BodyByte(m, ch));
            && Run(h, m, [ch]) == (t, 1, if h.upgrade then Exit else Go) && t.body == m.body + [ch] && t.errno == m.errno
            && t.state == NextState(h) && t.marks == m.marks + [Mark(MessageComplete, |t.body|)]
  {
    NextIs(h, 0);
    hide NextState, NewMessage;
    assert [ch][1..] == [];
  }

  /** A response without a length: everything up to the end of the connection is the body. */
  lemma {:induction false} EofRun(h: Head, s: Session, data: seq<byte>)
    requires s.state.BodyIdentityEof?
    ensures Run(h, s, data) == (s.(body := s.body + data), |data|, Go)
    decreases |data|
  {
    if data == [] {
      assert s.body + data == s.body;
    } else {
      EofRun(h, s.(body := s.body + [data[0]]), data[1..]);
      assert s.body + [data[0]] + data[1..] == s.body + data;
    }
  }

  lemma EofBody(h: Head, s: Session, data: seq<byte>, pieces: seq<seq<byte>>)
    requires AtHeadersEnd(s) && !h.upgrade && ReadsToEnd(h, s.contentLength)
    requires (forall i :: 0 <= i < |pieces| ==> pieces[i] != []) && Flatten(pieces) == [LF] + data
    ensures var (t, o) := ExecutedAll(h, s, pieces);
            && o.Go? && t.body == s.body + data && t.marks == s.marks
            && Executed(h, t, []) == (Noted(t, MessageComplete), 0, Go)
  {
    var s0 := s.(nread := 0, state := BodyIdentityEof);
    assert Step(h, s, LF) == (s0, Go);
    One(h, s, LF);
    EofRun(h, s0, data);
    Then(h, s, [LF], s0, data, s0.(body := s.body + data), Go);
    AnySplit(h, s, pieces);
  }

  /** A message without a body: the line feed that ends its header fields completes it, once, with nothing for on_body. */
  lemma NoBody(h: Head, s: Session, pieces: seq<seq<byte>>)
    requires AtHeadersEnd(s) && HasNoBody(h, s.contentLength)
    requires (forall i :: 0 <= i < |pieces| ==> pieces[i] != []) && Flatten(pieces) <= [LF]
    ensures Delivers(h, s, [LF], [], pieces)
  {
    hide *;
    NoBodyRun(h, s);
    HeadersEndOk(h, s);
    assert [] + [LF] == [LF];
    Deliver(h, s, [], LF, Run(h, s, [LF]).0, [], pieces);
  }

  lemma NoBodyStep(h: Head, s: Session)
    requires AtHeadersEnd(s) && HasNoBody(h, s.contentLength)
    ensures Step(h, s, LF) == (Completed(h, s.(nread := 0)), if h.upgrade then Exit else Go)
    ensures Completed(h, s.(nread := 0)).state == NextState(h)
  {
    NextIs(h, s.contentLength);
    hide NextState, NewMessage;
  }

  lemma NoBodyLast(h: Head, s: Session) returns (t: Session)
    requires AtHeadersEnd(s) && HasNoBody(h, s.contentLength)
    ensures Run(h, s, []) == (s, 0, Go) && Run(h, s, [LF]) == (t, 1, if h.upgrade then Exit else Go)
    ensures t.body == s.body && t.errno == s.errno && t.state == NextState(h) && t.marks == s.marks + [Mark(MessageComplete, |s.body|)]
  {
    NoBodyStep(h, s);
    hide Step, NextState, NewMessage, HasNoBody;
    t := Completed(h, s.(nread := 0));
    assert [LF][1..] == [];
  }

  lemma NoBodyRun(h: Head, s: Session)
    requires AtHeadersEnd(s) && HasNoBody(h, s.contentLength)
    ensures OneMore(h, s, [], LF, Run(h, s, [LF]).0, [])
  {
    var t := NoBodyLast(h, s);
    hide Run, NextState, HasNoBody;
    assert s.body + [] == s.body && t.marks[|s.marks|..|t.marks| - 1] == [] && s.marks[|s.marks|..] == [];
  }

  /** A message that changes the protocol completes at the same place, and the parser leaves: when it is a CONNECT, or has no
    * body that would be framed. */
  lemma UpgradeLeaves(h: Head, s: Session)
    requires AtHeadersEnd(s) && h.upgrade
    requires h.connect || h.skipBody || (!h.chunked && (s.contentLength == 0 || s.contentLength == UNSET))
    ensures var (t, n, o) := Run(h, s, [LF]);
            && n == 1 && o.Exit? && t.body == s.body && t.marks == s.marks + [Mark(MessageComplete, |s.body|)]
            && t.state == if ReadsToEnd(h, s.contentLength) then Dead else NextState(h)
  {
    assert [LF][1..] == [];
  }

  /** So what stands at the end of the header fields is settled for every message. */
  lemma EveryMessage(h: Head, s: Session)
    requires AtHeadersEnd(s)
    ensures
      || HasNoBody(h, s.contentLength)
      || (h.upgrade && (h.connect || (!h.chunked && s.contentLength == UNSET)))
      || (HasBodyHere(h) && h.chunked)
      || (HasBodyHere(h) && !h.chunked && 0 < s.contentLength < UNSET)
      || (!h.upgrade && ReadsToEnd(h, s.contentLength))
  {}
}
