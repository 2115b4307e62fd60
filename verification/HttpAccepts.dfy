/** The other direction of the framing: what the parser takes for a whole chunked message is framed as one, and a connection that
  * ends inside a message is an error. */
module HttpAccepts {
  import opened Bytes
  import opened HttpBodySpec
  import opened HttpFraming

  /** The empty trailer ends with a line feed, with or without a carriage return. */
  function Wire(chunks: seq<Chunk>, last: Chunk, bare: bool): seq<byte> {
    EncodedAll(chunks) + (last.digits + last.ext + [CR, LF] + if bare then [LF] else [CR, LF])
  }

  predicate HasNoComplete(marks: seq<Mark>) { forall k <- marks :: !k.notice.MessageComplete? }

  /** The callbacks of a step complete the message. */
  predicate Ends(s: Session, t: Session) { s.marks <= t.marks && !HasNoComplete(t.marks[|s.marks|..]) }

  predicate GoesOn(s: Session, t: Session) { s.marks <= t.marks && HasNoComplete(t.marks[|s.marks|..]) }

  /** The parser takes all of these bytes, and completes the message with the last of them, not before. */
  predicate Completes(h: Head, s: Session, w: seq<byte>)
    decreases |w|
  {
    w != [] &&
    var (t, o) := Step(h, s, w[0]);
    if |w| == 1 then (o.Go? || o.Exit?) && Ends(s, t) else o.Go? && GoesOn(s, t) && Completes(h, t, w[1..])
  }

  lemma MarksSplit(a: seq<Mark>, b: seq<Mark>, c: seq<Mark>)
    requires a <= b <= c
    ensures c[|a|..] == b[|a|..] + c[|b|..]
  {}

  lemma GoesOnTwice(s: Session, t: Session, u: Session)
    requires GoesOn(s, t) && GoesOn(t, u)
    ensures GoesOn(s, u)
  {
    MarksSplit(s.marks, t.marks, u.marks);
  }

  /** Where the parser stands once a part of them is parsed. */
  lemma {:induction false} CompletesRest(h: Head, s: Session, a: seq<byte>, b: seq<byte>) returns (t: Session)
    requires Completes(h, s, a + b) && b != []
    ensures Run(h, s, a) == (t, |a|, Go) && Completes(h, t, b) && GoesOn(s, t)
    decreases |a|
  {
    if a == [] {
      assert a + b == b;
      t := s;
    } else {
      assert (a + b)[0] == a[0] && (a + b)[1..] == a[1..] + b;
      hide Step;
      t := CompletesRest(h, Step(h, s, a[0]).0, a[1..], b);
      GoesOnTwice(s, Step(h, s, a[0]).0, t);
    }
  }

  /** In terms of runs. */
  lemma {:induction false} CompletesRuns(h: Head, s: Session, w: seq<byte>)
    requires Completes(h, s, w)
    ensures var (t, n, o) := Run(h, s, w); n == |w| && (o.Go? || o.Exit?) && Ends(s, t)
    decreases |w|
  {
    var t := Step(h, s, w[0]).0;
    hide Step;
    if |w| > 1 {
      CompletesRuns(h, t, w[1..]);
      var u := Run(h, t, w[1..]).0;
      MarksSplit(s.marks, t.marks, u.marks);
      var k :| k in u.marks[|t.marks|..] && k.notice.MessageComplete?;
      assert k in u.marks[|s.marks|..];
    } else {
      assert w[1..] == [];
    }
  }

  /** The first byte from i on that ends the number of a size line. */
  function NumberEnd(w: seq<byte>, i: nat): (k: nat)
    requires i <= |w|
    ensures i <= k <= |w| && InNumber(w[i..k]) && (k < |w| ==> w[k] == CR || w[k] == 59 || w[k] == 32)
    decreases |w| - i
  {
    if i == |w| || w[i] == CR || w[i] == 59 || w[i] == 32 then i
    else
      var k := NumberEnd(w, i + 1);
      assert w[i..k] == [w[i]] + w[i + 1..k];
      k
  }

  function LineEnd(w: seq<byte>, i: nat): (k: nat)
    requires i <= |w|
    ensures i <= k <= |w| && (forall j :: i <= j < k ==> w[j] != CR) && (k < |w| ==> w[k] == CR)
    decreases |w| - i
  {
    if i == |w| || w[i] == CR then i else LineEnd(w, i + 1)
  }

  /** While a size line is read nothing is called back. */
  lemma {:induction false} ParametersTake(h: Head, s: Session, ext: seq<byte>)
    requires s.state.ChunkParameters? && (forall i :: 0 <= i < |ext| ==> ext[i] != CR) && s.nread <= MAX_HEADER_SIZE
    ensures Run(h, s, ext).2.Go? <==> s.nread + |ext| <= MAX_HEADER_SIZE
    ensures Run(h, s, ext).2.Go? ==> Run(h, s, ext).0 == s.(nread := s.nread + |ext|)
    decreases |ext|
  {
    if ext != [] && s.nread < MAX_HEADER_SIZE { ParametersTake(h, s.(nread := s.nread + 1), ext[1..]); }
  }

  lemma CompletesOne(h: Head, s: Session, w: seq<byte>)
    requires Completes(h, s, w)
    ensures w != [] && !Step(h, s, w[0]).1.Fail? && !Step(h, s, w[0]).1.Outside?
    ensures !Ends(s, Step(h, s, w[0]).0) ==> |w| > 1 && Step(h, s, w[0]).1.Go? && Completes(h, Step(h, s, w[0]).0, w[1..])
    ensures Ends(s, Step(h, s, w[0]).0) ==> |w| == 1
  {
    hide Step;
  }

  /** The states in which a byte calls nothing back. */
  predicate Silent(st: State) {
    st.ChunkSizeStart? || st.ChunkSize? || st.ChunkParameters? || st.ChunkData? || st.ChunkDataAlmostDone?
  }

  lemma SilentStep(h: Head, s: Session, ch: byte)
    requires Silent(s.state)
    ensures Step(h, s, ch).0.marks == s.marks && !Ends(s, Step(h, s, ch).0)
  {}

  /** So the message is not complete with a byte over which the parser was silent. */
  lemma NotLast(h: Head, s: Session, w: seq<byte>) returns (t: Session)
    requires Completes(h, s, w)
    ensures w != [] && Run(h, s, w[..|w| - 1]) == (t, |w| - 1, Go) && !Silent(t.state)
  {
    var n := |w| - 1;
    assert w == w[..n] + [w[n]];
    t := CompletesRest(h, s, w[..n], [w[n]]);
    CompletesOne(h, t, [w[n]]);
    if Silent(t.state) { SilentStep(h, t, w[n]); }
  }

  /** The number of a size line. */
  lemma NumberTaken(h: Head, s: Session, w: seq<byte>) returns (k: nat)
    requires s.state.ChunkSizeStart? && s.nread == 0 && Completes(h, s, w)
    ensures 0 < k < |w| && InNumber(w[..k]) && SizeNumber(0, w[..k]) && (w[k] == CR || w[k] == 59 || w[k] == 32)
    ensures k <= MAX_HEADER_SIZE
    ensures Completes(h, s.(state := ChunkSize, contentLength := Numeral(0, w[..k]), nread := k), w[k..])
  {
    k := NumberEnd(w, 0);
    CompletesOne(h, s, w);
    assert Unhex(w[0]) != -1;
    hide Step, Numeral, Completes, SizeNumber;
    assert w[0..k] == w[..k] && w[..0] == [];
    if k == |w| {
      var t := NotLast(h, s, w);
      if k > 1 { SizeLineIff(h, s, w[..k - 1]); }
      assert false;
    }
    assert w == w[..k] + w[k..];
    var t := CompletesRest(h, s, w[..k], w[k..]);
    SizeLineIff(h, s, w[..k]);
  }

  lemma ParametersTaken(h: Head, s: Session, w: seq<byte>) returns (j: nat)
    requires s.state.ChunkParameters? && s.nread <= MAX_HEADER_SIZE && Completes(h, s, w)
    ensures j < |w| && w[j] == CR && (forall i :: 0 <= i < j ==> w[i] != CR) && s.nread + j <= MAX_HEADER_SIZE
    ensures Completes(h, s.(nread := s.nread + j), w[j..])
  {
    hide Step, Completes;
    j := LineEnd(w, 0);
    if j == |w| {
      var t := NotLast(h, s, w);
      ParametersTake(h, s, w[..|w| - 1]);
      assert false;
    }
    assert w == w[..j] + w[j..];
    var t := CompletesRest(h, s, w[..j], w[j..]);
    ParametersTake(h, s, w[..j]);
  }

  lemma ExtensionBegins(h: Head, s: Session, ch: byte)
    requires s.state.ChunkSize? && (ch == 59 || ch == 32) && !Step(h, s, ch).1.Fail?
    ensures var p := s.(state := ChunkParameters, nread := s.nread + 1);
            s.nread < MAX_HEADER_SIZE && Step(h, s, ch) == (p, Go) && !Ends(s, p)
  {}

  /** An extension, or none. */
  lemma ExtensionTaken(h: Head, s: Session, w: seq<byte>) returns (j: nat)
    requires s.state.ChunkSize? && Completes(h, s, w) && w != [] && (w[0] == CR || w[0] == 59 || w[0] == 32)
    requires s.nread <= MAX_HEADER_SIZE
    ensures j < |w| && w[j] == CR && (forall i :: 0 <= i < j ==> w[i] != CR) && s.nread + j <= MAX_HEADER_SIZE
    ensures Completes(h, Extended(s, w[..j]), w[j..])
  {
    if w[0] == CR {
      assert w[0..] == w && w[..0] == [];
      j := 0;
    } else {
      var p := s.(state := ChunkParameters, nread := s.nread + 1);
      CompletesOne(h, s, w);
      ExtensionBegins(h, s, w[0]);
      hide Step, Completes, Ends;
      var i := ParametersTaken(h, p, w[1..]);
      j := i + 1;
      assert w[1..][i..] == w[j..] && w[1..][i] == w[j];
      forall k | 0 <= k < j ensures w[k] != CR { if k > 0 { assert w[1..][k - 1] == w[k]; } }
    }
  }

  /** The two bytes behind a size line. */
  lemma SizeEndTaken(h: Head, s: Session, w: seq<byte>)
    requires (s.state.ChunkSize? || s.state.ChunkParameters?) && Completes(h, s, w) && w[0] == CR
    ensures |w| > 2 && w[..2] == [CR, LF] && s.nread + 2 <= MAX_HEADER_SIZE && Completes(h, AfterSize(s), w[2..])
  {
    var a := s.(state := ChunkSizeAlmostDone, nread := s.nread + 1);
    CompletesOne(h, s, w);
    assert Step(h, s, CR) == (a, Go) && !Ends(s, a);
    CompletesOne(h, a, w[1..]);
    assert w[1..][0] == w[1] && w[1..][1..] == w[2..];
    assert w[1] == LF && Step(h, a, LF) == (AfterSize(s), Go);
    assert AfterSize(s).marks[|a.marks|..] == [Mark(ChunkHeader, |s.body|)];
  }

  /** A chunk's data, and the two bytes behind it. */
  lemma DataTaken(h: Head, s: Session, w: seq<byte>)
    requires s.state.ChunkData? && s.contentLength > 0 && Completes(h, s, w)
    ensures var n := s.contentLength;
            && |w| > n + 2 && w[n..n + 2] == [CR, LF]
            && Completes(h, Noted(s.(contentLength := 0, body := s.body + w[..n], nread := 0, state := ChunkSizeStart), ChunkComplete), w[n + 2..])
  {
    var n := s.contentLength;
    hide Completes;
    assert w[..0] == [];
    if |w| <= n {
      var t := NotLast(h, s, w);
      if |w| > 1 { DataRun(h, s, w[..|w| - 1]); }
      assert false;
    }
    assert w == w[..n] + w[n..];
    var t := CompletesRest(h, s, w[..n], w[n..]);
    DataRun(h, s, w[..n]);
    DataEndTaken(h, t, w[n..]);
    assert w[n..][..2] == w[n..n + 2] && w[n..][2..] == w[n + 2..];
  }

  lemma DataEndTaken(h: Head, s: Session, w: seq<byte>)
    requires s.state.ChunkDataAlmostDone? && Completes(h, s, w)
    ensures |w| > 2 && w[..2] == [CR, LF]
    ensures Completes(h, Noted(s.(nread := 0, state := ChunkSizeStart), ChunkComplete), w[2..])
  {
    var a, b := s.(state := ChunkDataDone), Noted(s.(nread := 0, state := ChunkSizeStart), ChunkComplete);
    CompletesOne(h, s, w);
    assert w[0] == CR && Step(h, s, CR) == (a, Go) && !Ends(s, a);
    CompletesOne(h, a, w[1..]);
    assert w[1..][0] == w[1] && w[1..][1..] == w[2..];
    assert w[1] == LF && Step(h, a, LF) == (b, Go);
    assert b.marks[|a.marks|..] == [Mark(ChunkComplete, |s.body|)];
  }

  /** The trailer of a message that completes here is empty. */
  lemma TrailerTaken(h: Head, s: Session, w: seq<byte>)
    requires s.state.HeaderFieldStart? && s.trailing && Completes(h, s, w)
    ensures w == [LF] || w == [CR, LF]
  {
    CompletesOne(h, s, w);
    hide ShouldKeepAlive;
    var t := Step(h, s, w[0]).0;
    if w[0] == LF {
      DoneEnds(s, t);
    } else {
      assert t.marks == s.marks && !Ends(s, t);
      CompletesOne(h, t, w[1..]);
      assert w[0] == CR && w[1..][0] == w[1] == LF;
      DoneEnds(t, Step(h, t, LF).0);
    }
  }

  lemma DoneEnds(s: Session, t: Session)
    requires t.marks == s.marks + [Mark(ChunkComplete, |s.body|)] + [Mark(MessageComplete, |s.body|)]
    ensures Ends(s, t)
  {
    assert t.marks[|s.marks|..][1].notice.MessageComplete?;
  }

  lemma AfterSizeSame(u: Session, s: Session)
    requires u == s.(state := u.state, nread := u.nread)
    ensures AfterSize(u) == AfterSize(s)
  {}

  lemma Reassembled(w: seq<byte>, k: nat, j: nat)
    requires k + j + 2 <= |w| && w[k..][j..][..2] == [CR, LF]
    ensures w == w[..k] + w[k..][..j] + [CR, LF] + w[k..][j..][2..]
  {
    var x := w[k..];
    var y := x[j..];
    assert w == w[..k] + x && x == x[..j] + y && y == y[..2] + y[2..];
  }

  /** The size line of a chunk. */
  lemma ChunkTaken(h: Head, s: Session, w: seq<byte>) returns (digits: seq<byte>, ext: seq<byte>, rest: seq<byte>)
    requires s.state.ChunkSizeStart? && s.nread == 0 && Completes(h, s, w)
    ensures w == digits + ext + [CR, LF] + rest && rest != [] && digits != [] && InNumber(digits) && SizeNumber(0, digits)
    ensures (ext != [] ==> ext[0] == 59 || ext[0] == 32) && (forall i :: 0 <= i < |ext| ==> ext[i] != CR)
    ensures |digits| + |ext| + 2 <= MAX_HEADER_SIZE
    ensures Completes(h, AfterSize(s.(contentLength := Numeral(0, digits))), rest)
  {
    hide Completes, Numeral, SizeNumber, InNumber, AfterSize;
    var k := NumberTaken(h, s, w);
    digits := w[..k];
    var t := s.(state := ChunkSize, contentLength := Numeral(0, digits), nread := k);
    var j := ExtensionTaken(h, t, w[k..]);
    ext := w[k..][..j];
    var u := Extended(t, ext);
    SizeEndTaken(h, u, w[k..][j..]);
    rest := w[k..][j..][2..];
    AfterSizeSame(u, s.(contentLength := Numeral(0, digits)));
    Reassembled(w, k, j);
  }

  /** A chunk with its data, or the last one with the trailer. */
  lemma NextTaken(h: Head, s: Session, w: seq<byte>) returns (c: Chunk, rest: seq<byte>, u: Session)
    requires s.state.ChunkSizeStart? && s.nread == 0 && Completes(h, s, w)
    ensures SizeLine(c)
    ensures c.data != [] ==> w == Encoded(c) + rest && u.state.ChunkSizeStart? && u.nread == 0 && Completes(h, u, rest)
    ensures c.data == [] ==> w == c.digits + c.ext + [CR, LF] + rest && (rest == [LF] || rest == [CR, LF])
  {
    hide Completes, Numeral, SizeNumber, InNumber;
    var digits, ext, more := ChunkTaken(h, s, w);
    var n := Numeral(0, digits);
    var t := AfterSize(s.(contentLength := n));
    if n == 0 {
      TrailerTaken(h, t, more);
      c, rest, u := Chunk(digits, ext, []), more, t;
    } else {
      DataTaken(h, t, more);
      c, rest := Chunk(digits, ext, more[..n]), more[n + 2..];
      u := Noted(t.(contentLength := 0, body := t.body + more[..n], nread := 0, state := ChunkSizeStart), ChunkComplete);
      assert more == more[..n] + more[n..n + 2] + rest;
      assert w == Encoded(c) + rest;
    }
  }

  /** What completes a chunked message, from its first size line on, is chunks, a last chunk and an empty trailer: nothing else
    * is taken. */
  lemma {:induction false} CompletedIsFramed(h: Head, s: Session, w: seq<byte>) returns (chunks: seq<Chunk>, last: Chunk, bare: bool)
    requires s.state.ChunkSizeStart? && s.nread == 0 && Completes(h, s, w)
    ensures Framed(chunks, last) && w == Wire(chunks, last, bare)
    decreases |w|
  {
    hide Completes, SizeLine;
    var c, rest, u := NextTaken(h, s, w);
    if c.data == [] {
      chunks, last, bare := [], c, rest == [LF];
    } else {
      var more;
      more, last, bare := CompletedIsFramed(h, u, rest);
      chunks := [c] + more;
      OneMoreChunk(c, more, last, bare);
    }
  }

  lemma OneMoreChunk(c: Chunk, chunks: seq<Chunk>, last: Chunk, bare: bool)
    requires Framed(chunks, last) && SizeLine(c) && c.data != []
    ensures Framed([c] + chunks, last) && Wire([c] + chunks, last, bare) == Encoded(c) + Wire(chunks, last, bare)
  {
    hide SizeLine, Encoded;
    assert ([c] + chunks)[1..] == chunks;
  }

  /** Conversely, bytes that are parsed without a completion before the last one, and with one there. */
  lemma {:induction false} RunsComplete(h: Head, s: Session, a: seq<byte>, ch: byte)
    requires Run(h, s, a).2.Go? && GoesOn(s, Run(h, s, a).0)
    requires var (t, o) := Step(h, Run(h, s, a).0, ch); (o.Go? || o.Exit?) && Ends(Run(h, s, a).0, t)
    ensures Completes(h, s, a + [ch])
    decreases |a|
  {
    var w := a + [ch];
    if a != [] {
      var t, m := Step(h, s, a[0]).0, Run(h, s, a).0;
      assert w[0] == a[0] && w[1..] == a[1..] + [ch];
      StepGrows(h, s, a[0]);
      RunGrows(h, t, a[1..]);
      hide Step;
      MarksSplit(s.marks, t.marks, m.marks);
      RunsComplete(h, t, a[1..], ch);
    }
  }

  lemma FramedCompletes(h: Head, s: Session, chunks: seq<Chunk>, last: Chunk, bare: bool)
    requires s.state.ChunkSizeStart? && s.nread == 0 && Framed(chunks, last)
    ensures Completes(h, s, Wire(chunks, last, bare))
  {
    hide SizeLine, AfterChunks, Completes, Run, Step, Ends;
    var s1 := AfterChunks(s, chunks);
    var front := last.digits + last.ext + [CR, LF];
    ChunksBody(s, chunks);
    ChunksRun(h, s, chunks);
    var t := AfterSize(s1.(contentLength := 0));
    SizeLineRun(h, s1, last);
    Then(h, s, EncodedAll(chunks), s1, front, t, Go);
    LastFeed(h, s1, bare);
    LastMarks(s, s1, t);
    if bare {
      RunsComplete(h, s, EncodedAll(chunks) + front, LF);
      assert Wire(chunks, last, bare) == EncodedAll(chunks) + front + [LF];
    } else {
      Then(h, s, EncodedAll(chunks) + front, t, [CR], BeforeEnd(s1), Go);
      RunsComplete(h, s, EncodedAll(chunks) + front + [CR], LF);
      assert Wire(chunks, last, bare) == EncodedAll(chunks) + front + [CR] + [LF];
    }
  }

  lemma LastMarks(s: Session, s1: Session, t: Session)
    requires s.marks <= s1.marks && (forall k <- s1.marks[|s.marks|..] :: !k.notice.MessageComplete?)
    requires t.marks == s1.marks + [Mark(ChunkHeader, |s1.body|)]
    ensures GoesOn(s, t) && t.marks == BeforeEnd(s1).marks && GoesOn(s, BeforeEnd(s1))
  {
    assert t.marks[|s.marks|..] == s1.marks[|s.marks|..] + [Mark(ChunkHeader, |s1.body|)];
  }

  lemma LastFeed(h: Head, s: Session, bare: bool)
    requires s.state.ChunkSizeStart?
    ensures var t := AfterSize(s.(contentLength := 0));
            && Run(h, t, [CR]) == (BeforeEnd(s), 1, Go)
            && var u := if bare then t else BeforeEnd(s);
               var (v, o) := Step(h, u, LF);
               (o.Go? || o.Exit?) && Ends(u, v)
  {
    hide ShouldKeepAlive;
    var t := AfterSize(s.(contentLength := 0));
    assert Step(h, t, CR) == (BeforeEnd(s), Go);
    One(h, t, CR);
    var u := if bare then t else BeforeEnd(s);
    DoneEnds(u, Step(h, u, LF).0);
  }

  /** From its first size line on, a chunked message is complete with the last of some bytes, and not before, if and only if they
    * are chunks, a last chunk and an empty trailer. */
  lemma CompletesIff(h: Head, s: Session, w: seq<byte>)
    requires s.state.ChunkSizeStart? && s.nread == 0
    ensures Completes(h, s, w) <==> exists chunks, last, bare :: Framed(chunks, last) && w == Wire(chunks, last, bare)
  {
    hide Completes, Framed, Wire;
    if Completes(h, s, w) { var chunks, last, bare := CompletedIsFramed(h, s, w); }
    forall chunks, last, bare | Framed(chunks, last) && w == Wire(chunks, last, bare) ensures Completes(h, s, w) {
      FramedCompletes(h, s, chunks, last, bare);
    }
  }

  // ---- connections that end, or go on after a message that closes them ----

  /** The parser is inside a message whose end it would know. */
  predicate Inside(h: Head, s: Session) {
    !s.state.Start? && !s.state.Dead? && !s.state.BodyIdentityEof? && !ReadsToEnd(h, s.contentLength)
  }

  lemma LastHeaderStays(h: Head, s: Session, ch: byte)
    requires Inside(h, s)
    ensures var (t, o) := HeadersAlmostDoneStep(h, s, ch);
            o.Go? ==> Inside(h, t) || (Mark(MessageComplete, |s.body|) in t.marks[|s.marks|..] && s.marks <= t.marks)
  {
    hide ShouldKeepAlive;
    if ch == LF && s.trailing {
      var t := HeadersAlmostDoneStep(h, s, ch).0;
      assert t.marks[|s.marks|..][1] == Mark(MessageComplete, |s.body|);
    }
  }

  lemma LastByteEnds(h: Head, s: Session, ch: byte)
    requires s.state.BodyIdentity? && s.contentLength == 1
    ensures Ends(s, Step(h, s, ch).0)
  {
    hide NewMessage;
    assert Step(h, s, ch).0.marks[|s.marks|..] == [Mark(MessageComplete, |s.body| + 1)];
  }

  lemma BodyStays(h: Head, s: Session, ch: byte)
    requires Ok(h, s) && !s.state.Start? && !s.state.Dead? && !s.state.BodyIdentityEof?
    requires !s.state.HeadersAlmostDone? && !(s.state.HeaderFieldStart? && ch == LF)
    requires Step(h, s, ch).1.Go? && GoesOn(s, Step(h, s, ch).0)
    ensures var t := Step(h, s, ch).0;
            && !t.state.Start? && !t.state.Dead? && !t.state.BodyIdentityEof?
            && (t.contentLength == s.contentLength || t.contentLength != UNSET)
  {
    hide HeadersAlmostDoneStep, IsToken, NewMessage;
    if s.state.BodyIdentity? && s.contentLength == 1 { LastByteEnds(h, s, ch); }
  }

  lemma InsideStays(h: Head, s: Session, ch: byte)
    requires Ok(h, s) && Inside(h, s) && Step(h, s, ch).1.Go? && GoesOn(s, Step(h, s, ch).0)
    ensures Inside(h, Step(h, s, ch).0)
  {
    if s.state.HeadersAlmostDone? || (s.state.HeaderFieldStart? && ch == LF) {
      LastHeaderStays(h, s.(nread := s.nread + 1), ch);
      hide HeadersAlmostDoneStep, ReadsToEnd;
    } else {
      BodyStays(h, s, ch);
      hide Step, StatusHasNoBody;
    }
  }

  lemma {:induction false} RunStaysInside(h: Head, s: Session, data: seq<byte>)
    requires Ok(h, s) && Inside(h, s) && Run(h, s, data).2.Go? && GoesOn(s, Run(h, s, data).0)
    ensures Inside(h, Run(h, s, data).0)
    decreases |data|
  {
    if data != [] {
      var t, u := Step(h, s, data[0]).0, Run(h, s, data).0;
      StepKeepsOk(h, s, data[0]);
      StepGrows(h, s, data[0]);
      RunGrows(h, t, data[1..]);
      hide Step, Ok, Inside;
      MarksSplit(s.marks, t.marks, u.marks);
      InsideStays(h, s, data[0]);
      RunStaysInside(h, t, data[1..]);
    }
  }

  /** A connection that ends inside a message, unless the end of the connection is to be its end, is an error. */
  lemma EndsEarly(h: Head, s: Session, data: seq<byte>)
    requires AtHeadersEnd(s) && !ReadsToEnd(h, s.contentLength)
    requires Run(h, s, data).2.Go? && GoesOn(s, Run(h, s, data).0)
    ensures var t := Run(h, s, data).0;
            Executed(h, t, []) == (t.(errno := InvalidEofState), 1, Fail)
  {
    HeadersEndOk(h, s);
    RunStaysInside(h, s, data);
    RunKeepsOk(h, s, data);
    hide Run;
  }

  /** Behind a message that closes the connection only line ends are taken. */
  lemma {:induction false} DeadTakes(h: Head, s: Session, data: seq<byte>)
    requires s.state.Dead? && s.nread + |data| <= MAX_HEADER_SIZE
    ensures Run(h, s, data).2.Go? <==> forall i :: 0 <= i < |data| ==> data[i] == CR || data[i] == LF
    ensures Run(h, s, data).0.marks == s.marks && Run(h, s, data).0.body == s.body
    decreases |data|
  {
    if data != [] {
      if data[0] == CR || data[0] == LF {
        DeadTakes(h, s.(nread := s.nread + 1), data[1..]);
        forall i | 0 <= i < |data| ensures data[i] == if i == 0 then data[0] else data[1..][i - 1] {}
      }
    }
  }
}
