/** HttpRequest::read_from (lib_http/http_request.cpp): the request a client sends, read piece by piece off its connection. */
module HttpRequest {
  import opened Bytes
  import opened HttpBodySpec
  import opened HttpFraming
  import opened HttpAccepts
  import opened HttpResults

  /** The parser's session, and whether on_message_complete has been called. */
  datatype Request = Request(session: Session, complete: bool)

  predicate HasComplete(marks: seq<Mark>) { exists i :: 0 <= i < |marks| && marks[i].notice.MessageComplete? }

  /** A complete request reads no more; bytes left unparsed are an error. */
  function ReadFrom(h: Head, q: Request, data: seq<byte>): (Request, HttpResult) {
    if q.complete then (q, Complete)
    else
      var (t, n, _) := Executed(h, q.session, data);
      var complete := HasComplete(t.marks[if |q.session.marks| <= |t.marks| then |q.session.marks| else 0..]);
      (Request(t, complete), if n != |data| then Error else if complete then Complete else Incomplete)
  }

  /** Piece after piece; the answer is that of the last. */
  function ReadAll(h: Head, s: Session, pieces: seq<seq<byte>>): (Request, HttpResult)
    decreases |pieces|
  {
    if pieces == [] then (Request(s, false), Incomplete)
    else ReadFrom(h, ReadAll(h, s, pieces[..|pieces| - 1]).0, pieces[|pieces| - 1])
  }

  lemma {:induction false} ExecutedOneMore(h: Head, s: Session, pieces: seq<seq<byte>>, data: seq<byte>)
    requires ExecutedAll(h, s, pieces).1.Go?
    ensures ExecutedAll(h, s, pieces + [data]) ==
            (Executed(h, ExecutedAll(h, s, pieces).0, data).0, Executed(h, ExecutedAll(h, s, pieces).0, data).2)
    decreases |pieces|
  {
    hide Executed;
    var all := pieces + [data];
    if pieces == [] {
      assert all == [data] && all[1..] == [];
    } else {
      assert all[0] == pieces[0] && all[1..] == pieces[1..] + [data];
      ExecutedOneMore(h, Executed(h, s, pieces[0]).0, pieces[1..], data);
    }
  }

  /** What has been read of a wire: nothing complete until all of it is there, and then the body. */
  ghost predicate ReadSoFar(h: Head, s: Session, wire: seq<byte>, body: seq<byte>, pieces: seq<seq<byte>>) {
    var (q, r) := ReadAll(h, s, pieces);
    if Flatten(pieces) == wire then r == Complete && q.complete && q.session.body == s.body + body
    else r == Incomplete && !q.complete
  }

  lemma PartDelivered(h: Head, s: Session, wire: seq<byte>, body: seq<byte>, pieces: seq<seq<byte>>)
    requires Delivers(h, s, wire, body, pieces) && Flatten(pieces) < wire
    ensures var (t, o) := ExecutedAll(h, s, pieces);
            o.Go? && t.errno.NoError? && s.marks <= t.marks && !HasComplete(t.marks[|s.marks|..])
  {
    hide ExecutedAll, Flatten, NextState;
    var t := ExecutedAll(h, s, pieces).0;
    var new_ := t.marks[|s.marks|..];
    forall i | 0 <= i < |new_| ensures !new_[i].notice.MessageComplete? { assert new_[i] in new_; }
  }

  lemma WholeDelivered(h: Head, s: Session, wire: seq<byte>, body: seq<byte>, pieces: seq<seq<byte>>)
    requires Delivers(h, s, wire, body, pieces) && Flatten(pieces) == wire
    ensures var (t, o) := ExecutedAll(h, s, pieces);
            s.marks <= t.marks && t.body == s.body + body && HasComplete(t.marks[|s.marks|..])
  {
    hide ExecutedAll, Flatten, NextState;
    var t := ExecutedAll(h, s, pieces).0;
    var new_ := t.marks[|s.marks|..];
    assert new_[|new_| - 1] == t.marks[|t.marks| - 1];
  }

  /** One piece more: how the parser goes on from where the pieces before left it. */
  lemma OneCall(h: Head, s: Session, wire: seq<byte>, pieces: seq<seq<byte>>, data: seq<byte>)
    requires Ok(h, s) && (forall i :: 0 <= i < |pieces| ==> pieces[i] != []) && data != []
    requires ExecutedAll(h, s, pieces).1.Go? && ExecutedAll(h, s, pieces).0.errno.NoError?
    requires Run(h, s, wire).1 == |wire| && Flatten(pieces) + data <= wire
    ensures var t := ExecutedAll(h, s, pieces).0;
            && ExecutedAll(h, s, pieces + [data]) == (Executed(h, t, data).0, Executed(h, t, data).2)
            && Executed(h, t, data).1 == |data| && t.marks <= Executed(h, t, data).0.marks
  {
    hide *;
    ExecutedOneMore(h, s, pieces, data);
    AnySplit(h, s, pieces);
    var got := Flatten(pieces);
    var rest := wire[|got| + |data|..];
    assert wire == got + data + rest;
    RunCounts(h, s, got + data, rest);
    RunSplit(h, s, got, data);
    ExecutedRuns(h, ExecutedAll(h, s, pieces).0, data);
    RunGrows(h, ExecutedAll(h, s, pieces).0, data);
  }

  /** A run that parses everything parses everything of every prefix. */
  lemma RunCounts(h: Head, s: Session, a: seq<byte>, b: seq<byte>)
    requires Run(h, s, a + b).1 == |a + b|
    ensures Run(h, s, a).1 == |a|
  {
    hide Run;
    if !Run(h, s, a).2.Go? { RunStops(h, s, a, b); }
  }

  lemma ExecutedRuns(h: Head, s: Session, data: seq<byte>)
    requires s.errno.NoError? && data != []
    ensures Executed(h, s, data) == Run(h, s, data)
  {}

  lemma ReadOneMore(h: Head, s: Session, wire: seq<byte>, body: seq<byte>, pieces: seq<seq<byte>>, data: seq<byte>)
    requires Ok(h, s) && (forall i :: 0 <= i < |pieces| ==> pieces[i] != []) && data != []
    requires Delivers(h, s, wire, body, pieces) && Delivers(h, s, wire, body, pieces + [data])
    requires Run(h, s, wire).1 == |wire| && Flatten(pieces) + data <= wire
    requires ReadAll(h, s, pieces) == (Request(ExecutedAll(h, s, pieces).0, false), Incomplete)
    ensures var r := ReadAll(h, s, pieces + [data]);
            if Flatten(pieces) + data == wire then
              r.1 == Complete && r.0.complete && r.0.session.body == s.body + body
            else r == (Request(ExecutedAll(h, s, pieces + [data]).0, false), Incomplete)
  {
    var all := pieces + [data];
    assert all[..|all| - 1] == pieces && all[|all| - 1] == data;
    FlattenOneMore(pieces, data);
    hide ExecutedAll, Executed, Flatten, Delivers, Run, HasComplete, Ok;
    PartDelivered(h, s, wire, body, pieces);
    OneCall(h, s, wire, pieces, data);
    var t, u := ExecutedAll(h, s, pieces).0, ExecutedAll(h, s, all).0;
    NewMarks(s.marks, t.marks, u.marks);
    if Flatten(pieces) + data == wire {
      WholeDelivered(h, s, wire, body, all);
    } else {
      PartDelivered(h, s, wire, body, all);
    }
  }

  lemma {:induction false} FlattenPrefix(pieces: seq<seq<byte>>, k: nat)
    requires k <= |pieces|
    ensures Flatten(pieces[..k]) <= Flatten(pieces)
    decreases |pieces|
  {
    if k > 0 {
      assert pieces[..k][1..] == pieces[1..][..k - 1];
      FlattenPrefix(pieces[1..], k - 1);
    }
  }

  /** Any reading of a wire whose every prefix is delivered right: incomplete until the last piece, then complete. */
  lemma {:induction false} ReadAllDelivers(h: Head, s: Session, wire: seq<byte>, body: seq<byte>, pieces: seq<seq<byte>>)
    requires Ok(h, s) && (forall i :: 0 <= i < |pieces| ==> pieces[i] != []) && wire != []
    requires Run(h, s, wire).1 == |wire| && Flatten(pieces) <= wire
    requires forall k :: 0 <= k <= |pieces| ==> Delivers(h, s, wire, body, pieces[..k])
    ensures ReadSoFar(h, s, wire, body, pieces)
    ensures Flatten(pieces) != wire ==> ReadAll(h, s, pieces) == (Request(ExecutedAll(h, s, pieces).0, false), Incomplete)
    decreases |pieces|
  {
    hide Delivers, Ok, Run;
    if pieces != [] {
      var n := |pieces| - 1;
      var before, data := pieces[..n], pieces[n];
      assert pieces == before + [data] == pieces[..|pieces|];
      FlattenOneMore(before, data);
      forall k | 0 <= k <= n ensures Delivers(h, s, wire, body, before[..k]) { assert before[..k] == pieces[..k]; }
      assert before == before[..n];
      ReadAllDelivers(h, s, wire, body, before);
      ReadOneMore(h, s, wire, body, before, data);
    }
  }

  /** A chunked request read off a connection in any pieces is complete with its last byte, and not before; its body is then the
    * chunks' data. */
  lemma ChunkedRequest(h: Head, s: Session, chunks: seq<Chunk>, last: Chunk, pieces: seq<seq<byte>>)
    requires AtHeadersEnd(s) && h.chunked && HasBodyHere(h) && Framed(chunks, last)
    requires (forall i :: 0 <= i < |pieces| ==> pieces[i] != []) && Flatten(pieces) <= WireButLast(chunks, last) + [LF]
    ensures ReadSoFar(h, s, WireButLast(chunks, last) + [LF], Payload(chunks), pieces)
  {
    hide *;
    var wire := WireButLast(chunks, last) + [LF];
    ChunkedRun(h, s, chunks, last);
    OneMoreCounts(h, s, WireButLast(chunks, last), LF, Run(h, s, wire).0, Payload(chunks));
    HeadersEndOk(h, s);
    forall k | 0 <= k <= |pieces| ensures Delivers(h, s, wire, Payload(chunks), pieces[..k]) {
      FlattenPrefix(pieces, k);
      ChunkedBody(h, s, chunks, last, pieces[..k]);
    }
    ReadAllDelivers(h, s, wire, Payload(chunks), pieces);
  }

  lemma OneMoreCounts(h: Head, s: Session, data: seq<byte>, last: byte, t: Session, body: seq<byte>)
    requires OneMore(h, s, data, last, t, body)
    ensures Run(h, s, data + [last]).1 == |data + [last]|
  {
    hide Run, NextState;
    RunSplit(h, s, data, [last]);
  }

  /** And so is one with a Content-Length. */
  lemma LengthRequest(h: Head, s: Session, data: seq<byte>, pieces: seq<seq<byte>>)
    requires AtHeadersEnd(s) && !h.chunked && HasBodyHere(h) && s.contentLength == |data| && 0 < |data| < UNSET
    requires (forall i :: 0 <= i < |pieces| ==> pieces[i] != []) && Flatten(pieces) <= [LF] + data
    ensures ReadSoFar(h, s, [LF] + data, data, pieces)
  {
    hide *;
    var n, wire := |data| - 1, [LF] + data;
    LengthRun(h, s, data);
    assert wire == ([LF] + data[..n]) + [data[n]];
    OneMoreCounts(h, s, [LF] + data[..n], data[n], Run(h, s, wire).0, data);
    HeadersEndOk(h, s);
    forall k | 0 <= k <= |pieces| ensures Delivers(h, s, wire, data, pieces[..k]) {
      FlattenPrefix(pieces, k);
      LengthBody(h, s, data, pieces[..k]);
    }
    ReadAllDelivers(h, s, wire, data, pieces);
  }

  /** A request without a body, such as a GET, is complete with the end of its header fields. */
  lemma NoBodyRequest(h: Head, s: Session, pieces: seq<seq<byte>>)
    requires AtHeadersEnd(s) && HasNoBody(h, s.contentLength)
    requires (forall i :: 0 <= i < |pieces| ==> pieces[i] != []) && Flatten(pieces) <= [LF]
    ensures ReadSoFar(h, s, [LF], [], pieces)
  {
    hide *;
    NoBodyRun(h, s);
    assert [] + [LF] == [LF];
    OneMoreCounts(h, s, [], LF, Run(h, s, [LF]).0, []);
    HeadersEndOk(h, s);
    forall k | 0 <= k <= |pieces| ensures Delivers(h, s, [LF], [], pieces[..k]) {
      FlattenPrefix(pieces, k);
      NoBody(h, s, pieces[..k]);
    }
    ReadAllDelivers(h, s, [LF], [], pieces);
  }

  /** When the client closes the connection before its request is complete, the answer is an error. */
  lemma ClosedEarly(h: Head, s: Session, pieces: seq<seq<byte>>)
    requires AtHeadersEnd(s) && !ReadsToEnd(h, s.contentLength) && forall i :: 0 <= i < |pieces| ==> pieces[i] != []
    requires ExecutedAll(h, s, pieces).1.Go? && GoesOn(s, ExecutedAll(h, s, pieces).0)
    requires ReadAll(h, s, pieces) == (Request(ExecutedAll(h, s, pieces).0, false), Incomplete)
    ensures ReadAll(h, s, pieces + [[]]).1 == Error
  {
    HeadersEndOk(h, s);
    AnySplit(h, s, pieces);
    EndsEarly(h, s, Flatten(pieces));
    hide Run, ExecutedAll, Flatten, AtHeadersEnd, Executed;
    var all := pieces + [[]];
    assert all[..|all| - 1] == pieces && all[|all| - 1] == [];
  }

  lemma {:induction false} FailureStopsShort(h: Head, s: Session, data: seq<byte>)
    requires Run(h, s, data).2.Fail?
    ensures Run(h, s, data).1 < |data|
    decreases |data|
  {
    hide Step;
    if Step(h, s, data[0]).1.Go? { FailureStopsShort(h, Step(h, s, data[0]).0, data[1..]); }
  }

  /** And so it is when the parser refuses a byte. */
  lemma RefusedIsError(h: Head, q: Request, data: seq<byte>)
    requires !q.complete && data != [] && Executed(h, q.session, data).2.Fail?
    ensures ReadFrom(h, q, data).1 == Error
  {
    hide Run;
    if q.session.errno.NoError? { FailureStopsShort(h, q.session, data); }
  }

  lemma NewMarks(a: seq<Mark>, b: seq<Mark>, c: seq<Mark>)
    requires a <= b <= c && !HasComplete(b[|a|..])
    ensures HasComplete(c[|b|..]) <==> HasComplete(c[|a|..])
  {
    var x, y := c[|a|..], c[|b|..];
    assert x == b[|a|..] + y;
    if HasComplete(y) {
      var i :| 0 <= i < |y| && y[i].notice.MessageComplete?;
      assert x[|b| - |a| + i].notice.MessageComplete?;
    }
    if HasComplete(x) {
      var i :| 0 <= i < |x| && x[i].notice.MessageComplete?;
      assert i >= |b| - |a|;
      assert y[i - (|b| - |a|)].notice.MessageComplete?;
    }
  }
}
