/** The sending half of the HTTP server (lib_http/http_server.cpp): a response is cut into packets, and a packet that the socket
  * does not take at once dangles until it does.
  *
  * What the socket answers is not the server's to choose: whether a packet can be had, how large it is, and whether it goes. */
module ResponsePump {
  import opened Bytes
  import opened HttpResults

  datatype SendResult = Sent | WouldBlock | Fatal

  /** A header string (empty when the status code has none) and a payload that hands out at most `window` bytes at a time. */
  datatype Source = Source(header: seq<byte>, payload: seq<byte>, window: nat)

  function Stream(src: Source): seq<byte> { if src.header == [] then [] else src.header + src.payload }

  /** A packet offered to the socket, and what it answered. */
  datatype Offer = Offer(packet: seq<byte>, answer: SendResult)

  /** A connection that sends a response: how much of it is committed, what dangles, and every offer made to the socket. */
  datatype Conn = Conn(src: Source, committed: nat, dangling: Option<seq<byte>>, offers: seq<Offer>)

  /** What the socket has taken: the packets it answered Sent to. */
  function Taken(offers: seq<Offer>): seq<byte> {
    if offers == [] then []
    else Taken(offers[..|offers| - 1]) + if offers[|offers| - 1].answer.Sent? then offers[|offers| - 1].packet else []
  }

  lemma TakenMore(offers: seq<Offer>, o: Offer)
    ensures Taken(offers + [o]) == Taken(offers) + if o.answer.Sent? then o.packet else []
  {
    assert (offers + [o])[..|offers|] == offers;
  }

  /** One turn of the server's loop for the connection: what the socket answers when it is asked. */
  datatype Turn = Turn(resend: SendResult, granted: bool, size: nat, send: SendResult)

  /** A packet takes as many bytes of the stream as fit. */
  function FilledTo(c: Conn, size: nat): nat { Min(c.committed + size, |Stream(c.src)|) }

  /** write_http_response_to_socket, once a packet of the given size is there. */
  function Written(c: Conn, size: nat, send: SendResult): (Conn, HttpResult)
    requires c.committed <= |Stream(c.src)|
  {
    var k := FilledTo(c, size);
    var packet := Stream(c.src)[c.committed..k];
    if packet == [] then (c.(committed := k), Incomplete)
    else
      var offered := c.(committed := k, offers := c.offers + [Offer(packet, send)]);
      match send
      case Sent => (offered, if k == |Stream(c.src)| && c.src.payload != [] then Complete else Incomplete)
      case WouldBlock => (offered.(dangling := Some(packet)), Incomplete)
      case Fatal => (offered, Error)
  }

  function Resent(c: Conn, resend: SendResult): Conn {
    if c.dangling.None? then c
    else c.(dangling := if resend.Sent? then None else c.dangling, offers := c.offers + [Offer(c.dangling.value, resend)])
  }

  /** The dangling packet first; only without one, more of the response. */
  function Turned(c: Conn, t: Turn): (Conn, HttpResult)
    requires c.committed <= |Stream(c.src)|
  {
    var d := Resent(c, t.resend);
    if d.dangling.Some? || !t.granted then (d, Incomplete) else Written(d, t.size, t.send)
  }

  function Started(src: Source): Conn { Conn(src, 0, None, []) }

  function Waiting(c: Conn): seq<byte> { if c.dangling.Some? then c.dangling.value else [] }

  /** The bytes the socket has taken and the dangling ones together are exactly the committed ones. */
  predicate Conserved(c: Conn) {
    && c.committed <= |Stream(c.src)|
    && Taken(c.offers) + Waiting(c) == Stream(c.src)[..c.committed]
  }

  /** Turns until one comes to an end, by completing the response or by an error. */
  ghost function Run(c: Conn, turns: seq<Turn>): (Conn, HttpResult)
    requires c.committed <= |Stream(c.src)|
    decreases |turns|
  {
    if turns == [] then (c, Incomplete)
    else
      var (d, r) := Turned(c, turns[0]);
      if r.Incomplete? then Run(d, turns[1..]) else (d, r)
  }

  /** The packet that a turn fills when it comes to that. */
  function Filled(c: Conn, size: nat): seq<byte>
    requires c.committed <= |Stream(c.src)|
  {
    Stream(c.src)[c.committed..FilledTo(c, size)]
  }

  /** While a packet dangles nothing else is offered; only the socket taking it ends that. */
  lemma Dangles(c: Conn, t: Turn)
    requires c.committed <= |Stream(c.src)| && c.dangling.Some? && !t.resend.Sent?
    ensures var (d, r) := Turned(c, t);
            r.Incomplete? && d == c.(offers := c.offers + [Offer(c.dangling.value, t.resend)]) && Taken(d.offers) == Taken(c.offers)
  {
    TakenMore(c.offers, Offer(c.dangling.value, t.resend));
  }

  /** Otherwise the dangling packet is taken first, if there is one, and then the next bytes of the stream are offered, once and
    * with the answer the socket gives. Only Sent has them taken. After WouldBlock they dangle, all of them; Fatal is an error. */
  lemma OffersNext(c: Conn, t: Turn)
    requires c.committed <= |Stream(c.src)| && (c.dangling.Some? ==> t.resend.Sent?)
    ensures var (d, r) := Turned(c, t);
            var before := if c.dangling.Some? then c.offers + [Offer(c.dangling.value, Sent)] else c.offers;
            var packet := if t.granted then Filled(c, t.size) else [];
            && d.src == c.src && d.committed == c.committed + |packet|
            && d.offers == (if packet == [] then before else before + [Offer(packet, t.send)])
            && Taken(d.offers) == Taken(c.offers) + Waiting(c) + (if packet != [] && t.send.Sent? then packet else [])
            && d.dangling == (if packet != [] && t.send.WouldBlock? then Some(packet) else None)
            && (r.Error? <==> packet != [] && t.send.Fatal?)
            && (t.send.WouldBlock? ==> r.Incomplete?)
  {
    var before := if c.dangling.Some? then c.offers + [Offer(c.dangling.value, Sent)] else c.offers;
    if c.dangling.Some? { TakenMore(c.offers, Offer(c.dangling.value, Sent)); }
    TakenMore(before, Offer(Filled(c, t.size), t.send));
  }

  /** A packet dangles unchanged, and nothing more is taken, through any turns in which the socket does not take it. */
  lemma {:induction false} DanglesOn(c: Conn, turns: seq<Turn>)
    requires c.committed <= |Stream(c.src)| && c.dangling.Some? && forall t <- turns :: !t.resend.Sent?
    ensures var (d, r) := Run(c, turns);
            && r.Incomplete? && d.dangling == c.dangling && d.committed == c.committed && d.src == c.src
            && Taken(d.offers) == Taken(c.offers)
    decreases |turns|
  {
    if turns != [] {
      assert turns[0] in turns;
      Dangles(c, turns[0]);
      hide Turned, Stream, Taken;
      forall t | t in turns[1..] ensures !t.resend.Sent? { assert t in turns; }
      DanglesOn(Turned(c, turns[0]).0, turns[1..]);
    }
  }

  lemma TurnConserves(c: Conn, t: Turn)
    requires Conserved(c)
    ensures var (d, r) := Turned(c, t);
            && d.src == c.src && c.committed <= d.committed <= |Stream(c.src)| && Taken(d.offers) <= Stream(c.src)
            && (r.Error? || Conserved(d))
            && (r.Complete? ==> Taken(d.offers) == Stream(c.src) && d.dangling == None)
  {
    if c.dangling.Some? && !t.resend.Sent? {
      Dangles(c, t);
      ConservedTaken(c);
      hide Turned, Stream, Taken;
    } else {
      MoveConserves(c, t);
      hide Turned, Stream, Taken;
    }
  }

  /** A turn that fills a packet, or could. */
  lemma MoveConserves(c: Conn, t: Turn)
    requires Conserved(c) && (c.dangling.Some? ==> t.resend.Sent?)
    ensures var (d, r) := Turned(c, t);
            && d.src == c.src && c.committed <= d.committed <= |Stream(c.src)| && Taken(d.offers) <= Stream(c.src)
            && (r.Error? || Conserved(d))
            && (r.Complete? ==> Taken(d.offers) == Stream(c.src) && d.dangling == None)
  {
    hide Turned, Taken, Stream;
    OffersNext(c, t);
    CompletesIff(c, t);
    var s, d, k := Stream(c.src), Turned(c, t).0, FilledTo(c, t.size);
    var packet := if t.granted then Filled(c, t.size) else [];
    assert s[..c.committed] + s[c.committed..k] == s[..k];
    assert s[..|s|] == s;
    assert s[..c.committed] + packet == s[..d.committed];
    assert Taken(c.offers) + Waiting(c) == s[..c.committed];
    assert s[..c.committed] <= s[..d.committed] <= s;
  }

  /** Whatever the socket answers, no byte is lost, repeated or moved: up to a fatal error what the socket has taken and what
    * dangles are the committed prefix of header and payload, and a response that completes was taken whole. */
  lemma {:induction false} RunConserves(c: Conn, turns: seq<Turn>)
    requires Conserved(c)
    ensures var (d, r) := Run(c, turns);
            && d.src == c.src && Taken(d.offers) <= Stream(c.src)
            && (r.Error? || Conserved(d))
            && (r.Complete? ==> Taken(d.offers) == Stream(c.src) && d.dangling == None)
    decreases |turns|
  {
    hide Turned, Stream, Taken;
    if turns != [] {
      TurnConserves(c, turns[0]);
      if Turned(c, turns[0]).1.Incomplete? { RunConserves(Turned(c, turns[0]).0, turns[1..]); }
    } else {
      ConservedTaken(c);
    }
  }

  /** So for every response and everything the socket answers: what arrives is a prefix of header and payload, and all of it when
    * the response completes. */
  lemma ResponseArrives(src: Source, turns: seq<Turn>)
    ensures var (d, r) := Run(Started(src), turns);
            && Taken(d.offers) <= Stream(src)
            && (r.Error? || (d.committed <= |Stream(src)| && Taken(d.offers) + Waiting(d) == Stream(src)[..d.committed]))
            && (r.Complete? ==> Taken(d.offers) == Stream(src) && d.dangling == None)
  {
    RunConserves(Started(src), turns);
  }

  lemma ConservedTaken(c: Conn)
    requires Conserved(c)
    ensures Taken(c.offers) <= Stream(c.src)
  {
    var s := Stream(c.src);
    assert Taken(c.offers) <= s[..c.committed] <= s;
  }

  /** A turn completes the response exactly when it commits the last byte of a payload and the socket takes the packet at once. */
  lemma CompletesIff(c: Conn, t: Turn)
    requires Conserved(c)
    ensures Turned(c, t).1.Complete? <==>
      && (c.dangling == None || t.resend.Sent?) && t.granted && t.send.Sent?
      && c.src.payload != [] && c.committed < |Stream(c.src)| <= c.committed + t.size
  {}

  /** So once everything is committed, and a final packet that would block commits everything, no later turn completes: the
    * bytes arrive, but the server goes on as if the response were unfinished. */
  lemma {:induction false} NeverCompletesLate(c: Conn, turns: seq<Turn>)
    requires Conserved(c) && (c.committed == |Stream(c.src)| || c.src.payload == [])
    ensures !Run(c, turns).1.Complete?
    decreases |turns|
  {
    if turns != [] {
      CompletesIff(c, turns[0]);
      TurnConserves(c, turns[0]);
      hide Turned, Stream;
      if Turned(c, turns[0]).1.Incomplete? { NeverCompletesLate(Turned(c, turns[0]).0, turns[1..]); }
    }
  }

  /** HttpResponse: the cursor over the header string and then over the payload. */
  class Response {
    const src: Source
    var headerPos: nat
    var payloadPos: nat

    ghost predicate Valid()
      reads this
    {
      && headerPos <= |src.header| && payloadPos <= |src.payload| && 0 < src.window
      && (headerPos < |src.header| || src.header == [] ==> payloadPos == 0)
    }

    ghost function Committed(): (k: nat)
      requires Valid()
      reads this
      ensures k <= |Stream(src)|
    {
      headerPos + payloadPos
    }

    constructor (s: Source)
      requires 0 < s.window
      ensures Valid() && src == s && Committed() == 0
    {
      src, headerPos, payloadPos := s, 0, 0;
    }

    /** The next bytes of the stream, all of them or fewer; asking again gives the same. Without a header there are none. */
    method GetReadPtr() returns (rc: int, data: seq<byte>)
      requires Valid()
      ensures rc == (if src.header == [] then -1 else 0)
      ensures rc == 0 ==> data <= Stream(src)[Committed()..] && (data == [] <==> Committed() == |Stream(src)|)
      ensures rc == 0 && headerPos < |src.header| ==> |data| <= |src.header| - headerPos
    {
      if src.header == [] { return -1, []; }
      if headerPos < |src.header| {
        data := src.header[headerPos..];
      } else {
        data := src.payload[payloadPos..payloadPos + Min(src.window, |src.payload| - payloadPos)];
      }
      rc := 0;
    }

    method CommitRead(n: nat) returns (r: HttpResult)
      requires Valid() && src.header != []
      requires n <= if headerPos < |src.header| then |src.header| - headerPos else |src.payload| - payloadPos
      modifies this
      ensures Valid() && Committed() == old(Committed()) + n
      ensures r == if old(headerPos) == |src.header| && Committed() == |Stream(src)| then Complete else Incomplete
    {
      if headerPos == |src.header| {
        payloadPos := payloadPos + n;
        return if payloadPos == |src.payload| then Complete else Incomplete;
      }
      headerPos := headerPos + n;
      r := Incomplete;
    }
  }

  /** The socket, with a record of what it was offered and what it answered. */
  class Socket {
    ghost var offers: seq<Offer>

    constructor ()
      ensures offers == []
    {
      offers := [];
    }

    /** What it answers is not the server's to choose. */
    method Send(packet: seq<byte>, answer: SendResult) returns (rc: SendResult)
      modifies this
      ensures rc == answer && offers == old(offers) + [Offer(packet, answer)]
    {
      offers := offers + [Offer(packet, answer)];
      rc := answer;
    }
  }

  /** The part of TcpConnection that sending changes. */
  class Connection {
    const response: Response
    const socket: Socket
    var dangling: Option<seq<byte>>

    constructor (r: Response)
      ensures response == r && dangling == None && fresh(socket) && socket.offers == []
    {
      response, dangling := r, None;
      socket := new Socket();
    }

    ghost function Value(): Conn
      requires response.Valid()
      reads this, response, socket
    {
      Conn(response.src, response.Committed(), dangling, socket.offers)
    }

    /** The loop that fills a packet, piece by piece. */
    method FillPacket(size: nat) returns (packet: seq<byte>, status: HttpResult)
      requires response.Valid()
      modifies response
      ensures response.Valid()
      ensures Value() == old(Value()).(committed := FilledTo(old(Value()), size))
      ensures packet == Stream(response.src)[old(response.Committed())..response.Committed()]
      ensures packet != [] ==>
        status == if response.Committed() == |Stream(response.src)| && response.src.payload != [] then Complete else Incomplete
      ensures packet == [] ==> status == Incomplete
    {
      ghost var start := response.Committed();
      packet, status := [], Incomplete;
      var rc, data := response.GetReadPtr();
      while rc == 0 && |data| > 0 && |packet| < size
        invariant response.Valid() && start <= response.Committed() && |packet| <= size
        invariant packet == Stream(response.src)[start..response.Committed()]
        invariant packet == [] ==> status == Incomplete
        invariant rc == 0 ==> data <= Stream(response.src)[response.Committed()..]
        invariant rc == 0 ==> (data == [] <==> response.Committed() == |Stream(response.src)|)
        invariant rc == (if response.src.header == [] then -1 else 0)
        invariant rc == 0 && response.headerPos < |response.src.header| ==> |data| <= |response.src.header| - response.headerPos
        invariant packet != [] ==>
          status == if response.Committed() == |Stream(response.src)| && response.src.payload != [] then Complete else Incomplete
        decreases size - |packet|
      {
        var n := Min(|data|, size - |packet|);
        packet := packet + data[..n];
        status := response.CommitRead(n);
        rc, data := response.GetReadPtr();
      }
    }

    method Write(granted: bool, size: nat, send: SendResult) returns (status: HttpResult)
      requires response.Valid() && dangling == None
      modifies this, response, socket
      ensures response.Valid()
      ensures (Value(), status) == if granted then Written(old(Value()), size, send) else (old(Value()), Incomplete)
    {
      if !granted { return Incomplete; }
      var packet;
      packet, status := FillPacket(size);
      if packet != [] {
        var rc := socket.Send(packet, send);
        if rc != Sent {
          if rc == Fatal { return Error; }
          dangling := Some(packet);
          status := Incomplete;
        }
      }
    }

    method SendDangling(resend: SendResult)
      requires response.Valid() && dangling.Some?
      modifies this, socket
      ensures response.Valid() && Value() == Resent(old(Value()), resend)
    {
      var rc := socket.Send(dangling.value, resend);
      if rc == Sent { dangling := None; }
    }

    /** What the handler thread does for the connection each time round. */
    method TakeTurn(t: Turn) returns (status: HttpResult)
      requires response.Valid() && Conserved(Value())
      modifies this, response, socket
      ensures response.Valid() && (Value(), status) == Turned(old(Value()), t)
      ensures status.Error? || Taken(socket.offers) + Waiting(Value()) == Stream(response.src)[..response.Committed()]
      ensures status.Complete? ==> Taken(socket.offers) == Stream(response.src) && dangling == None
    {
      hide Taken;
      TurnConserves(Value(), t);
      status := Incomplete;
      if dangling != None { SendDangling(t.resend); }
      if dangling == None { status := Write(t.granted, t.size, t.send); }
    }
  }
}
