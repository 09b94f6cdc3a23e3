/** What a frame with given bytes does to the gateway, and what is sent for it,
    byte by byte. */
module GatewayLaws {
  import opened Framing
  import opened GatewaySpec
  import opened GatewayRoutes
  import opened HashIdSpec

  /** The bytes of a frame: its length, high byte first, and the body. */
  predicate FrameOf(bytes: seq<Byte>, body: seq<Byte>) {
    6 <= |body| < 65536 && |bytes| == |body| + 2 && bytes[0] as int * 256 + bytes[1] as int == |body| && bytes[2..] == body
  }

  /** Message 100, after the two bytes for an id: a handshake. */
  predicate Hello(body: seq<Byte>)
    requires |body| >= 6
  {
    body[2] == 0 && body[3] == 100
  }

  lemma Complete(bytes: seq<Byte>, body: seq<Byte>)
    requires FrameOf(bytes, body)
    ensures Dispatch(NONE, bytes) == (NONE, Option.Some(body))
  {
    assert [] + bytes == bytes && body[..|body|] == body && body[|body|..] == [];
  }

  /** After a handshake a connection has the kind of the digest it sent, with
      nothing left in its buffer; a second server and a wrong digest are asked to
      leave. Nothing else changes. */
  lemma HelloSeen(g: State, x: int, bytes: seq<Byte>, body: seq<Byte>)
    requires x in g.conns && g.conns[x].buffer == NONE && FrameOf(bytes, body) && Hello(body)
    ensures var g', d := Step(g, Data(x, bytes)), body[4..];
      && (d == g.keys.client ==> g' == g.(conns := g.conns[x := Conn(Client, NONE)]))
      && (d != g.keys.client && d == g.keys.server && g.sid <= 0 ==> g' == g.(conns := g.conns[x := Conn(Server, NONE)], sid := x))
      && (d != g.keys.client && d == g.keys.server && g.sid > 0 ==>
            g' == g.(conns := g.conns[x := Conn(Server, NONE)], asked := g.asked + {x}))
      && (d != g.keys.client && d != g.keys.server && d == g.keys.debug ==> g' == g.(conns := g.conns[x := Conn(Debug, NONE)]))
      && (d != g.keys.client && d != g.keys.server && d != g.keys.debug ==> g' == g.(asked := g.asked + {x}))
  {
    Complete(bytes, body);
    hide Dispatch;
    assert g.conns[x := g.conns[x]] == g.conns;
  }

  /** Any other frame changes no connection; who has not said hello, and a client
      without a server, are asked to leave. */
  lemma MessageSeen(g: State, x: int, bytes: seq<Byte>, body: seq<Byte>)
    requires x in g.conns && g.conns[x].buffer == NONE && FrameOf(bytes, body) && !Hello(body)
    ensures Step(g, Data(x, bytes)) ==
            if g.conns[x].kind == Unknown || (g.conns[x].kind == Client && g.sid <= 0) then g.(asked := g.asked + {x}) else g
  {
    Complete(bytes, body);
    hide Dispatch;
    assert g.conns[x := g.conns[x]] == g.conns;
  }

  /** The other events: a new connection is unknown and has nothing in its
      buffer, unless there is no room; one that is closed is gone, and so is the
      server if it was that one; traffic of a stranger is refused. */
  lemma OthersSeen(g: State, x: int, bytes: seq<Byte>)
    ensures Step(g, Accept(x)) == if |g.conns| == g.max then g.(asked := g.asked + {x}) else g.(conns := g.conns[x := Conn(Unknown, NONE)])
    ensures x in g.conns ==>
              Step(g, Closed(x)) == g.(conns := g.conns - {x}, sid := if x == g.sid then -1 else g.sid, asked := g.asked - {x})
    ensures x !in g.conns ==> Step(g, Data(x, bytes)) == g.(asked := g.asked + {x})
    ensures Step(g, Connect(x)) == if x == g.listen || x in g.conns then g else g.(asked := g.asked + {x})
  {}

  // ------------------------------------------------------- frames in pieces

  function Datas(x: int, chunks: seq<seq<Byte>>): seq<Event> {
    if chunks == [] then [] else [Data(x, chunks[0])] + Datas(x, chunks[1..])
  }

  /** A part of a frame is kept, and nothing else happens. */
  lemma PartKept(b: Buf, c: seq<Byte>, bytes: seq<Byte>, body: seq<Byte>)
    requires FrameOf(bytes, body) && Started(b, bytes, body) && Pending(b) + c <= bytes && |Pending(b) + c| < |bytes|
    ensures var r := Dispatch(b, c); r.1.None? && Started(r.0, bytes, body) && Pending(r.0) == Pending(b) + c
  {
    StartedHeader(b, c, bytes, body);
  }

  /** The buffer holds the beginning of the frame. */
  ghost predicate Started(b: Buf, bytes: seq<Byte>, body: seq<Byte>) {
    Pending(b) <= bytes && (b.header > 0 ==> b.header == |body|)
  }

  lemma HeaderIs(bytes: seq<Byte>, body: seq<Byte>)
    requires FrameOf(bytes, body)
    ensures Header(|body|) == bytes[..2]
  {
    var n := |body|;
    assert n / 256 == bytes[0] && n % 256 == bytes[1];
  }

  lemma StartedHeader(b: Buf, c: seq<Byte>, bytes: seq<Byte>, body: seq<Byte>)
    requires FrameOf(bytes, body) && Started(b, bytes, body) && Pending(b) + c <= bytes
    ensures var b1 := WithHeader(Buf(b.header, b.data + c));
            Started(b1, bytes, body) && Pending(b1) == Pending(b) + c && (b1.header == 0 ==> |Pending(b1)| < 2)
  {
    HeaderIs(bytes, body);
    var b0 := Buf(b.header, b.data + c);
    assert Pending(b0) == Pending(b) + c;
    if b.header == 0 && |b0.data| >= 2 {
      assert b0.data == Pending(b0) && b0.data[0] == bytes[0] && b0.data[1] == bytes[1];
      assert b0.data == bytes[..2] + b0.data[2..];
    }
  }

  /** The last part completes it. */
  lemma PartCompletes(b: Buf, c: seq<Byte>, bytes: seq<Byte>, body: seq<Byte>)
    requires FrameOf(bytes, body) && Started(b, bytes, body) && Pending(b) + c == bytes
    ensures Dispatch(b, c) == (NONE, Option.Some(body))
  {
    StartedHeader(b, c, bytes, body);
    HeaderIs(bytes, body);
    var b1 := WithHeader(Buf(b.header, b.data + c));
    hide WithHeader;
    assert Pending(b1) == bytes[..2] + b1.data;
    assert b1.data == bytes[2..] == body && body[..|body|] == body && body[|body|..] == [];
  }

  lemma LastPiece(g: State, x: int, c: seq<Byte>, bytes: seq<Byte>, body: seq<Byte>)
    requires x in g.conns && FrameOf(bytes, body) && Started(g.conns[x].buffer, bytes, body) && Pending(g.conns[x].buffer) + c == bytes
    ensures Step(g, Data(x, c)) == Step(Update(g, x, g.conns[x].(buffer := NONE)), Data(x, bytes))
  {
    PartCompletes(g.conns[x].buffer, c, bytes, body);
    Complete(bytes, body);
    hide Dispatch, Started, Handshake, HandleMsg;
    var c0 := g.conns[x].(buffer := NONE);
    assert Update(Update(g, x, c0), x, c0) == Update(g, x, c0);
  }

  /** However a frame is split into chunks, it does what it does in one. */
  lemma {:induction false} PiecesSeen(g: State, x: int, chunks: seq<seq<Byte>>, bytes: seq<Byte>, body: seq<Byte>)
    requires x in g.conns && FrameOf(bytes, body) && Started(g.conns[x].buffer, bytes, body)
    requires Pending(g.conns[x].buffer) + Flat(chunks) == bytes && chunks != [] && chunks[|chunks| - 1] != []
    ensures GatewaySpec.Run(g, Datas(x, chunks)) == Step(Update(g, x, g.conns[x].(buffer := NONE)), Data(x, bytes))
    decreases |chunks|
  {
    var b, c, later := g.conns[x].buffer, chunks[0], chunks[1..];
    var e := Data(x, c);
    var es := Datas(x, chunks);
    assert es[0] == e && es[1..] == Datas(x, later);
    assert Pending(b) + Flat(chunks) == (Pending(b) + c) + Flat(later);
    if later == [] {
      assert Flat(later) == [] && Pending(b) + c == bytes;
      hide Step, Started, FrameOf;
      LastPiece(g, x, c, bytes, body);
      assert GatewaySpec.Run(g, es) == GatewaySpec.Run(Step(g, e), []) == Step(g, e);
    } else {
      LastBytes(later);
      hide Step, Started, FrameOf, Pending;
      FirstPiece(g, x, c, bytes, body);
      var g1 := Step(g, e);
      PiecesSeen(g1, x, later, bytes, body);
      assert Update(g1, x, g1.conns[x].(buffer := NONE)) == Update(g, x, g.conns[x].(buffer := NONE));
      assert GatewaySpec.Run(g, es) == GatewaySpec.Run(g1, Datas(x, later));
    }
  }

  lemma FirstPiece(g: State, x: int, c: seq<Byte>, bytes: seq<Byte>, body: seq<Byte>)
    requires x in g.conns && FrameOf(bytes, body) && Started(g.conns[x].buffer, bytes, body)
    requires Pending(g.conns[x].buffer) + c <= bytes && |Pending(g.conns[x].buffer) + c| < |bytes|
    ensures var g1 := Step(g, Data(x, c));
      && x in g1.conns && g1 == Update(g, x, g1.conns[x]) && g1.conns[x] == g.conns[x].(buffer := g1.conns[x].buffer)
      && Started(g1.conns[x].buffer, bytes, body) && Pending(g1.conns[x].buffer) == Pending(g.conns[x].buffer) + c
  {
    PartKept(g.conns[x].buffer, c, bytes, body);
    hide Dispatch, Started, FrameOf;
  }

  lemma {:induction false} LastBytes(chunks: seq<seq<Byte>>)
    requires chunks != [] && chunks[|chunks| - 1] != []
    ensures Flat(chunks) != []
    decreases |chunks|
  {
    if |chunks| > 1 {
      assert chunks[1..][|chunks| - 2] == chunks[|chunks| - 1];
      LastBytes(chunks[1..]);
    }
  }

  // ---------------------------------------------------------- what is sent

  /** A handshake and an unfinished frame are answered with nothing. */
  lemma HelloSends(g: State, slots: seq<Slot>, signed: bool, x: int, bytes: seq<Byte>, body: seq<Byte>)
    requires x in g.conns && g.conns[x].buffer == NONE && FrameOf(bytes, body) && Hello(body)
    ensures Sends(g, slots, signed, Data(x, bytes)) == []
  {
    Complete(bytes, body);
    hide Dispatch;
  }

  /** A client's frame goes to the server, with the client's id in place of the
      two bytes behind the length. */
  lemma ClientSends(g: State, slots: seq<Slot>, signed: bool, x: int, bytes: seq<Byte>, body: seq<Byte>)
    requires x in g.conns && g.conns[x].buffer == NONE && FrameOf(bytes, body) && !Hello(body)
    requires g.conns[x].kind == Client && g.sid > 0 && 0 <= x < 65536
    ensures Sends(g, slots, signed, Data(x, bytes)) == [Sent(g.sid, bytes[..2] + [x / 256, x % 256] + bytes[4..])]
  {
    Complete(bytes, body);
    hide Dispatch;
    HeaderIs(bytes, body);
    assert Frame(body) == bytes;
    assert WriteBlock(bytes, x, 2) == bytes[..2] + [x / 256, x % 256] + bytes[4..];
  }

  /** A server's frame for a client that is there goes to it, with the server's
      id in the same place; otherwise the server gets message 98 with the id. */
  lemma ServerSends(g: State, slots: seq<Slot>, signed: bool, x: int, y: nat, bytes: seq<Byte>, body: seq<Byte>)
    requires x in g.conns && g.conns[x].buffer == NONE && FrameOf(bytes, body) && !Hello(body)
    requires g.conns[x].kind == Server && bytes[2] < 128 && bytes[3] < 128 && y == bytes[2] as nat * 256 + bytes[3] as nat && 0 < g.sid < 65536
    ensures Sends(g, slots, signed, Data(x, bytes)) ==
            if SlotOf(slots, y) > 0 then [Sent(y, bytes[..2] + [g.sid / 256, g.sid % 256] + bytes[4..])]
            else [Sent(g.sid, [0, 6, bytes[2], bytes[3], 0, 98])]
  {
    Complete(bytes, body);
    hide Dispatch;
    HeaderIs(bytes, body);
    assert Frame(body) == bytes;
    assert ReadBlock(bytes, 2, signed) == y;
    assert WriteBlock(bytes, g.sid, 2) == bytes[..2] + [g.sid / 256, g.sid % 256] + bytes[4..];
    assert y / 256 % 256 == bytes[2] && y % 256 == bytes[3];
    assert GoneNotice(y) == [0, 6, bytes[2], bytes[3], 0, 98];
  }
}
