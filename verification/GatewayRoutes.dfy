/** What the gateway hands to the socket layer (gate_main.c): a client's frames
    go to the server with the client's id in them, and the server's go to the
    client whose id they have - as far as that id can be read back. */
module GatewayRoutes {
  import opened Framing
  import opened GatewaySpec
  import opened HashIdSpec

  /** A call of gate_socket_send. */
  datatype Sent = Sent(to: int, bytes: seq<Byte>)

  /** write_block: the low 16 bits of r, high byte first. */
  function WriteBlock(b: seq<Byte>, r: int, pos: nat): (b': seq<Byte>)
    requires pos + 1 < |b|
    ensures |b'| == |b|
  {
    b[pos := r / 256 % 256][pos + 1 := r % 256]
  }

  /** A plain char, which is signed on some machines and not on others. */
  function CharValue(b: Byte, signed: bool): int { if signed && b >= 128 then b - 256 else b }

  /** read_block: `hi << 8 | lo`, where a negative lo has all higher bits set. */
  function ReadBlock(b: seq<Byte>, pos: nat, signed: bool): int
    requires pos + 1 < |b|
  {
    var hi, lo := CharValue(b[pos], signed), CharValue(b[pos + 1], signed);
    if lo < 0 then lo else hi * 256 + lo
  }

  /** hashid_lookup: no slot has the id of a free one. */
  function Lookup(slots: seq<Slot>, id: int): int { if id == -1 then -1 else SlotOf(slots, id) }

  /** What a server is told about a client that is not there: message 98. */
  function GoneNotice(cid: int): (b: seq<Byte>)
    ensures |b| == 6
  {
    WriteBlock(WriteBlock(WriteBlock([0, 0, 0, 0, 0, 0], 6, 0), cid, 2), 98, 4)
  }

  /** handlemsg: what is sent for a frame with this body. */
  function Route(g: State, slots: seq<Slot>, signed: bool, x: int, body: seq<Byte>): seq<Sent>
    requires x in g.conns && |body| >= 6
  {
    var temp := Frame(body);
    match g.conns[x].kind
    case Client => if g.sid > 0 then [Sent(g.sid, WriteBlock(temp, x, 2))] else []
    case Server =>
      var mid := ReadBlock(temp, 2, signed);
      if Lookup(slots, mid) > 0 then [Sent(mid, WriteBlock(temp, g.sid, 2))] else [Sent(g.sid, GoneNotice(mid))]
    case _ => []
  }

  /** What is sent because of an event. */
  function Sends(g: State, slots: seq<Slot>, signed: bool, e: Event): seq<Sent> {
    if e.Data? && e.id in g.conns then
      var r := Dispatch(g.conns[e.id].buffer, e.bytes);
      LongEnough(g.conns[e.id].buffer, e.bytes);
      if r.1.Some? && !IsHandshake(r.1.v) then Route(g, slots, signed, e.id, r.1.v) else []
    else []
  }

  /** Only the kind of the connection and the server's id count. */
  lemma RouteSame(g: State, g': State, slots: seq<Slot>, signed: bool, x: int, body: seq<Byte>)
    requires x in g.conns && x in g'.conns && g'.conns[x].kind == g.conns[x].kind && g'.sid == g.sid && |body| >= 6
    ensures Route(g', slots, signed, x, body) == Route(g, slots, signed, x, body)
  {}

  /** The index has a slot for each connection, and no other id. */
  ghost predicate Indexed(g: State, slots: seq<Slot>) { forall y :: Lookup(slots, y) >= 0 <==> y in g.conns }

  // -------------------------------------------------------------- reading back

  /** The ids that read_block gives back. */
  predicate Readable(y: nat, signed: bool) {
    if signed then y < 32768 && y % 256 < 128 else y < 65536
  }

  lemma ReadsBackExactly(b: seq<Byte>, y: nat, pos: nat, signed: bool)
    requires pos + 1 < |b|
    ensures ReadBlock(WriteBlock(b, y, pos), pos, signed) == y <==> Readable(y, signed)
  {
    var hi, lo := y / 256 % 256, y % 256;
    assert y == y / 256 * 256 + lo;
    if y < 65536 { assert hi == y / 256; }
  }

  // ------------------------------------------------------------------ the routes

  /** A client's frame goes to the registered server, and only there; the server
      can tell the low 16 bits of the client's id from it, and gets the rest
      unchanged. */
  lemma ClientForwards(g: State, slots: seq<Slot>, signed: bool, x: int, body: seq<Byte>)
    requires x in g.conns && g.conns[x].kind == Client && g.sid > 0 && 6 <= |body| < 65536
    ensures var r := Route(g, slots, signed, x, body);
      && |r| == 1 && r[0].to == g.sid && |r[0].bytes| == |body| + 2
      && HeaderValue(r[0].bytes[0], r[0].bytes[1]) == |body|
      && HeaderValue(r[0].bytes[2], r[0].bytes[3]) == x % 65536
      && r[0].bytes[4..] == body[2..]
  {
    var f := Route(g, slots, signed, x, body)[0].bytes;
    HeaderBack(|body|);
    assert Frame(body)[4..] == body[2..];
    assert x / 256 % 256 * 256 + x % 256 == x % 65536;
  }

  /** The body names the client y: it has the two bytes that the server got. */
  predicate Names(body: seq<Byte>, y: nat) { |body| >= 6 && body[0] == y / 256 % 256 && body[1] == y % 256 }

  lemma NameRead(body: seq<Byte>, y: nat, signed: bool)
    requires Names(body, y)
    ensures ReadBlock(Frame(body), 2, signed) == y <==> Readable(y, signed)
  {
    assert Frame(body) == WriteBlock(Frame(body), y, 2);
    ReadsBackExactly(Frame(body), y, 2, signed);
  }

  /** A server's frame for a connected client reaches that client if and only if
      the client's id can be read back and the client is not in the first slot,
      whose number is taken for "not found". */
  lemma AnswerExactly(g: State, slots: seq<Slot>, signed: bool, x: int, y: nat, body: seq<Byte>)
    requires x in g.conns && g.conns[x].kind == Server && y in g.conns && y != g.sid && Indexed(g, slots) && Names(body, y)
    ensures (exists s | s in Route(g, slots, signed, x, body) :: s.to == y) <==> Readable(y, signed) && Lookup(slots, y) != 0
    ensures Readable(y, signed) && Lookup(slots, y) != 0 ==>
              Route(g, slots, signed, x, body) == [Sent(y, WriteBlock(Frame(body), g.sid, 2))]
  {
    NameRead(body, y, signed);
    hide ReadBlock, Frame, WriteBlock;
    var r := Route(g, slots, signed, x, body);
    assert Lookup(slots, y) >= 0;
    assert forall s | s in r :: s == r[0];
  }

  lemma LowBits(y: nat, z: nat)
    requires z < 65536 && y % 65536 == z
    ensures y / 256 % 256 == z / 256 % 256 && y % 256 == z % 256
  {
    var q := y / 65536;
    assert y == 256 * (256 * q) + z;
    assert z == 256 * (z / 256) + z % 256;
    assert y == 256 * (256 * q + z / 256) + z % 256;
    assert y / 256 == 256 * q + z / 256;
  }

  /** So the server's answers for two clients whose ids agree in the low 16 bits
      go to one of them, if to any: never to the one whose id is larger. */
  lemma AnswersMixed(g: State, slots: seq<Slot>, signed: bool, x: int, y: nat, z: nat, body: seq<Byte>)
    requires x in g.conns && g.conns[x].kind == Server && y in g.conns && z in g.conns && y != g.sid && z != g.sid
    requires Indexed(g, slots) && Names(body, y) && z < 65536 <= y && y % 65536 == z
    ensures forall s | s in Route(g, slots, signed, x, body) :: s.to != y
    ensures Readable(z, signed) && Lookup(slots, z) != 0 ==> exists s | s in Route(g, slots, signed, x, body) :: s.to == z
  {
    AnswerExactly(g, slots, signed, x, y, body);
    LowBits(y, z);
    assert Names(body, z);
    assert !Readable(y, signed);
    hide Readable, Route, Names;
    AnswerExactly(g, slots, signed, x, z, body);
  }

  /** Nothing is sent but to the server's id or a connected socket, and to a
      socket that is not the server only from one that has passed for a server:
      the registered one, or one that was asked to leave. */
  lemma SendsWithin(g: State, slots: seq<Slot>, signed: bool, e: Event)
    requires Inv(g) && Indexed(g, slots)
    ensures forall s | s in Sends(g, slots, signed, e) ::
              s.to == g.sid || (s.to in g.conns && g.conns[e.id].kind == Server && (e.id == g.sid || e.id in g.asked))
  {
    hide ReadBlock, WriteBlock, Dispatch, GoneNotice, Frame;
    if e.Data? && e.id in g.conns { LongEnough(g.conns[e.id].buffer, e.bytes); }
  }
}
