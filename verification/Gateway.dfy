/** The gateway (gate_main.c): what each socket event does to the connections,
    and what holds after every sequence of events. */
module GatewaySpec {
  import opened Framing

  /** conn_tp: 0 until a handshake, then 'C', 'S' or 'D'. */
  datatype Kind = Unknown | Client | Server | Debug

  datatype Conn = Conn(kind: Kind, buffer: Buf)

  /** The three digests that a handshake is compared with. */
  datatype Keys = Keys(client: seq<Byte>, server: seq<Byte>, debug: seq<Byte>)

  /** asked: the sockets whose closing was requested and has not been reported. */
  datatype State = State(keys: Keys, max: nat, listen: int, sid: int, conns: map<int, Conn>, asked: set<int>)

  datatype Event = Accept(id: int) | Connect(id: int) | Data(id: int, bytes: seq<Byte>) | Closed(id: int)

  /** The two bytes of a frame that say what it is; 100 is the handshake. */
  predicate IsHandshake(body: seq<Byte>)
    requires |body| >= 6
  {
    body[2] == 0 && body[3] == 100
  }

  function Update(g: State, x: int, c: Conn): State { g.(conns := g.conns[x := c]) }

  /** databuffer_clear and gate_socket_close: the end of every refusal. */
  function Refuse(g: State, x: int): State
    requires x in g.conns
  {
    Update(g, x, g.conns[x].(buffer := NONE)).(asked := g.asked + {x})
  }

  function Handshake(g: State, x: int, device: seq<Byte>): State
    requires x in g.conns
  {
    if device == g.keys.client then Update(g, x, g.conns[x].(kind := Client))
    else if device == g.keys.server then
      var g1 := Update(g, x, g.conns[x].(kind := Server));
      if g.sid > 0 then Refuse(g1, x) else g1.(sid := x)
    else if device == g.keys.debug then Update(g, x, g.conns[x].(kind := Debug))
    else Refuse(g, x)
  }

  /** handlemsg, but for what is sent where, which is in GatewayRoutes. */
  function HandleMsg(g: State, x: int): State
    requires x in g.conns
  {
    match g.conns[x].kind
    case Client => if g.sid > 0 then g else Refuse(g, x)
    case Unknown => Refuse(g, x)
    case _ => g
  }

  function Deliver(g: State, x: int, chunk: seq<Byte>): State
    requires x in g.conns
  {
    var r := Dispatch(g.conns[x].buffer, chunk);
    var g1 := Update(g, x, g.conns[x].(buffer := r.0));
    if r.1.None? then g1
    else if IsHandshake(r.1.v) then Handshake(g1, x, r.1.v[4..])
    else HandleMsg(g1, x)
  }

  function Step(g: State, e: Event): State {
    match e
    case Accept(x) =>
      if |g.conns| == g.max then g.(asked := g.asked + {x}) else Update(g, x, Conn(Unknown, NONE))
    case Connect(x) =>
      if x == g.listen || x in g.conns then g else g.(asked := g.asked + {x})
    case Data(x, bytes) =>
      if x in g.conns then Deliver(g, x, bytes) else g.(asked := g.asked + {x})
    case Closed(x) =>
      if x in g.conns then g.(conns := g.conns - {x}, sid := if x == g.sid then -1 else g.sid, asked := g.asked - {x})
      else g.(asked := g.asked - {x})
  }

  /** The socket layer hands out positive ids, and none that is in use. */
  predicate Legal(g: State, e: Event) { e.Accept? ==> e.id > 0 && e.id !in g.conns }

  function Run(g: State, es: seq<Event>): State
    decreases |es|
  {
    if es == [] then g else Run(Step(g, es[0]), es[1..])
  }

  predicate LegalRun(g: State, es: seq<Event>)
    decreases |es|
  {
    es != [] ==> Legal(g, es[0]) && LegalRun(Step(g, es[0]), es[1..])
  }

  function Start(keys: Keys, max: nat, listen: int): State { State(keys, max, listen, 0, map[], {}) }

  /** There are never too many connections, a registered server is connected, and
      whoever else has passed for a server was asked to leave. */
  ghost predicate Inv(g: State) {
    && |g.conns| <= g.max
    && (forall x | x in g.conns :: x > 0)
    && (g.sid > 0 ==> g.sid in g.conns)
    && (forall x | x in g.conns && g.conns[x].kind == Server :: x == g.sid || x in g.asked)
  }

  lemma SizeOfUpdate(m: map<int, Conn>, x: int, c: Conn)
    ensures |m[x := c]| == (if x in m then |m| else |m| + 1)
  {
    if x in m {
      assert m[x := c].Keys == m.Keys;
    } else {
      assert m[x := c].Keys == m.Keys + {x};
    }
    assert |m| == |m.Keys| && |m[x := c]| == |m[x := c].Keys|;
  }

  lemma SizeOfRemove(m: map<int, Conn>, x: int)
    requires x in m
    ensures |m - {x}| == |m| - 1
  {
    assert (m - {x}).Keys == m.Keys - {x};
    assert |m| == |m.Keys| && |m - {x}| == |(m - {x}).Keys|;
  }

  lemma UpdateKeeps(g: State, x: int, c: Conn)
    requires Inv(g) && x in g.conns && (c.kind == Server ==> x == g.sid || x in g.asked || g.conns[x].kind == Server)
    ensures Inv(Update(g, x, c)) && Update(g, x, c).conns.Keys == g.conns.Keys
  {
    SizeOfUpdate(g.conns, x, c);
  }

  lemma AskKeeps(g: State, x: int)
    requires Inv(g)
    ensures Inv(g.(asked := g.asked + {x}))
  {}

  lemma RefuseKeeps(g: State, x: int)
    requires Inv(g) && x in g.conns
    ensures Inv(Refuse(g, x)) && Refuse(g, x).conns.Keys == g.conns.Keys
  {
    UpdateKeeps(g, x, g.conns[x].(buffer := NONE));
    AskKeeps(Update(g, x, g.conns[x].(buffer := NONE)), x);
  }

  lemma HandshakeKeeps(g: State, x: int, device: seq<Byte>)
    requires Inv(g) && x in g.conns
    ensures Inv(Handshake(g, x, device)) && Handshake(g, x, device).conns.Keys == g.conns.Keys
  {
    UpdateKeeps(g, x, g.conns[x].(kind := Client));
    UpdateKeeps(g, x, g.conns[x].(kind := Debug));
    RefuseKeeps(g, x);
    if g.sid > 0 {
      AskKeeps(g, x);
      var g1 := g.(asked := g.asked + {x});
      UpdateKeeps(g1, x, g.conns[x].(kind := Server, buffer := NONE));
      assert Refuse(Update(g, x, g.conns[x].(kind := Server)), x) == Update(g1, x, g.conns[x].(kind := Server, buffer := NONE))
        by { assert g.conns[x := g.conns[x].(kind := Server)][x := g.conns[x].(kind := Server, buffer := NONE)] == g.conns[x := g.conns[x].(kind := Server, buffer := NONE)]; }
    } else {
      UpdateKeeps(g.(sid := x), x, g.conns[x].(kind := Server));
    }
  }

  lemma LongEnough(b: Buf, chunk: seq<Byte>)
    ensures Dispatch(b, chunk).1.Some? ==> |Dispatch(b, chunk).1.v| >= 6
  {}

  lemma DeliverKeeps(g: State, x: int, chunk: seq<Byte>)
    requires Inv(g) && x in g.conns
    ensures Inv(Deliver(g, x, chunk)) && Deliver(g, x, chunk).conns.Keys == g.conns.Keys
  {
    hide Dispatch, Inv, Handshake, Refuse;
    var r := Dispatch(g.conns[x].buffer, chunk);
    var g1 := Update(g, x, g.conns[x].(buffer := r.0));
    BufferKeeps(g, x, r.0);
    RefuseKeeps(g1, x);
    LongEnough(g.conns[x].buffer, chunk);
    if r.1.Some? { HandshakeKeeps(g1, x, r.1.v[4..]); }
  }

  lemma BufferKeeps(g: State, x: int, b: Buf)
    requires Inv(g) && x in g.conns
    ensures Inv(Update(g, x, g.conns[x].(buffer := b))) && Update(g, x, g.conns[x].(buffer := b)).conns.Keys == g.conns.Keys
  {
    UpdateKeeps(g, x, g.conns[x].(buffer := b));
  }

  lemma StepKeeps(g: State, e: Event)
    requires Inv(g) && Legal(g, e)
    ensures Inv(Step(g, e))
  {
    hide Deliver;
    match e {
      case Accept(x) => { SizeOfUpdate(g.conns, x, Conn(Unknown, NONE)); }
      case Data(x, bytes) => { if x in g.conns { DeliverKeeps(g, x, bytes); } }
      case Closed(x) => { if x in g.conns { SizeOfRemove(g.conns, x); } }
      case Connect(x) => {}
    }
  }

  lemma {:induction false} RunKeeps(g: State, es: seq<Event>)
    requires Inv(g) && LegalRun(g, es)
    ensures Inv(Run(g, es))
    decreases |es|
  {
    hide Step, Inv;
    if es != [] {
      StepKeeps(g, es[0]);
      RunKeeps(Step(g, es[0]), es[1..]);
    }
  }

  lemma AlwaysInv(keys: Keys, max: nat, listen: int, es: seq<Event>)
    requires LegalRun(Start(keys, max, listen), es)
    ensures Inv(Run(Start(keys, max, listen), es))
  {
    RunKeeps(Start(keys, max, listen), es);
  }

  /** One event registers a server only where there is none, and unregisters it
      only when its own socket has closed. */
  lemma SidChanges(g: State, e: Event)
    requires Inv(g)
    ensures Step(g, e).sid != g.sid ==>
              (g.sid <= 0 && e.Data? && Step(g, e).sid == e.id && e.id in g.conns) ||
              (e == Closed(g.sid) && Step(g, e).sid == -1)
  {
    hide Dispatch;
    if e.Data? && e.id in g.conns { LongEnough(g.conns[e.id].buffer, e.bytes); }
  }

  /** As long as its socket stays open a registered server is not replaced. */
  lemma {:induction false} ServerStays(g: State, es: seq<Event>)
    requires Inv(g) && LegalRun(g, es) && g.sid > 0 && Closed(g.sid) !in es
    ensures Run(g, es).sid == g.sid && g.sid in Run(g, es).conns
    decreases |es|
  {
    RunKeeps(g, es);
    if es != [] {
      assert es[0] in es;
      StepKeeps(g, es[0]);
      SidChanges(g, es[0]);
      hide Step, Inv;
      ServerStays(Step(g, es[0]), es[1..]);
    }
  }

  /** After every run, whoever passes for a server and was not asked to leave is
      the registered one: there is one at most. */
  lemma OneServer(keys: Keys, max: nat, listen: int, es: seq<Event>, x: int)
    requires LegalRun(Start(keys, max, listen), es)
    ensures var g := Run(Start(keys, max, listen), es);
            x in g.conns && x !in g.asked && g.conns[x].kind == Server ==> x == g.sid
  {
    AlwaysInv(keys, max, listen, es);
  }

  // ------------------------------------------------- the traffic of one socket

  function Chunks(es: seq<Event>, x: int): seq<seq<Byte>>
    decreases |es|
  {
    if es == [] then [] else (if es[0].Data? && es[0].id == x then [es[0].bytes] else []) + Chunks(es[1..], x)
  }

  lemma OthersTraffic(g: State, e: Event, x: int)
    requires x in g.conns && Legal(g, e) && e.id != x
    ensures x in Step(g, e).conns && Step(g, e).conns[x] == g.conns[x]
    ensures x in g.asked <==> x in Step(g, e).asked
  {
    hide Dispatch;
    if e.Data? && e.id in g.conns { LongEnough(g.conns[e.id].buffer, e.bytes); }
  }

  lemma OwnTraffic(g: State, e: Event)
    requires e.id in g.conns && e.Data?
    ensures var g1 := Step(g, e);
            e.id in g1.conns && g.asked <= g1.asked &&
            (e.id !in g1.asked ==> g1.conns[e.id].buffer == Dispatch(g.conns[e.id].buffer, e.bytes).0)
  {
    hide Dispatch;
    LongEnough(g.conns[e.id].buffer, e.bytes);
  }

  lemma {:induction false} AskedStays(g: State, es: seq<Event>, x: int)
    requires LegalRun(g, es) && x in g.conns && x in g.asked && Closed(x) !in es
    ensures x in Run(g, es).asked
    decreases |es|
  {
    if es != [] {
      var e := es[0];
      assert e in es;
      if e.id != x { OthersTraffic(g, e, x); } else if e.Data? { OwnTraffic(g, e); }
      AskedStays(Step(g, e), es[1..], x);
    }
  }

  /** Whatever the other sockets do, and as long as it is neither closed nor asked
      to leave, a connection's buffer is what its own chunks make of it. */
  lemma {:induction false} BufferIsOwn(g: State, es: seq<Event>, x: int)
    requires LegalRun(g, es) && x in g.conns && Closed(x) !in es
    ensures x in Run(g, es).conns
    ensures x !in Run(g, es).asked ==>
              Run(g, es).conns[x].buffer == Framing.Run(g.conns[x].buffer, Chunks(es, x)).0
    decreases |es|
  {
    if es != [] {
      var e := es[0];
      var g1 := Step(g, e);
      assert e in es;
      if e.id == x && e.Data? {
        OwnTraffic(g, e);
        assert Chunks(es, x)[1..] == Chunks(es[1..], x);
        RunOne(g.conns[x].buffer, Chunks(es, x));
      } else if e.id != x {
        OthersTraffic(g, e, x);
        assert Chunks(es, x) == Chunks(es[1..], x);
      } else {
        assert Chunks(es, x) == Chunks(es[1..], x);
      }
      BufferIsOwn(g1, es[1..], x);
      if x in g1.asked { AskedStays(g1, es[1..], x); }
    }
  }

  /** On a connection that was just accepted: whatever the other sockets do, what
      came in is the frames handed on and what its buffer holds. */
  lemma StreamConserved(g: State, es: seq<Event>, x: int, fs: seq<seq<Byte>>)
    requires LegalRun(g, es) && x in g.conns && g.conns[x].buffer == NONE && Closed(x) !in es
    requires x !in Run(g, es).asked
    requires Sizes(fs, 6) && Flat(Chunks(es, x)) <= Frames(fs)
    ensures x in Run(g, es).conns
    ensures var handed := Framing.Run(NONE, Chunks(es, x)).1;
            handed <= fs && Flat(Chunks(es, x)) == Frames(handed) + Pending(Run(g, es).conns[x].buffer)
  {
    BufferIsOwn(g, es, x);
    LongFramesConserve(fs);
  }
}

module Gateways {
  import opened Framing
  import opened GatewaySpec
  import opened HashIdSpec
  import opened GatewayRoutes
  import HashId

  datatype Connection = Connection(id: int, kind: Kind, buffer: Buf)

  const NOCONN := Connection(-1, Unknown, NONE)

  ghost predicate SlotAgrees(s: seq<Slot>, conn: seq<Connection>, conns: map<int, Conn>, i: int)
    requires |conn| == |s| && 0 <= i < |s|
  {
    if s[i].id == -1 then conn[i] == NOCONN
    else s[i].id in conns && conn[i] == Connection(s[i].id, conns[s[i].id].kind, conns[s[i].id].buffer)
  }

  /** Every slot of the index has the connection with its id, every free one none,
      and every connection has a slot. */
  ghost predicate Agree(s: seq<Slot>, conn: seq<Connection>, conns: map<int, Conn>) {
    && |conn| == |s|
    && (forall i | 0 <= i < |s| :: SlotAgrees(s, conn, conns, i))
    && (forall x | x in conns :: x > 0 && SlotOf(s, x) >= 0)
  }

  /** No two slots have one id. */
  ghost predicate Injective(s: seq<Slot>) {
    forall i, j | 0 <= i < j < |s| && s[i].id != -1 :: s[i].id != s[j].id
  }

  lemma IndexInjective(s: seq<Slot>, rank: seq<int>, h: seq<int>)
    requires HashIdSpec.Index(s, rank, h)
    ensures Injective(s)
  {
    hide Bucket;
    forall i, j | 0 <= i < j < |s| && s[i].id != -1 ensures s[i].id != s[j].id { assert PairOk(s, rank, |h|, i, j); }
  }

  lemma Located(s: seq<Slot>, x: int, i: int)
    requires 0 <= i < |s| && s[i].id == x
    ensures SlotOf(s, x) >= 0
  {}

  lemma AgreeUpdate(s: seq<Slot>, conn: seq<Connection>, conns: map<int, Conn>, i: int, c: Conn)
    requires Agree(s, conn, conns) && Injective(s) && 0 <= i < |s| && s[i].id != -1
    ensures s[i].id in conns
    ensures Agree(s, conn[i := Connection(s[i].id, c.kind, c.buffer)], conns[s[i].id := c])
  {
    hide SlotOf;
    assert SlotAgrees(s, conn, conns, i);
    var conn1, conns1 := conn[i := Connection(s[i].id, c.kind, c.buffer)], conns[s[i].id := c];
    forall j | 0 <= j < |s| ensures SlotAgrees(s, conn1, conns1, j) {
      assert SlotAgrees(s, conn, conns, j);
    }
  }

  lemma AgreeInsert(s: seq<Slot>, conn: seq<Connection>, conns: map<int, Conn>, i: int, s1: seq<Slot>, x: int)
    requires Agree(s, conn, conns) && 0 <= i < |s| == |s1| && s[i].id == -1 && s1[i].id == x > 0 && x !in conns
    requires forall j | 0 <= j < |s| && j != i :: s1[j].id == s[j].id
    ensures conn[i] == NOCONN && Agree(s1, conn[i := NOCONN.(id := x)], conns[x := Conn(Unknown, NONE)])
  {
    assert SlotAgrees(s, conn, conns, i);
    var conn1, conns1 := conn[i := NOCONN.(id := x)], conns[x := Conn(Unknown, NONE)];
    forall j | 0 <= j < |s| ensures SlotAgrees(s1, conn1, conns1, j) {
      assert SlotAgrees(s, conn, conns, j);
    }
    Located(s1, x, i);
    forall y | y in conns ensures SlotOf(s1, y) >= 0 { Located(s1, y, SlotOf(s, y)); }
  }

  lemma AgreeRemove(s: seq<Slot>, conn: seq<Connection>, conns: map<int, Conn>, i: int, s1: seq<Slot>)
    requires Agree(s, conn, conns) && Injective(s) && 0 <= i < |s| == |s1| && s[i].id != -1 && s1[i].id == -1
    requires forall j | 0 <= j < |s| && j != i :: s1[j].id == s[j].id
    ensures s[i].id in conns && Agree(s1, conn[i := NOCONN], conns - {s[i].id})
  {
    assert SlotAgrees(s, conn, conns, i);
    var conn1, conns1 := conn[i := NOCONN], conns - {s[i].id};
    forall j | 0 <= j < |s| ensures SlotAgrees(s1, conn1, conns1, j) {
      assert SlotAgrees(s, conn, conns, j);
    }
    forall y | y in conns && y != s[i].id ensures SlotOf(s1, y) >= 0 { Located(s1, y, SlotOf(s, y)); }
  }

  /** Only connected ids are found, all of them are, and at the slot that has them. */
  lemma FoundAgrees(s: seq<Slot>, conn: seq<Connection>, conns: map<int, Conn>, x: int)
    requires Agree(s, conn, conns) && x != -1
    ensures SlotOf(s, x) >= 0 <==> x in conns
    ensures x in conns ==> 0 <= SlotOf(s, x) < |conn| && conn[SlotOf(s, x)] == Connection(x, conns[x].kind, conns[x].buffer)
  {
    var i := SlotOf(s, x);
    hide SlotOf;
    if i >= 0 {
      SlotOfHas(s, x);
      assert SlotAgrees(s, conn, conns, i);
    }
  }

  lemma SlotOfHas(s: seq<Slot>, x: int)
    ensures -1 <= SlotOf(s, x) < |s| && (SlotOf(s, x) >= 0 ==> s[SlotOf(s, x)].id == x)
  {}

  class Gate {
    const keys: Keys
    const max: nat
    var listen: int
    var hash: HashId.Index
    var sid: int
    var conn: array<Connection>
    const signedChar: bool
    ghost var conns: map<int, Conn>
    ghost var asked: set<int>
    /** What the socket layer was given to send. */
    ghost var sent: seq<Sent>

    ghost predicate Valid()
      reads this, hash, hash.id, hash.hash, conn
    {
      && hash.Valid() && hash.cap == max
      && |conns| == hash.count && Agree(hash.id[..], conn[..], conns)
    }

    ghost function State(): GatewaySpec.State
      reads this
    {
      GatewaySpec.State(keys, max, listen, sid, conns, asked)
    }

    /** gate_init; the socket layer has given the listening socket its id. */
    constructor (keys: Keys, max: nat, listen: int, signedChar: bool)
      ensures Valid() && State() == Start(keys, max, listen) && sent == [] && this.signedChar == signedChar
    {
      this.keys, this.max, this.listen, this.sid, this.signedChar := keys, max, listen, 0, signedChar;
      this.hash := new HashId.Index(max);
      this.conn := new Connection[max](_ => NOCONN);
      this.conns, this.asked, this.sent := map[], {}, [];
    }

    /** The connection with this id is in this slot. */
    ghost predicate At(slot: int, x: int)
      requires Valid()
      reads this, hash, hash.id, hash.hash, conn
    {
      0 <= slot < max && hash.id[slot].id == x != -1 && x in conns && conn[slot] == Connection(x, conns[x].kind, conns[x].buffer)
    }

    /** hashid_lookup of any id: the slot of its connection, or -1. */
    method Find(x: int) returns (slot: int)
      requires Valid()
      ensures if x in conns then At(slot, x) else slot == -1
    {
      slot := hash.Lookup(x);
      if x != -1 {
        FoundAgrees(hash.id[..], conn[..], conns, x);
        SlotOfHas(hash.id[..], x);
      }
    }

    /** gate_socket_close: a request, which is answered by an event later. */
    method CloseSocket(x: int)
      modifies this`asked
      ensures asked == old(asked) + {x}
    {
      asked := asked + {x};
    }

    /** gate_socket_send. */
    method Send(to: int, bytes: seq<Byte>)
      modifies this`sent
      ensures sent == old(sent) + [Sent(to, bytes)]
    {
      sent := sent + [Sent(to, bytes)];
    }

    /** The record of a connection gets a new handshake type and buffer. */
    method Store(slot: int, x: int, c: Conn)
      requires Valid() && 0 <= slot < max && hash.id[slot].id == x != -1
      modifies this`conns, conn
      ensures Valid() && x in old(conns) && State() == Update(old(State()), x, c) && conn[slot] == Connection(x, c.kind, c.buffer)
    {
      IndexInjective(hash.id[..], hash.rank, hash.hash[..]);
      AgreeUpdate(hash.id[..], conn[..], conns, slot, c);
      SizeOfUpdate(conns, x, c);
      ghost var was := conn[..];
      assert SlotAgrees(hash.id[..], was, conns, slot);
      conn[slot] := conn[slot].(kind := c.kind, buffer := c.buffer);
      conns := conns[x := c];
      assert conn[..] == was[slot := Connection(x, c.kind, c.buffer)];
    }

    /** databuffer_clear and gate_socket_close. */
    method Refuse(slot: int, x: int)
      requires Valid() && At(slot, x)
      modifies this`conns, this`asked, conn
      ensures Valid() && State() == GatewaySpec.Refuse(old(State()), x)
    {
      Store(slot, x, Conn(conn[slot].kind, NONE));
      CloseSocket(x);
    }

    method Handshake(slot: int, x: int, device: seq<Byte>)
      requires Valid() && At(slot, x)
      modifies this`conns, this`asked, this`sid, conn
      ensures Valid() && State() == GatewaySpec.Handshake(old(State()), x, device)
    {
      if device == keys.client {
        Store(slot, x, Conn(Client, conn[slot].buffer));
      } else if device == keys.server {
        Store(slot, x, Conn(Server, conn[slot].buffer));
        if sid > 0 { Refuse(slot, x); } else { sid := x; }
      } else if device == keys.debug {
        Store(slot, x, Conn(Debug, conn[slot].buffer));
      } else {
        Refuse(slot, x);
      }
    }

    /** handlemsg, but for the debug client's dispatch into Lua. */
    method HandleMsg(slot: int, x: int, body: seq<Byte>)
      requires Valid() && At(slot, x) && |body| >= 6
      modifies this`conns, this`asked, this`sent, conn
      ensures Valid() && State() == GatewaySpec.HandleMsg(old(State()), x)
      ensures sent == old(sent) + Route(old(State()), hash.id[..], signedChar, x, body)
    {
      var temp := Frame(body);
      match conn[slot].kind {
        case Client => {
          if sid > 0 {
            temp := WriteBlock(temp, x, 2);
            Send(sid, temp);
          } else {
            Refuse(slot, x);
          }
        }
        case Server => { ServerMsg(temp); }
        case Debug => {}
        case Unknown => { Refuse(slot, x); }
      }
    }

    /** A server's frame goes to the client it names, or a notice goes back. */
    method ServerMsg(temp: seq<Byte>)
      requires Valid() && |temp| >= 8
      modifies this`sent
      ensures sent == old(sent) +
                var mid := ReadBlock(temp, 2, signedChar);
                if GatewayRoutes.Lookup(hash.id[..], mid) > 0 then [Sent(mid, WriteBlock(temp, sid, 2))] else [Sent(sid, GoneNotice(mid))]
    {
      var mid := ReadBlock(temp, 2, signedChar);
      var slot := hash.Lookup(mid);
      if slot > 0 { Send(mid, WriteBlock(temp, sid, 2)); } else { Send(sid, GoneNotice(mid)); }
    }

    /** dispatch_message; what it does to the buffer is Framing.Dispatch. */
    method DispatchMessage(slot: int, x: int, chunk: seq<Byte>)
      requires Valid() && At(slot, x)
      modifies this`conns, this`asked, this`sid, this`sent, conn
      ensures Valid() && State() == Deliver(old(State()), x, chunk)
      ensures sent == old(sent) + Sends(old(State()), hash.id[..], signedChar, Data(x, chunk))
    {
      LongEnough(conn[slot].buffer, chunk);
      hide Dispatch, Route;
      var r := Dispatch(conn[slot].buffer, chunk);
      ghost var g := State();
      Store(slot, x, Conn(conn[slot].kind, r.0));
      if r.1.Some? {
        RouteSame(g, State(), hash.id[..], signedChar, x, r.1.v);
        if IsHandshake(r.1.v) { Handshake(slot, x, r.1.v[4..]); } else { HandleMsg(slot, x, r.1.v); }
      }
    }

    /** A new connection: there is a slot for it unless all are in use. */
    method OnAccept(x: int)
      requires Valid() && x > 0 && x !in conns
      modifies this, hash, hash.id, hash.hash, conn
      ensures Valid() && hash == old(hash) && hash.id == old(hash.id) && hash.hash == old(hash.hash) && conn == old(conn)
      ensures State() == Step(old(State()), Accept(x)) && sent == old(sent)
    {
      FoundAgrees(hash.id[..], conn[..], conns, x);
      SizeOfUpdate(conns, x, Conn(Unknown, NONE));
      UsedBounds(hash.id[..]);
      var full := hash.Full();
      if full {
        CloseSocket(x);
      } else {
        ghost var s, was := hash.id[..], conn[..];
        var slot := hash.Insert(x);
        AgreeInsert(s, was, conns, slot, hash.id[..], x);
        conn[slot] := conn[slot].(id := x);
        conns := conns[x := Conn(Unknown, NONE)];
        assert conn[..] == was[slot := NOCONN.(id := x)];
      }
    }

    method OnClose(x: int)
      requires Valid()
      modifies this, hash, hash.id, hash.hash, conn
      ensures Valid() && hash == old(hash) && hash.id == old(hash.id) && hash.hash == old(hash.hash) && conn == old(conn)
      ensures State() == Step(old(State()), Closed(x)) && sent == old(sent)
    {
      ghost var s, was := hash.id[..], conn[..];
      IndexInjective(s, hash.rank, hash.hash[..]);
      if x != -1 { FoundAgrees(s, was, conns, x); SlotOfHas(s, x); }
      var slot := hash.Remove(x);
      if slot >= 0 {
        AgreeRemove(s, was, conns, slot, hash.id[..]);
        SizeOfRemove(conns, x);
        if conn[slot].id == sid { sid := -1; }
        conn[slot] := NOCONN;
        conns := conns - {x};
        assert conn[..] == was[slot := NOCONN];
      }
      asked := asked - {x};
    }

    /** dispatch_socket_message: every event does what its step says, and keeps
        index and records together. */
    method DispatchSocketMessage(e: Event)
      requires Valid() && Legal(State(), e)
      modifies this, hash, hash.id, hash.hash, conn
      ensures Valid() && hash == old(hash) && hash.id == old(hash.id) && hash.hash == old(hash.hash) && conn == old(conn)
      ensures State() == Step(old(State()), e)
      ensures sent == old(sent) + Sends(old(State()), old(hash.id[..]), signedChar, e)
    {
      hide Route;
      match e {
        case Data(x, bytes) => {
          var slot := Find(x);
          if slot >= 0 { DispatchMessage(slot, x, bytes); } else { CloseSocket(x); }
        }
        case Connect(x) => {
          if x != listen {
            var slot := Find(x);
            if slot < 0 { CloseSocket(x); }
          }
        }
        case Closed(x) => { OnClose(x); }
        case Accept(x) => { OnAccept(x); }
      }
    }

    /** The laws of GatewayRoutes hold in every state of the gateway. */
    lemma SlotsIndexed()
      requires Valid()
      ensures Indexed(State(), hash.id[..])
    {
      forall y ensures GatewayRoutes.Lookup(hash.id[..], y) >= 0 <==> y in conns {
        if y != -1 { FoundAgrees(hash.id[..], conn[..], conns, y); }
      }
    }

    /** gate_dispatch: the events of the queue, one after the other. */
    method GateDispatch(es: seq<Event>)
      requires Valid() && LegalRun(State(), es)
      modifies this, hash, hash.id, hash.hash, conn
      ensures Valid() && State() == GatewaySpec.Run(old(State()), es) && Indexed(State(), hash.id[..])
    {
      hide Step;
      var i := 0;
      while i < |es|
        invariant 0 <= i <= |es| && Valid() && LegalRun(State(), es[i..])
        invariant GatewaySpec.Run(State(), es[i..]) == GatewaySpec.Run(old(State()), es)
        invariant hash == old(hash) && hash.id == old(hash.id) && hash.hash == old(hash.hash) && conn == old(conn)
      {
        assert es[i..][0] == es[i] && es[i..][1..] == es[i + 1..];
        DispatchSocketMessage(es[i]);
        i := i + 1;
      }
      SlotsIndexed();
    }
  }
}
