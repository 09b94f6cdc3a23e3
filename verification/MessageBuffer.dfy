/** Framing on the gateway's connections (databuffer.h, gate_main.c): a frame is
    its body's length in two bytes, high byte first, and the body. */
module Framing {
  type Byte = x: int | 0 <= x < 256

  /** The header that has been read, 0 if none, and the bytes behind it. */
  datatype Buf = Buf(header: nat, data: seq<Byte>)

  const NONE := Buf(0, [])

  datatype Option<T> = None | Some(v: T)

  function Header(n: nat): seq<Byte> { [n / 256 % 256, n % 256] }

  function HeaderValue(a: Byte, b: Byte): nat { a * 256 + b }

  lemma HeaderBack(n: nat)
    requires n < 65536
    ensures HeaderValue(Header(n)[0], Header(n)[1]) == n
  {}

  function Frame(f: seq<Byte>): seq<Byte> { Header(|f|) + f }

  function Frames(fs: seq<seq<Byte>>): seq<Byte> { if fs == [] then [] else Frame(fs[0]) + Frames(fs[1..]) }

  /** What the buffer stands for: bytes received but not handed on. */
  function Pending(b: Buf): seq<Byte> { (if b.header > 0 then Header(b.header) else []) + b.data }

  /** databuffer_readheader with a header of two bytes. */
  function WithHeader(b: Buf): Buf {
    if b.header == 0 && |b.data| >= 2 then Buf(HeaderValue(b.data[0], b.data[1]), b.data[2..]) else b
  }

  /** dispatch_message: at most one frame is taken from the buffer. A body that
      is too short is not read, but the header is given up. */
  function Dispatch(b: Buf, chunk: seq<Byte>): (Buf, Option<seq<Byte>>) {
    var b1 := WithHeader(Buf(b.header, b.data + chunk));
    if b1.header == 0 || |b1.data| < b1.header then (b1, None)
    else if b1.header >= 6 then (Buf(0, b1.data[b1.header..]), Some(b1.data[..b1.header]))
    else (Buf(0, b1.data), None)
  }

  function Run(b: Buf, chunks: seq<seq<Byte>>): (Buf, seq<seq<Byte>>)
    decreases |chunks|
  {
    if chunks == [] then (b, [])
    else
      var r := Dispatch(b, chunks[0]);
      var rest := Run(r.0, chunks[1..]);
      (rest.0, (if r.1.Some? then [r.1.v] else []) + rest.1)
  }

  function Flat(chunks: seq<seq<Byte>>): seq<Byte> { if chunks == [] then [] else chunks[0] + Flat(chunks[1..]) }

  ghost predicate Sizes(fs: seq<seq<Byte>>, least: nat) { forall i | 0 <= i < |fs| :: least <= |fs[i]| < 65536 }

  /** The buffer holds the beginning of the frames that are still to come. */
  ghost predicate Ahead(b: Buf, fs: seq<seq<Byte>>) {
    Pending(b) <= Frames(fs) && (b.header > 0 ==> fs != [] && b.header == |fs[0]|)
  }

  /** One chunk of a stream of frames that are long enough: the next frame is
      handed on or none is, and nothing is lost. */
  lemma DispatchKeeps(b: Buf, chunk: seq<Byte>, fs: seq<seq<Byte>>)
    requires Sizes(fs, 6) && Ahead(b, fs) && Pending(b) + chunk <= Frames(fs)
    ensures var r := Dispatch(b, chunk);
            match r.1
            case None => Ahead(r.0, fs) && Pending(r.0) == Pending(b) + chunk
            case Some(f) => fs != [] && f == fs[0] && Ahead(r.0, fs[1..]) && Frame(f) + Pending(r.0) == Pending(b) + chunk
  {
    var b0 := Buf(b.header, b.data + chunk);
    assert Pending(b0) == Pending(b) + chunk;
    HeaderRead(b0, fs);
    var b1 := WithHeader(b0);
    hide WithHeader, Frames, Header, Frame;
    if b1.header > 0 && |b1.data| >= b1.header { FrameComplete(b1, fs); }
  }

  lemma FrameComplete(b: Buf, fs: seq<seq<Byte>>)
    requires Ahead(b, fs) && 0 < b.header <= |b.data|
    ensures b.data[..b.header] == fs[0]
    ensures Frame(fs[0]) + Pending(Buf(0, b.data[b.header..])) == Pending(b)
    ensures Ahead(Buf(0, b.data[b.header..]), fs[1..])
  {
    var n := b.header;
    var f, tail := fs[0], Frames(fs[1..]);
    var body, rest := b.data[..n], b.data[n..];
    assert b.data == body + rest;
    assert Frames(fs) == Header(n) + (f + tail);
    assert Pending(b) == Header(n) + (body + rest);
    hide Frames, Header;
    PrefixTail(Header(n), body + rest, f + tail);
    assert body == (body + rest)[..n] && f == (f + tail)[..n];
    PrefixTail(f, rest, tail);
    assert Pending(Buf(0, rest)) == rest;
  }

  lemma PrefixTail<T>(a: seq<T>, b: seq<T>, c: seq<T>)
    requires a + b <= a + c
    ensures b <= c
  {
    assert b == (a + b)[|a|..] && c == (a + c)[|a|..];
  }

  lemma HeaderRead(b: Buf, fs: seq<seq<Byte>>)
    requires Sizes(fs, 6) && Ahead(b, fs)
    ensures Ahead(WithHeader(b), fs) && Pending(WithHeader(b)) == Pending(b)
    ensures WithHeader(b).header > 0 ==> fs != [] && WithHeader(b).header == |fs[0]|
  {
    if b.header == 0 && |b.data| >= 2 {
      assert Pending(b) == b.data;
      assert fs != [];
      HeaderBack(|fs[0]|);
      assert Frames(fs)[0] == Header(|fs[0]|)[0] && Frames(fs)[1] == Header(|fs[0]|)[1];
      assert b.data[0] == Frames(fs)[0] && b.data[1] == Frames(fs)[1];
      assert b.data == Header(|fs[0]|) + b.data[2..];
    }
  }

  lemma {:induction false} RunKeeps(b: Buf, chunks: seq<seq<Byte>>, fs: seq<seq<Byte>>)
    requires Sizes(fs, 6) && Ahead(b, fs) && Pending(b) + Flat(chunks) <= Frames(fs)
    ensures var r := Run(b, chunks);
            r.1 <= fs && Pending(b) + Flat(chunks) == Frames(r.1) + Pending(r.0)
    decreases |chunks|
  {
    hide Dispatch, WithHeader, Pending, Frame, Run;
    RunOne(b, chunks);
    if chunks == [] {
      assert Pending(b) + [] == Pending(b) && [] + Pending(b) == Pending(b);
    } else {
      var c, later := chunks[0], chunks[1..];
      assert Pending(b) + Flat(chunks) == (Pending(b) + c) + Flat(later);
      DispatchKeeps(b, c, fs);
      var r := Dispatch(b, c);
      var rest := Run(r.0, later);
      if r.1.None? {
        RunKeeps(r.0, later, fs);
        assert [] + rest.1 == rest.1;
      } else {
        var f := r.1.v;
        var tail := Pending(r.0) + Flat(later);
        assert Frame(f) + tail == Pending(b) + Flat(chunks);
        FramesCons(f, fs[1..]);
        FramesCons(f, rest.1);
        hide Frames;
        assert fs == [f] + fs[1..];
        PrefixTail(Frame(f), tail, Frames(fs[1..]));
        RunKeeps(r.0, later, fs[1..]);
      }
    }
  }

  lemma RunOne(b: Buf, chunks: seq<seq<Byte>>)
    ensures chunks == [] ==> Run(b, chunks) == (b, [])
    ensures chunks != [] ==> var r := Dispatch(b, chunks[0]);
            Run(b, chunks).0 == Run(r.0, chunks[1..]).0 &&
            Run(b, chunks).1 == (if r.1.Some? then [r.1.v] else []) + Run(r.0, chunks[1..]).1
  {
    hide Dispatch;
  }

  lemma FramesCons(f: seq<Byte>, fs: seq<seq<Byte>>)
    ensures Frames([f] + fs) == Frame(f) + Frames(fs)
  {
    assert ([f] + fs)[1..] == fs;
  }

  /** Whatever part of a stream has come, in whatever chunks: what was handed on
      is the beginning of the frames, and with the pending bytes it is all. */
  ghost predicate Conserves(fs: seq<seq<Byte>>) {
    forall chunks | Flat(chunks) <= Frames(fs) ::
      Run(NONE, chunks).1 <= fs && Flat(chunks) == Frames(Run(NONE, chunks).1) + Pending(Run(NONE, chunks).0)
  }

  lemma LongFramesConserve(fs: seq<seq<Byte>>)
    requires Sizes(fs, 6)
    ensures Conserves(fs)
  {
    forall chunks | Flat(chunks) <= Frames(fs)
      ensures Run(NONE, chunks).1 <= fs && Flat(chunks) == Frames(Run(NONE, chunks).1) + Pending(Run(NONE, chunks).0)
    {
      assert Pending(NONE) + Flat(chunks) == Flat(chunks);
      RunKeeps(NONE, chunks, fs);
    }
  }

  // ------------------------------------------------------------- short frames

  function Each(fs: seq<seq<Byte>>): seq<seq<Byte>> { if fs == [] then [] else [Frame(fs[0])] + Each(fs[1..]) }

  lemma {:induction false} EachFlat(fs: seq<seq<Byte>>)
    ensures Flat(Each(fs)) == Frames(fs)
    decreases |fs|
  {
    if fs != [] {
      EachFlat(fs[1..]);
      assert Each(fs)[1..] == Each(fs[1..]);
    }
  }

  lemma DispatchFrame(f: seq<Byte>)
    requires |f| < 65536
    ensures Dispatch(NONE, Frame(f)) ==
            if |f| >= 6 then (NONE, Some(f)) else if |f| == 0 then (NONE, None) else (Buf(0, f), None)
  {
    HeaderBack(|f|);
    assert [] + Frame(f) == Frame(f) && Frame(f)[2..] == f && f[..|f|] == f && f[|f|..] == [];
  }

  /** Long frames one by one, and then a short one. */
  lemma {:induction false} RunEach(fs: seq<seq<Byte>>, f: seq<Byte>)
    requires Sizes(fs, 6) && |f| < 6
    ensures Run(NONE, Each(fs) + [Frame(f)]) == (Buf(0, f), fs)
    decreases |fs|
  {
    var cs := Each(fs) + [Frame(f)];
    if fs == [] {
      DispatchFrame(f);
      assert cs == [Frame(f)] && cs[1..] == [];
      assert Run(Buf(0, f), []) == (Buf(0, f), []);
      assert Run(NONE, cs).1 == [];
    } else {
      DispatchFrame(fs[0]);
      assert cs == [Frame(fs[0])] + (Each(fs[1..]) + [Frame(f)]) && cs[1..] == Each(fs[1..]) + [Frame(f)];
      RunEach(fs[1..], f);
      assert [fs[0]] + fs[1..] == fs;
    }
  }

  lemma {:induction false} FramesAppend(fs: seq<seq<Byte>>, gs: seq<seq<Byte>>)
    ensures Frames(fs + gs) == Frames(fs) + Frames(gs)
    decreases |fs|
  {
    if fs == [] {
      assert fs + gs == gs;
    } else {
      assert (fs + gs)[1..] == fs[1..] + gs;
      FramesAppend(fs[1..], gs);
    }
  }

  lemma {:induction false} FlatAppend(a: seq<seq<Byte>>, b: seq<seq<Byte>>)
    ensures Flat(a + b) == Flat(a) + Flat(b)
    decreases |a|
  {
    if a == [] {
      assert a + b == b;
    } else {
      assert (a + b)[1..] == a[1..] + b;
      FlatAppend(a[1..], b);
    }
  }

  lemma FirstShort(fs: seq<seq<Byte>>) returns (k: nat)
    requires Sizes(fs, 0) && !Sizes(fs, 6)
    ensures k < |fs| && |fs[k]| < 6 && Sizes(fs[..k], 6)
  {
    k := 0;
    while |fs[k]| >= 6
      invariant k < |fs| && (forall i | 0 <= i < k :: |fs[i]| >= 6) && exists i :: k <= i < |fs| && |fs[i]| < 6
      decreases |fs| - k
    {
      k := k + 1;
    }
  }

  /** Nothing is lost from a stream of frames, however it is split, if and only
      if all bodies have at least six bytes: the header of a shorter one is
      forgotten, and its body is taken for the beginning of another frame. */
  lemma ConservesExactly(fs: seq<seq<Byte>>)
    requires Sizes(fs, 0)
    ensures Conserves(fs) <==> Sizes(fs, 6)
  {
    if Sizes(fs, 6) {
      LongFramesConserve(fs);
    } else {
      var k := FirstShort(fs);
      var f := fs[k];
      var cs := Each(fs[..k]) + [Frame(f)];
      RunEach(fs[..k], f);
      EachFlat(fs[..k]);
      FlatAppend(Each(fs[..k]), [Frame(f)]);
      FramesAppend(fs[..k], fs[k..]);
      assert fs == fs[..k] + fs[k..] && fs[k..][0] == f;
      assert Flat([Frame(f)]) == Frame(f);
      assert Flat(cs) == Frames(fs[..k]) + Frame(f);
      assert Flat(cs) <= Frames(fs);
      assert |Flat(cs)| == |Frames(fs[..k])| + 2 + |f|;
      assert Pending(Buf(0, f)) == f;
      assert Flat(cs) != Frames(Run(NONE, cs).1) + Pending(Run(NONE, cs).0);
    }
  }
}

/** The buffers themselves (databuffer.h): the received pieces are linked
    messages from a pool that all connections share. */
module MessageBuffers {
  import opened Framing

  const NIL := -1
  const MESSAGEPOOL := 1023

  /** A received piece; its size is the length of its buffer. */
  datatype Message = Message(buffer: seq<Byte>, next: int)

  ghost predicate Distinct(xs: seq<int>) { forall i, j | 0 <= i < j < |xs| :: xs[i] != xs[j] }

  ghost predicate Apart(xs: seq<int>, ys: seq<int>) { forall x | x in xs :: x !in ys }

  ghost predicate Within(xs: seq<int>, n: nat) { forall i | 0 <= i < |xs| :: 0 <= xs[i] < n }

  function First(xs: seq<int>): int { if xs == [] then NIL else xs[0] }

  function Last(xs: seq<int>): int { if xs == [] then NIL else xs[|xs| - 1] }

  function After(xs: seq<int>, i: nat): int { if i + 1 < |xs| then xs[i + 1] else NIL }

  /** From head on, the messages xs are linked and nothing else is. */
  ghost predicate IsList(ms: seq<Message>, head: int, xs: seq<int>) {
    Within(xs, |ms|) && head == First(xs) && Distinct(xs) &&
    forall i | 0 <= i < |xs| :: ms[xs[i]].next == After(xs, i)
  }

  ghost function Bytes(ms: seq<Message>, xs: seq<int>): seq<Byte>
    requires Within(xs, |ms|)
    decreases |xs|
  {
    if xs == [] then [] else ms[xs[0]].buffer + Bytes(ms, xs[1..])
  }

  ghost function FirstSize(ms: seq<Message>, xs: seq<int>): nat
    requires Within(xs, |ms|)
  {
    if xs == [] then 0 else |ms[xs[0]].buffer|
  }

  /** What is left to read when k bytes of the first message have been. */
  ghost function Rest(ms: seq<Message>, xs: seq<int>, k: nat): seq<Byte>
    requires Within(xs, |ms|)
  {
    if k <= |Bytes(ms, xs)| then Bytes(ms, xs)[k..] else []
  }

  /** Only messages in xs0 and free0 were written, and xs1 and free1 hold the same
      ones and all new ones: no message is lost and none is taken from elsewhere. */
  ghost predicate Untouched(ms0: seq<Message>, xs0: seq<int>, free0: seq<int>,
                            ms1: seq<Message>, xs1: seq<int>, free1: seq<int>) {
    |ms0| <= |ms1| &&
    (forall n | 0 <= n < |ms0| && n !in xs0 && n !in free0 :: ms1[n] == ms0[n]) &&
    (forall n | 0 <= n < |ms1| :: n in xs1 || n in free1 <==> n in xs0 || n in free0 || n >= |ms0|)
  }

  lemma UntouchedTwice(ms0: seq<Message>, xs0: seq<int>, free0: seq<int>, ms1: seq<Message>, xs1: seq<int>,
                       free1: seq<int>, ms2: seq<Message>, xs2: seq<int>, free2: seq<int>)
    requires Untouched(ms0, xs0, free0, ms1, xs1, free1) && Untouched(ms1, xs1, free1, ms2, xs2, free2)
    ensures Untouched(ms0, xs0, free0, ms2, xs2, free2)
  {}

  lemma {:induction false} SameBytes(ms0: seq<Message>, ms1: seq<Message>, xs: seq<int>)
    requires Within(xs, |ms0|) && Within(xs, |ms1|)
    requires forall i | 0 <= i < |xs| :: ms1[xs[i]].buffer == ms0[xs[i]].buffer
    ensures Bytes(ms1, xs) == Bytes(ms0, xs)
    decreases |xs|
  {
    if xs != [] { SameBytes(ms0, ms1, xs[1..]); }
  }

  lemma {:induction false} BytesSnoc(ms: seq<Message>, xs: seq<int>, m: int)
    requires Within(xs, |ms|) && 0 <= m < |ms|
    ensures Within(xs + [m], |ms|) && Bytes(ms, xs + [m]) == Bytes(ms, xs) + ms[m].buffer
    decreases |xs|
  {
    if xs == [] {
      assert Bytes(ms, [m]) == ms[m].buffer + [];
    } else {
      assert (xs + [m])[1..] == xs[1..] + [m];
      BytesSnoc(ms, xs[1..], m);
    }
  }

  /** Another connection's list and bytes survive whatever is done to this one. */
  lemma OthersKeep(ms0: seq<Message>, xs0: seq<int>, free0: seq<int>, ms1: seq<Message>, xs1: seq<int>,
                   free1: seq<int>, head: int, xs: seq<int>)
    requires Untouched(ms0, xs0, free0, ms1, xs1, free1)
    requires IsList(ms0, head, xs) && Apart(xs, xs0) && Apart(xs, free0)
    ensures IsList(ms1, head, xs) && Apart(xs, xs1) && Apart(xs, free1) && Bytes(ms1, xs) == Bytes(ms0, xs)
  {
    assert forall i | 0 <= i < |xs| :: xs[i] in xs;
    SameBytes(ms0, ms1, xs);
  }

  lemma PopFront(ms: seq<Message>, head: int, xs: seq<int>)
    requires IsList(ms, head, xs) && xs != []
    ensures IsList(ms, ms[head].next, xs[1..]) && head !in xs[1..] && xs == [head] + xs[1..]
  {
    var ys := xs[1..];
    assert ms[xs[0]].next == After(xs, 0) == First(ys);
    forall i | 0 <= i < |ys| ensures ms[ys[i]].next == After(ys, i) {
      assert ys[i] == xs[i + 1] && After(ys, i) == After(xs, i + 1);
    }
  }

  lemma PushFront(ms: seq<Message>, head: int, xs: seq<int>, m: int, buffer: seq<Byte>)
    requires IsList(ms, head, xs) && 0 <= m < |ms| && m !in xs
    ensures IsList(ms[m := Message(buffer, head)], m, [m] + xs)
  {
    assert forall i | 0 <= i < |xs| :: xs[i] in xs;
  }

  lemma WriteElsewhere(ms: seq<Message>, head: int, xs: seq<int>, m: int, v: Message)
    requires IsList(ms, head, xs) && 0 <= m < |ms| && m !in xs
    ensures IsList(ms[m := v], head, xs) && Bytes(ms[m := v], xs) == Bytes(ms, xs)
  {
    assert forall i | 0 <= i < |xs| :: xs[i] in xs;
    SameBytes(ms, ms[m := v], xs);
  }

  lemma Append(ms: seq<Message>, head: int, xs: seq<int>, m: int)
    requires IsList(ms, head, xs) && xs != [] && 0 <= m < |ms| && m !in xs && ms[m].next == NIL
    ensures var ms1 := ms[Last(xs) := ms[Last(xs)].(next := m)];
            IsList(ms1, head, xs + [m]) && Bytes(ms1, xs + [m]) == Bytes(ms, xs) + ms[m].buffer
  {
    var ms1 := ms[Last(xs) := ms[Last(xs)].(next := m)];
    assert forall i | 0 <= i < |xs| :: xs[i] in xs;
    BytesSnoc(ms, xs, m);
    SameBytes(ms, ms1, xs + [m]);
  }

  ghost predicate Emptied(ms: seq<Message>, xs: seq<int>)
    requires Within(xs, |ms|)
  {
    forall i | 0 <= i < |xs| :: ms[xs[i]].buffer == []
  }

  /** Message m put behind the others, as the second half of databuffer_push does. */
  function Linked(ms: seq<Message>, tail: int, m: int, data: seq<Byte>): seq<Message>
    requires 0 <= m < |ms| && (tail == NIL || 0 <= tail < |ms|)
  {
    var ms1 := ms[m := Message(data, NIL)];
    if tail == NIL then ms1 else ms1[tail := ms1[tail].(next := m)]
  }

  lemma LinkedList(ms: seq<Message>, head: int, xs: seq<int>, m: int, data: seq<Byte>)
    requires IsList(ms, head, xs) && 0 <= m < |ms| && m !in xs
    ensures var ms1 := Linked(ms, Last(xs), m, data);
            IsList(ms1, First(xs + [m]), xs + [m]) && Bytes(ms1, xs + [m]) == Bytes(ms, xs) + data
  {
    var ms1 := ms[m := Message(data, NIL)];
    WriteElsewhere(ms, head, xs, m, Message(data, NIL));
    if xs == [] {
      BytesSnoc(ms1, [], m);
    } else {
      Append(ms1, head, xs, m);
    }
  }

  lemma LinkedFree(ms: seq<Message>, freelist: int, free: seq<int>, tail: int, m: int, data: seq<Byte>)
    requires IsList(ms, freelist, free) && Emptied(ms, free) && 0 <= m < |ms| && m !in free
    requires tail == NIL || (0 <= tail < |ms| && tail !in free)
    ensures IsList(Linked(ms, tail, m, data), freelist, free) && Emptied(Linked(ms, tail, m, data), free)
  {
    var v := Message(data, NIL);
    WriteElsewhere(ms, freelist, free, m, v);
    var ms1 := ms[m := v];
    if tail != NIL { WriteElsewhere(ms1, freelist, free, tail, ms1[tail].(next := m)); }
    hide IsList;
    assert forall i | 0 <= i < |free| :: free[i] in free;
  }

  lemma LinkedOthers(ms: seq<Message>, free: seq<int>, xs: seq<int>, m: int, data: seq<Byte>)
    requires Within(xs, |ms|) && 0 <= m < |ms|
    ensures Untouched(ms, xs + [m], free, Linked(ms, Last(xs), m, data), xs + [m], free)
  {
    assert m in xs + [m] && (xs != [] ==> Last(xs) in xs + [m]);
  }

  lemma UntouchedNothing(ms: seq<Message>, xs: seq<int>, free: seq<int>)
    ensures Untouched(ms, xs, free, ms, xs, free)
  {}

  lemma UntouchedMore(ms0: seq<Message>, free0: seq<int>, ms1: seq<Message>, free: seq<int>, xs: seq<int>, m: int)
    requires Untouched(ms0, [], free0, ms1, [m], free) && Within(xs, |ms0|)
    ensures Untouched(ms0, xs, free0, ms1, xs + [m], free)
  {
    assert forall n :: n in xs + [m] <==> n in xs || n in [m];
  }

  /** All that databuffer_push does to the messages: m is taken, then linked. */
  lemma PushKeeps(ms0: seq<Message>, free0: seq<int>, ms1: seq<Message>, freelist: int, free: seq<int>,
                  head: int, xs: seq<int>, k: nat, m: int, data: seq<Byte>)
    requires IsList(ms0, head, xs) && k <= FirstSize(ms0, xs) && Apart(xs, free0) && Untouched(ms0, [], free0, ms1, [m], free)
    requires IsList(ms1, freelist, free) && Emptied(ms1, free) && 0 <= m < |ms1| && m !in free
    ensures var ms2 := Linked(ms1, Last(xs), m, data);
            IsList(ms2, freelist, free) && Emptied(ms2, free) &&
            Within(xs + [m], |ms2|) && IsList(ms2, First(xs + [m]), xs + [m]) &&
            Apart(xs + [m], free) && Rest(ms2, xs + [m], k) == Rest(ms0, xs, k) + data &&
            FirstSize(ms2, xs + [m]) == (if xs == [] then |data| else FirstSize(ms0, xs)) &&
            Untouched(ms0, xs, free0, ms2, xs + [m], free)
  {
    OthersKeep(ms0, [], free0, ms1, [m], free, head, xs);
    assert k <= |Bytes(ms0, xs)|;
    TakeBehind(Bytes(ms0, xs), data, k);
    assert m !in xs by { assert m in [m]; }
    assert xs != [] ==> xs[0] in xs && xs[0] != m;
    LinkedList(ms1, head, xs, m, data);
    assert xs != [] ==> Last(xs) in xs;
    LinkedFree(ms1, freelist, free, Last(xs), m, data);
    LinkedOthers(ms1, free, xs, m, data);
    assert xs != [] ==> Linked(ms1, Last(xs), m, data)[xs[0]].buffer == ms0[xs[0]].buffer;
    hide Linked, IsList, Emptied;
    UntouchedMore(ms0, free0, ms1, free, xs, m);
    hide Untouched;
    UntouchedTwice(ms0, xs, free0, ms1, xs + [m], free, Linked(ms1, Last(xs), m, data), xs + [m], free);
  }

  /** What _return_message does: the first message is emptied and free again. */
  lemma ReturnKeeps(ms: seq<Message>, freelist: int, free: seq<int>, head: int, xs: seq<int>)
    requires IsList(ms, head, xs) && xs != [] && IsList(ms, freelist, free) && Emptied(ms, free) && Apart(xs, free)
    ensures 0 <= head < |ms|
    ensures var ms1, next, rest := ms[head := Message([], freelist)], ms[head].next, xs[1..];
            Within(rest, |ms1|) && IsList(ms1, next, rest) && IsList(ms1, head, [head] + free) && Emptied(ms1, [head] + free) &&
            Apart(rest, [head] + free) && Rest(ms1, rest, 0) == Rest(ms, rest, 0) &&
            Last(rest) == (if next == NIL then NIL else Last(xs)) &&
            Untouched(ms, xs, free, ms1, rest, [head] + free)
  {
    PopFront(ms, head, xs);
    assert head in xs;
    var rest := xs[1..];
    WriteElsewhere(ms, ms[head].next, rest, head, Message([], freelist));
    PushFront(ms, freelist, free, head, []);
    assert forall n :: n in xs <==> n == head || n in rest;
    assert forall n :: n in [head] + free <==> n == head || n in free;
  }

  lemma NoRest(ms: seq<Message>, k: nat)
    ensures Rest(ms, [], k) == [] && FirstSize(ms, []) == 0
  {}

  lemma HeadInside(ms: seq<Message>, head: int, xs: seq<int>)
    requires IsList(ms, head, xs) && xs != []
    ensures 0 <= head < |ms| && FirstSize(ms, xs) == |ms[head].buffer| && Within(xs[1..], |ms|)
    ensures Bytes(ms, xs) == ms[head].buffer + Bytes(ms, xs[1..])
  {}

  /** One turn of databuffer_read takes n bytes of the first message. */
  lemma RestTurn(ms: seq<Message>, head: int, xs: seq<int>, k: nat, n: nat, all: seq<Byte>, before: seq<Byte>)
    requires IsList(ms, head, xs) && xs != [] && k + n <= FirstSize(ms, xs) && all == before + Rest(ms, xs, k)
    ensures 0 <= head < |ms| && FirstSize(ms, xs) == |ms[head].buffer| && Within(xs[1..], |ms|)
    ensures Rest(ms, xs, |ms[head].buffer|) == Rest(ms, xs[1..], 0)
    ensures all == (before + ms[head].buffer[k..k + n]) + Rest(ms, xs, k + n)
    ensures |Rest(ms, xs, k)| == n + |Rest(ms, xs, k + n)|
  {
    HeadInside(ms, head, xs);
    hide IsList, Bytes, FirstSize;
    Slices(ms[head].buffer, Bytes(ms, xs[1..]), k, n);
  }

  lemma Slices<T>(a: seq<T>, b: seq<T>, k: nat, n: nat)
    requires k + n <= |a|
    ensures (a + b)[k..] == a[k..k + n] + (a + b)[k + n..] && (a + b)[|a|..] == b
  {}

  lemma TakeBehind<T>(a: seq<T>, b: seq<T>, k: nat)
    requires k <= |a|
    ensures (a + b)[k..] == a[k..] + b
  {}

  lemma SplitAt<T>(a: seq<T>, b: seq<T>, c: seq<T>)
    requires a == b + c
    ensures a[..|b|] == b && a[|b|..] == c
  {}

  lemma EndsAfter(ms: seq<Message>, head: int, xs: seq<int>, m: int)
    requires IsList(ms, head, xs)
    ensures (head == NIL) == (xs == []) && First(xs + [m]) == (if head == NIL then m else head)
    ensures Last(xs + [m]) == m && (Last(xs) == NIL || 0 <= Last(xs) < |ms|)
    ensures Within(xs, |ms|)
  {}

  class MessagePool {
    var msgs: seq<Message>
    var freelist: int
    ghost var free: seq<int>

    /** The free list is linked, and a free message holds no buffer. */
    ghost predicate Valid()
      reads this
    {
      IsList(msgs, freelist, free) && Emptied(msgs, free)
    }

    constructor ()
      ensures Valid() && msgs == [] && free == []
    {
      msgs, freelist, free := [], NIL, [];
    }

    /** A block of messages: the first is for the caller, the others are linked. */
    method Grow() returns (m: int)
      requires Valid() && free == []
      modifies this
      ensures Valid() && m == |old(msgs)| && |msgs| == m + MESSAGEPOOL && msgs[..m] == old(msgs)
      ensures forall n | 0 <= n < |msgs| :: n in free <==> n > m
    {
      m := |msgs|;
      var temp := seq(MESSAGEPOOL, _ => Message([], NIL));
      var i := 1;
      while i < MESSAGEPOOL
        invariant 1 <= i <= MESSAGEPOOL && |temp| == MESSAGEPOOL
        invariant forall j | 1 <= j < i :: temp[j] == Message([], m + j + 1)
      {
        temp := temp[i := Message([], m + i + 1)];
        i := i + 1;
      }
      temp := temp[MESSAGEPOOL - 1 := temp[MESSAGEPOOL - 1].(next := NIL)];
      msgs := msgs + temp;
      freelist := m + 1;
      free := seq(MESSAGEPOOL - 1, (k: int) => m + 1 + k);
      forall n | 0 <= n < |msgs| ensures n in free <==> n > m {
        if n > m { assert free[n - m - 1] == n; }
      }
    }

    /** The second half of databuffer_push: m behind tail, if there is one. */
    method Link(m: int, tail: int, data: seq<Byte>)
      requires 0 <= m < |msgs| && (tail == NIL || 0 <= tail < |msgs|)
      modifies this`msgs
      ensures msgs == Linked(old(msgs), tail, m, data)
    {
      msgs := msgs[m := Message(data, NIL)];
      if tail != NIL { msgs := msgs[tail := msgs[tail].(next := m)]; }
    }

    /** The first half of databuffer_push: a message that nobody uses. */
    method Take() returns (m: int)
      requires Valid()
      modifies this
      ensures Valid() && 0 <= m < |msgs| && m !in free
      ensures Untouched(old(msgs), [], old(free), msgs, [m], free)
    {
      if freelist != NIL {
        m := freelist;
        PopFront(msgs, freelist, free);
        freelist := msgs[m].next;
        free := free[1..];
        assert old(free) == [m] + free;
      } else {
        m := Grow();
        assert forall n | 0 <= n < m :: msgs[n] == msgs[..m][n];
      }
    }
  }

  class DataBuffer {
    var header: nat
    var offset: nat
    var size: nat
    var head: int
    var tail: int
    ghost var list: seq<int>

    /** The messages are linked in order and none of them is free. */
    ghost predicate Held(mp: MessagePool)
      reads `head, `tail, `list, mp
    {
      mp.Valid() && Within(list, |mp.msgs|) && IsList(mp.msgs, head, list) && Apart(list, mp.free) && tail == Last(list)
    }

    ghost predicate Valid(mp: MessagePool)
      reads this, mp
    {
      Held(mp) &&
      offset <= FirstSize(mp.msgs, list) &&
      size == |Rest(mp.msgs, list, offset)|
    }

    ghost function Value(mp: MessagePool): Buf
      requires Valid(mp)
      reads this, mp
    {
      Buf(header, Rest(mp.msgs, list, offset))
    }

    constructor (mp: MessagePool)
      requires mp.Valid()
      ensures Valid(mp) && Value(mp) == NONE && list == []
    {
      header, offset, size, head, tail, list := 0, 0, 0, NIL, NIL, [];
    }

    /** databuffer_push */
    method Push(mp: MessagePool, data: seq<Byte>)
      requires Valid(mp)
      modifies this, mp
      ensures Valid(mp) && Value(mp) == Buf(old(header), old(Value(mp)).data + data)
      ensures Untouched(old(mp.msgs), old(list), old(mp.free), mp.msgs, list, mp.free)
    {
      hide Linked, Rest, Emptied, Untouched, IsList, Apart, First, Last;
      ghost var ms0 := mp.msgs;
      var m := mp.Take();
      PushKeeps(ms0, old(mp.free), mp.msgs, mp.freelist, mp.free, head, list, offset, m, data);
      EndsAfter(ms0, head, list, m);
      mp.Link(m, tail, data);
      size := size + |data|;
      if head == NIL {
        head, tail := m, m;
      } else {
        tail := m;
      }
      list := list + [m];
    }

    /** _return_message */
    method ReturnMessage(mp: MessagePool)
      requires Held(mp) && list != []
      modifies this, mp
      ensures list == old(list)[1..] && mp.free == [old(head)] + old(mp.free)
      ensures Held(mp)
      ensures Rest(mp.msgs, list, 0) == Rest(old(mp.msgs), list, 0)
      ensures header == old(header) && offset == old(offset) && size == old(size)
      ensures Untouched(old(mp.msgs), old(list), old(mp.free), mp.msgs, list, mp.free)
    {
      var m := head;
      hide IsList, Emptied, Apart, Untouched, Rest, Within, First, Last, Distinct;
      ReturnKeeps(mp.msgs, mp.freelist, mp.free, head, list);
      if mp.msgs[m].next == NIL {
        head, tail := NIL, NIL;
      } else {
        head := mp.msgs[m].next;
      }
      list := list[1..];
      mp.msgs := mp.msgs[m := Message([], mp.freelist)];
      mp.freelist := m;
      mp.free := [m] + mp.free;
    }

    /** databuffer_read: sz bytes from the beginning, over as many messages as it
        takes; every message that is read to its end goes back to the pool. */
    method Read(mp: MessagePool, sz: nat) returns (buffer: seq<Byte>)
      requires Valid(mp) && 0 < sz <= size
      modifies this, mp
      ensures Valid(mp) && Value(mp) == Buf(old(header), old(Value(mp)).data[sz..])
      ensures buffer == old(Value(mp)).data[..sz]
      ensures Untouched(old(mp.msgs), old(list), old(mp.free), mp.msgs, list, mp.free)
    {
      buffer := [];
      var left := sz;
      hide Untouched, Emptied, Apart, IsList, Rest, Last, Within, Distinct, First, FirstSize;
      UntouchedNothing(mp.msgs, list, mp.free);
      size := size - sz;
      ghost var all := Rest(mp.msgs, list, offset);
      while true
        invariant Held(mp)
        invariant 0 < left <= sz && size + left == |Rest(mp.msgs, list, offset)| && offset <= FirstSize(mp.msgs, list)
        invariant header == old(header) && all == buffer + Rest(mp.msgs, list, offset) && |buffer| + left == sz
        invariant Untouched(old(mp.msgs), old(list), old(mp.free), mp.msgs, list, mp.free)
        decreases |list|
      {
        assert list != [] by { NoRest(mp.msgs, offset); }
        ghost var ms1, xs1, free1 := mp.msgs, list, mp.free;
        HeadInside(ms1, head, xs1);
        ghost var n := if |mp.msgs[head].buffer| - offset > left then left else |mp.msgs[head].buffer| - offset;
        RestTurn(ms1, head, xs1, offset, n, all, buffer);
        var current := mp.msgs[head].buffer;
        var bsz := |current| - offset;
        if bsz > left {
          buffer := buffer + current[offset..offset + left];
          offset := offset + left;
          SplitAt(all, buffer, Rest(ms1, xs1, offset));
          return;
        }
        buffer := buffer + current[offset..offset + bsz];
        ReturnMessage(mp);
        UntouchedTwice(old(mp.msgs), old(list), old(mp.free), ms1, xs1, free1, mp.msgs, list, mp.free);
        offset := 0;
        if bsz == left {
          SplitAt(all, buffer, Rest(mp.msgs, list, 0));
          return;
        }
        left := left - bsz;
      }
    }

    /** databuffer_readheader for a header of two bytes: -1 if the frame is not
        there yet, its size if it is. */
    method ReadHeader(mp: MessagePool) returns (r: int)
      requires Valid(mp)
      modifies this, mp
      ensures Valid(mp) && Value(mp) == WithHeader(old(Value(mp)))
      ensures r == (if Value(mp).header == 0 && |old(Value(mp)).data| < 2 then -1
                    else if |Value(mp).data| < Value(mp).header then -1 else Value(mp).header)
      ensures Untouched(old(mp.msgs), old(list), old(mp.free), mp.msgs, list, mp.free)
    {
      hide Held, Untouched, Rest, FirstSize;
      UntouchedNothing(mp.msgs, list, mp.free);
      if header == 0 {
        if size < 2 { return -1; }
        var plen := Read(mp, 2);
        header := HeaderValue(plen[0], plen[1]);
      }
      if size < header { return -1; }
      return header;
    }

    /** databuffer_reset */
    method Reset(mp: MessagePool)
      requires Valid(mp)
      modifies this`header
      ensures Valid(mp) && Value(mp) == Buf(0, old(Value(mp)).data)
    {
      header := 0;
    }

    /** databuffer_clear: every message goes back to the pool. */
    method Clear(mp: MessagePool)
      requires Valid(mp)
      modifies this, mp
      ensures Valid(mp) && Value(mp) == NONE && list == []
      ensures Untouched(old(mp.msgs), old(list), old(mp.free), mp.msgs, list, mp.free)
    {
      hide Untouched, Emptied, Apart, Rest, Distinct;
      UntouchedNothing(mp.msgs, list, mp.free);
      while head != NIL
        invariant Held(mp)
        invariant Untouched(old(mp.msgs), old(list), old(mp.free), mp.msgs, list, mp.free)
        decreases |list|
      {
        ghost var ms1, xs1, free1 := mp.msgs, list, mp.free;
        ReturnMessage(mp);
        UntouchedTwice(old(mp.msgs), old(list), old(mp.free), ms1, xs1, free1, mp.msgs, list, mp.free);
      }
      EndsAfter(mp.msgs, head, list, 0);
      header, offset, size, head, tail := 0, 0, 0, NIL, NIL;
      NoRest(mp.msgs, 0);
    }

    /** dispatch_message up to the handlers: the frame that is handed on, if any.
        A size of 16M or more is out of the question with two bytes. */
    method DispatchMessage(mp: MessagePool, chunk: seq<Byte>) returns (message: Option<seq<Byte>>)
      requires Valid(mp)
      modifies this, mp
      ensures Valid(mp) && (Value(mp), message) == Dispatch(old(Value(mp)), chunk)
      ensures Untouched(old(mp.msgs), old(list), old(mp.free), mp.msgs, list, mp.free)
    {
      hide Held, Untouched, Rest, FirstSize;
      message := None;
      Push(mp, chunk);
      ghost var ms1, xs1, free1 := mp.msgs, list, mp.free;
      var n := ReadHeader(mp);
      UntouchedTwice(old(mp.msgs), old(list), old(mp.free), ms1, xs1, free1, mp.msgs, list, mp.free);
      if n > 0 {
        if n >= 6 {
          ghost var ms2, xs2, free2 := mp.msgs, list, mp.free;
          var body := Read(mp, n);
          UntouchedTwice(old(mp.msgs), old(list), old(mp.free), ms2, xs2, free2, mp.msgs, list, mp.free);
          message := Some(body);
        }
        Reset(mp);
      }
    }
  }
}
