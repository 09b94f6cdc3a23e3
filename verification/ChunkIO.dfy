/** Writing and reading precompiled chunks as it is done (ldump.c, lundump.c,
    lzio.c): through a writer that may fail, and from a reader that hands the
    bytes over in chunks of any size. */
module ChunkIO {
  import opened ChunkFormat
  import opened ChunkRoundTrip

  // -------------------------------------------------------------------- writer

  class DumpState {
    const strip: bool
    const writer: nat -> int
    var calls: nat
    var out: seq<Byte>
    var status: int
    ghost var wanted: seq<Byte>

    constructor (writer: nat -> int, strip: bool)
      ensures Valid() && status == 0 && wanted == [] && this.strip == strip && this.writer == writer
    {
      this.writer, this.strip := writer, strip;
      calls, out, status, wanted := 0, [], 0, [];
    }

    /** As long as the writer does not fail, it has got all the bytes; when it
        fails, a part of them. */
    ghost predicate Valid()
      reads this
    {
      && (status == 0 ==> out == wanted) && out <= wanted
      && (status != 0 ==> exists k: nat :: writer(k) == status)
    }

    method DumpBlock(b: seq<Byte>)
      requires Valid()
      modifies this
      ensures Valid() && wanted == old(wanted) + b
    {
      wanted := wanted + b;
      if status == 0 {
        status := writer(calls);
        calls := calls + 1;
        if status == 0 { out := out + b; }
      }
    }

    method DumpInt(x: nat)
      requires Valid()
      modifies this
      ensures Valid() && wanted == old(wanted) + (Int(x))
    {
      DumpBlock(Word(x, 4));
    }

    method DumpString(s: Str)
      requires Valid()
      modifies this
      ensures Valid() && wanted == old(wanted) + (StringBytes(s))
    {
      match s
      case Null => DumpBlock(Word(0, 8));
      case Bytes(b) =>
        DumpBlock(Word(|b| + 1, 8));
        DumpBlock(b + [0]);
        assert StringBytes(s) == Word(|b| + 1, 8) + (b + [0]);
    }

    /** DumpVector: the count, and the whole vector in one block. */
    method DumpVector(ws: seq<nat>)
      requires Valid()
      modifies this
      ensures Valid() && wanted == old(wanted) + (Int(|ws|) + Words(ws))
    {
      hide Words, Int;
      DumpInt(|ws|);
      DumpBlock(Words(ws));
    }

    method DumpConst(c: Const)
      requires Valid()
      modifies this
      ensures Valid() && wanted == old(wanted) + (ConstBytes(c))
    {
      hide StringBytes, Word;
      match c
      case KNil => DumpBlock([0]);
      case KBool(b) =>
        DumpBlock([1]);
        DumpBlock([if b then 1 else 0]);
        assert ConstBytes(c) == [1] + [if b then 1 else 0];
      case KNum(n) =>
        DumpBlock([3]);
        DumpBlock(n);
      case KStr(s) =>
        DumpBlock([4]);
        DumpString(Bytes(s));
    }

    method DumpConsts(ks: seq<Const>)
      requires Valid()
      modifies this
      ensures Valid() && wanted == old(wanted) + (Int(|ks|) + ConstsBytes(ks))
    {
      hide ConstBytes, Int;
      DumpInt(|ks|);
      ghost var done := Int(|ks|);
      for i := 0 to |ks|
        invariant Valid() && wanted == old(wanted) + done && done + ConstsBytes(ks[i..]) == Int(|ks|) + ConstsBytes(ks)
      {
        DumpConst(ks[i]);
        assert ks[i..][0] == ks[i] && ks[i..][1..] == ks[i + 1..];
        done := done + ConstBytes(ks[i]);
      }
      assert done == Int(|ks|) + ConstsBytes(ks);
    }

    method DumpUpvalues(us: seq<UpvalDesc>)
      requires Valid()
      modifies this
      ensures Valid() && wanted == old(wanted) + (Int(|us|) + UpvalsBytes(us))
    {
      hide Int;
      DumpInt(|us|);
      ghost var done := Int(|us|);
      for i := 0 to |us|
        invariant Valid() && wanted == old(wanted) + done && done + UpvalsBytes(us[i..]) == Int(|us|) + UpvalsBytes(us)
      {
        DumpBlock([us[i].instack]);
        DumpBlock([us[i].idx]);
        assert us[i..][0] == us[i] && us[i..][1..] == us[i + 1..];
        done := done + [us[i].instack] + [us[i].idx];
      }
      assert done == Int(|us|) + UpvalsBytes(us);
    }

    method DumpLocVar(v: LocVar)
      requires Valid()
      modifies this
      ensures Valid() && wanted == old(wanted) + LocVarBytes(v)
    {
      hide Int, StringBytes;
      DumpString(v.varname);
      DumpInt(v.startpc);
      DumpInt(v.endpc);
    }

    method DumpLocVars(vs: seq<LocVar>)
      requires Valid()
      modifies this
      ensures Valid() && wanted == old(wanted) + (Int(|vs|) + LocVarsBytes(vs))
    {
      hide Int, LocVarBytes;
      DumpInt(|vs|);
      ghost var done := Int(|vs|);
      for i := 0 to |vs|
        invariant Valid() && wanted == old(wanted) + done && done + LocVarsBytes(vs[i..]) == Int(|vs|) + LocVarsBytes(vs)
      {
        DumpLocVar(vs[i]);
        assert vs[i..][0] == vs[i] && vs[i..][1..] == vs[i + 1..];
        done := done + LocVarBytes(vs[i]);
      }
      assert done == Int(|vs|) + LocVarsBytes(vs);
    }

    method DumpNames(us: seq<UpvalDesc>)
      requires Valid()
      modifies this
      ensures Valid() && wanted == old(wanted) + (Int(|us|) + NamesBytes(us))
    {
      hide Int, StringBytes;
      DumpInt(|us|);
      ghost var done := Int(|us|);
      for i := 0 to |us|
        invariant Valid() && wanted == old(wanted) + done && done + NamesBytes(us[i..]) == Int(|us|) + NamesBytes(us)
      {
        DumpString(us[i].name);
        assert us[i..][0] == us[i] && us[i..][1..] == us[i + 1..];
        done := done + StringBytes(us[i].name);
      }
      assert done == Int(|us|) + NamesBytes(us);
    }

    method DumpDebug(f: Proto)
      requires Valid()
      modifies this
      ensures Valid() && wanted == old(wanted) + (DebugBytes(f, strip))
    {
      hide Int, StringBytes, Words, LocVarsBytes, NamesBytes, Word;
      DumpString(if strip then Null else f.source);
      DumpVector(if strip then [] else f.lineinfo);
      DumpLocVars(if strip then [] else f.locvars);
      DumpNames(if strip then [] else f.upvalues);
      NothingMore();
    }

    method DumpFunction(f: Proto)
      requires Valid()
      modifies this
      ensures Valid() && wanted == old(wanted) + FunctionBytes(f, strip)
      decreases f, 1
    {
      hide Int, Words, ConstsBytes, UpvalsBytes, DebugBytes, ProtosBytes, Word, FunctionBytes, Valid;
      ghost var w := wanted;
      DumpHead(f);
      DumpVector(f.code);
      DumpConsts(f.k);
      DumpProtos(f);
      DumpUpvalues(f.upvalues);
      DumpDebug(f);
      FunctionPieces(w, f, strip);
    }

    method DumpHead(f: Proto)
      requires Valid()
      modifies this
      ensures Valid() && wanted == old(wanted) + HeadBytes(f)
    {
      hide Int, Word, Valid;
      DumpInt(f.linedefined);
      DumpInt(f.lastlinedefined);
      DumpBlock([f.numparams]);
      DumpBlock([f.isVararg]);
      DumpBlock([f.maxstacksize]);
    }

    method DumpProtos(f: Proto)
      requires Valid()
      modifies this
      ensures Valid() && wanted == old(wanted) + (Int(|f.p|) + ProtosBytes(f, 0, strip))
      decreases f, 0
    {
      hide Int, FunctionBytes;
      DumpInt(|f.p|);
      ghost var done := Int(|f.p|);
      for i := 0 to |f.p|
        invariant Valid() && wanted == old(wanted) + done && done + ProtosBytes(f, i, strip) == Int(|f.p|) + ProtosBytes(f, 0, strip)
      {
        DumpFunction(f.p[i]);
        done := done + FunctionBytes(f.p[i], strip);
      }
      assert done == Int(|f.p|) + ProtosBytes(f, 0, strip);
    }

    /** luaU_dump. */
    method Dump(f: Proto) returns (st: int)
      requires Valid()
      modifies this
      ensures Valid() && st == status && wanted == old(wanted) + ChunkBytes(f, strip)
    {
      hide FunctionBytes;
      DumpBlock(HEADER);
      DumpFunction(f);
      st := status;
    }
  }

  function HeadBytes(f: Proto): seq<Byte> {
    Int(f.linedefined) + Int(f.lastlinedefined) + [f.numparams, f.isVararg, f.maxstacksize]
  }

  lemma FunctionPieces(w: seq<Byte>, f: Proto, strip: bool)
    ensures w + FunctionBytes(f, strip) ==
            w + HeadBytes(f) + (Int(|f.code|) + Words(f.code)) + (Int(|f.k|) + ConstsBytes(f.k))
            + (Int(|f.p|) + ProtosBytes(f, 0, strip)) + (Int(|f.upvalues|) + UpvalsBytes(f.upvalues)) + DebugBytes(f, strip)
  {
    hide Int, Words, ConstsBytes, UpvalsBytes, DebugBytes, ProtosBytes;
  }

  lemma NothingMore()
    ensures Words([]) == [] && LocVarsBytes([]) == [] && NamesBytes([]) == []
  {}

  // -------------------------------------------------------------------- reader

  /** What a reader still hands over: an empty chunk ends it. */
  function Flat(chunks: seq<seq<Byte>>): seq<Byte> {
    if chunks == [] || chunks[0] == [] then [] else chunks[0] + Flat(chunks[1..])
  }

  const EOZ := -1

  class ZIO {
    var buf: seq<Byte>
    var chunks: seq<seq<Byte>>

    constructor (chunks: seq<seq<Byte>>)
      ensures Rest() == Flat(chunks)
    {
      buf, this.chunks := [], chunks;
      new;
      assert [] + Flat(chunks) == Flat(chunks);
    }

    ghost function Rest(): seq<Byte>
      reads this
    {
      buf + Flat(chunks)
    }

    /** luaZ_fill: ask the reader for another chunk; its first byte is returned. */
    method Fill() returns (c: int)
      modifies this
      ensures c == EOZ <==> old(Flat(chunks)) == []
      ensures c != EOZ ==> 0 <= c < 256 && old(Flat(chunks)) == [c] + Rest()
    {
      if chunks == [] { return EOZ; }
      var b := chunks[0];
      chunks := chunks[1..];
      if b == [] { return EOZ; }
      buf := b[1..];
      assert b == [b[0]] + b[1..];
      c := b[0];
    }

    /** zgetc. */
    method Getc() returns (c: int)
      modifies this
      ensures c == EOZ <==> old(Rest()) == []
      ensures c != EOZ ==> 0 <= c < 256 && old(Rest()) == [c] + Rest()
    {
      if buf != [] {
        c := buf[0];
        buf := buf[1..];
      } else {
        c := Fill();
      }
    }

    /** luaZ_read: `n` bytes, or all there are and how many are missing. */
    method ReadBytes(n0: nat) returns (missing: nat, b: seq<Byte>)
      modifies this
      ensures n0 <= |old(Rest())| ==> missing == 0 && b == old(Rest())[..n0] && Rest() == old(Rest())[n0..]
      ensures n0 > |old(Rest())| ==> missing == n0 - |old(Rest())|
    {
      var n := n0;
      b := [];
      while n > 0
        invariant n >= 0 && n + |b| == n0 && b + Rest() == old(Rest())
        decreases n
      {
        if buf == [] {
          assert Rest() == Flat(chunks);
          var c := Fill();
          if c == EOZ {
            assert |old(Rest())| == |b|;
            return n, b;
          }
          ghost var rest := Rest();
          buf := [c] + buf;
          assert Rest() == [c] + rest;
        }
        var m := if n <= |buf| then n else |buf|;
        ghost var before, b0 := Rest(), b;
        ghost var piece := buf[..m];
        b := b + buf[..m];
        buf := buf[m..];
        assert before == piece + Rest();
        assert b + Rest() == b0 + (piece + Rest());
        n := n - m;
      }
      Front(b, Rest());
      missing := 0;
    }
  }

  datatype Result<T> = Got(v: T) | Failed(e: Error)

  /** A method of the loader reads what the format says, or fails as it says. */
  ghost predicate Reads<T>(r: Result<T>, rest: seq<Byte>, spec: Read<T>) {
    match spec
    case Ok(v, t) => r == Got(v) && rest == t
    case Err(e) => r == Failed(e)
  }

  /** The elements read so far, and what reading the others gives. */
  ghost function After<T>(done: seq<T>, more: Read<seq<T>>): Read<seq<T>> {
    match more case Ok(v, t) => Ok(done + v, t) case Err(e) => Err(e)
  }

  lemma AfterNone<T>(more: Read<seq<T>>)
    ensures After([], more) == more
  {
    assert more.Ok? ==> [] + more.v == more.v;
  }

  lemma AfterAll<T>(done: seq<T>, t: seq<Byte>)
    ensures After(done, Ok([], t)) == Ok(done, t)
  {
    assert done + [] == done;
  }

  class LoadState {
    const z: ZIO

    constructor (z: ZIO)
      ensures this.z == z
    {
      this.z := z;
    }

    method LoadBlock(n: nat) returns (r: Result<seq<Byte>>)
      modifies z
      ensures Reads(r, z.Rest(), GetBlock(old(z.Rest()), n))
    {
      var missing, b := z.ReadBytes(n);
      r := if missing != 0 then Failed(Truncated) else Got(b);
    }

    method LoadByte() returns (r: Result<Byte>)
      modifies z
      ensures Reads(r, z.Rest(), GetByte(old(z.Rest())))
    {
      var b := LoadBlock(1);
      r := match b case Got(v) => Got(v[0]) case Failed(e) => Failed(e);
    }

    method LoadInt() returns (r: Result<nat>)
      modifies z
      ensures Reads(r, z.Rest(), GetInt(old(z.Rest())))
    {
      hide WordValue;
      var b := LoadBlock(4);
      r := match b case Got(v) => if WordValue(v) >= INT_LIMIT then Failed(Corrupted) else Got(WordValue(v)) case Failed(e) => Failed(e);
    }

    method LoadString() returns (r: Result<Str>)
      modifies z
      ensures Reads(r, z.Rest(), GetString(old(z.Rest())))
    {
      hide WordValue;
      ghost var s := z.Rest();
      var b := LoadBlock(8);
      if b.Failed? { return Failed(b.e); }
      var size := WordValue(b.v);
      if size == 0 { return Got(Null); }
      var c := LoadBlock(size);
      if c.Failed? { return Failed(c.e); }
      assert s[8..][..size][..size - 1] == s[8..8 + size - 1] && s[8..][size..] == s[8 + size..];
      r := Got(Bytes(c.v[..size - 1]));
    }

    /** A counted vector, as for code and line numbers. */
    method LoadVector() returns (r: Result<seq<nat>>)
      modifies z
      ensures Reads(r, z.Rest(), GetWords(old(z.Rest())))
    {
      hide GetInt, WordsOf;
      var n := LoadInt();
      if n.Failed? { return Failed(n.e); }
      var b := LoadBlock(4 * n.v);
      r := match b case Got(v) => Got(WordsOf(v)) case Failed(e) => Failed(e);
    }

    method LoadConst() returns (r: Result<Const>)
      modifies z
      ensures Reads(r, z.Rest(), GetConst(old(z.Rest())))
    {
      hide GetString;
      var t := LoadByte();
      if t.Failed? { return Failed(t.e); }
      if t.v == 1 {
        var b := LoadByte();
        r := match b case Got(v) => Got(KBool(v != 0)) case Failed(e) => Failed(e);
      } else if t.v == 3 {
        var b := LoadBlock(8);
        r := match b case Got(v) => Got(KNum(v)) case Failed(e) => Failed(e);
      } else if t.v == 4 {
        var b := LoadString();
        r := match b case Got(v) => if v.Null? then Failed(NullConstant) else Got(KStr(v.s)) case Failed(e) => Failed(e);
      } else {
        r := Got(KNil);
      }
    }

    method LoadConsts(n: nat) returns (r: Result<seq<Const>>)
      modifies z
      ensures Reads(r, z.Rest(), GetConsts(old(z.Rest()), n))
    {
      hide GetConst;
      var ks := [];
      AfterNone(GetConsts(z.Rest(), n));
      for i := 0 to n
        invariant |ks| == i && After(ks, GetConsts(z.Rest(), n - i)) == GetConsts(old(z.Rest()), n)
      {
        var c := LoadConst();
        if c.Failed? { return Failed(c.e); }
        ghost var more := GetConsts(z.Rest(), n - i - 1);
        assert more.Ok? ==> ks + [c.v] + more.v == ks + ([c.v] + more.v);
        ks := ks + [c.v];
      }
      AfterAll(ks, z.Rest());
      r := Got(ks);
    }

    method LoadUpvalues(n: nat) returns (r: Result<seq<UpvalDesc>>)
      modifies z
      ensures Reads(r, z.Rest(), GetUpvals(old(z.Rest()), n))
    {
      var us := [];
      AfterNone(GetUpvals(z.Rest(), n));
      for i := 0 to n
        invariant |us| == i && After(us, GetUpvals(z.Rest(), n - i)) == GetUpvals(old(z.Rest()), n)
      {
        var u := LoadUpval();
        if u.Failed? { return Failed(u.e); }
        ghost var more := GetUpvals(z.Rest(), n - i - 1);
        assert more.Ok? ==> us + [u.v] + more.v == us + ([u.v] + more.v);
        us := us + [u.v];
      }
      AfterAll(us, z.Rest());
      r := Got(us);
    }

    method LoadUpval() returns (r: Result<UpvalDesc>)
      modifies z
      ensures var s := old(z.Rest());
              Reads(r, z.Rest(), if |s| < 2 then Err(Truncated) else Ok(UpvalDesc(s[0], s[1], Null), s[2..]))
    {
      var a := LoadByte();
      if a.Failed? { return Failed(a.e); }
      var b := LoadByte();
      r := match b case Got(v) => Got(UpvalDesc(a.v, v, Null)) case Failed(e) => Failed(e);
    }

    method LoadLocVar() returns (r: Result<LocVar>)
      modifies z
      ensures Reads(r, z.Rest(), GetLocVar(old(z.Rest())))
    {
      hide GetString, GetInt;
      var name := LoadString();
      if name.Failed? { return Failed(name.e); }
      var a := LoadInt();
      if a.Failed? { return Failed(a.e); }
      var b := LoadInt();
      if b.Failed? { return Failed(b.e); }
      r := Got(LocVar(name.v, a.v, b.v));
    }

    method LoadLocVars(n: nat) returns (r: Result<seq<LocVar>>)
      modifies z
      ensures Reads(r, z.Rest(), GetLocVars(old(z.Rest()), n))
    {
      hide GetLocVar;
      var vs := [];
      AfterNone(GetLocVars(z.Rest(), n));
      for i := 0 to n
        invariant |vs| == i && After(vs, GetLocVars(z.Rest(), n - i)) == GetLocVars(old(z.Rest()), n)
      {
        var v := LoadLocVar();
        if v.Failed? { return Failed(v.e); }
        ghost var more := GetLocVars(z.Rest(), n - i - 1);
        assert more.Ok? ==> vs + [v.v] + more.v == vs + ([v.v] + more.v);
        vs := vs + [v.v];
      }
      AfterAll(vs, z.Rest());
      r := Got(vs);
    }

    method LoadNames(n: nat, us0: seq<UpvalDesc>) returns (r: Result<seq<UpvalDesc>>)
      modifies z
      ensures Reads(r, z.Rest(), GetNames(old(z.Rest()), n, us0))
    {
      hide GetString;
      var us := us0;
      assert us0[..0] == [] && us0[0..] == us0;
      AfterNone(GetNames(z.Rest(), n, us0));
      for i := 0 to n
        invariant i <= |us| == |us0| && us[i..] == us0[i..]
        invariant After(us[..i], GetNames(z.Rest(), n - i, us0[i..])) == GetNames(old(z.Rest()), n, us0)
      {
        var name := LoadString();
        if name.Failed? { return Failed(name.e); }
        if i >= |us| { return Failed(TooManyNames); }
        ghost var more := GetNames(z.Rest(), n - i - 1, us0[i + 1..]);
        assert us0[i..][1..] == us0[i + 1..] && us0[i..][0] == us0[i] && us[i..][0] == us[i];
        ghost var u, before := us[i].(name := name.v), us[..i];
        assert more.Ok? ==> us[..i] + [u] + more.v == us[..i] + ([u] + more.v);
        us := us[i := us[i].(name := name.v)];
        assert us[..i + 1] == before + [u];
      }
      assert us[..n] + us0[n..] == us;
      r := Got(us);
    }

    method LoadDebug(f: Proto) returns (r: Result<Proto>)
      modifies z
      ensures Reads(r, z.Rest(), GetDebug(old(z.Rest()), f))
    {
      hide GetString, GetInt, GetWords, GetLocVars, GetNames;
      var src := LoadString();
      if src.Failed? { return Failed(src.e); }
      var lines := LoadVector();
      if lines.Failed? { return Failed(lines.e); }
      var nv := LoadInt();
      if nv.Failed? { return Failed(nv.e); }
      var vars := LoadLocVars(nv.v);
      if vars.Failed? { return Failed(vars.e); }
      var nn := LoadInt();
      if nn.Failed? { return Failed(nn.e); }
      var names := LoadNames(nn.v, f.upvalues);
      if names.Failed? { return Failed(names.e); }
      r := Got(f.(source := src.v, lineinfo := lines.v, locvars := vars.v, upvalues := names.v));
    }

    method LoadFront() returns (r: Result<(Proto, nat)>)
      modifies z
      ensures Reads(r, z.Rest(), GetFront(old(z.Rest())))
    {
      hide GetInt, GetWords, GetConsts;
      var a := LoadInt();
      if a.Failed? { return Failed(a.e); }
      var b := LoadInt();
      if b.Failed? { return Failed(b.e); }
      var h := LoadBlock(3);
      if h.Failed? { return Failed(h.e); }
      var code := LoadVector();
      if code.Failed? { return Failed(code.e); }
      var nk := LoadInt();
      if nk.Failed? { return Failed(nk.e); }
      var ks := LoadConsts(nk.v);
      if ks.Failed? { return Failed(ks.e); }
      var np := LoadInt();
      if np.Failed? { return Failed(np.e); }
      r := Got((EMPTY.(linedefined := a.v, lastlinedefined := b.v, numparams := h.v[0], isVararg := h.v[1],
                       maxstacksize := h.v[2], code := code.v, k := ks.v), np.v));
    }

    method LoadFunction() returns (r: Result<Proto>)
      modifies z
      ensures Reads(r, z.Rest(), GetFunction(old(z.Rest())))
      decreases |z.Rest()|, 0
    {
      hide GetFront, GetInt, GetProtos, GetUpvals, GetDebug;
      FrontShorter(z.Rest());
      var front := LoadFront();
      if front.Failed? { return Failed(front.e); }
      var ps := LoadProtos(front.v.1);
      if ps.Failed? { return Failed(ps.e); }
      var nu := LoadInt();
      if nu.Failed? { return Failed(nu.e); }
      var us := LoadUpvalues(nu.v);
      if us.Failed? { return Failed(us.e); }
      r := LoadDebug(front.v.0.(p := ps.v, upvalues := us.v));
    }

    method LoadProtos(n: nat) returns (r: Result<seq<Proto>>)
      modifies z
      ensures Reads(r, z.Rest(), GetProtos(old(z.Rest()), n))
      decreases |z.Rest()|, 1
    {
      hide GetFunction;
      var ps := [];
      AfterNone(GetProtos(z.Rest(), n));
      for i := 0 to n
        invariant |z.Rest()| <= |old(z.Rest())|
        invariant |ps| == i && After(ps, GetProtos(z.Rest(), n - i)) == GetProtos(old(z.Rest()), n)
      {
        FunctionShorter(z.Rest());
        var f := LoadFunction();
        if f.Failed? { return Failed(f.e); }
        ghost var more := GetProtos(z.Rest(), n - i - 1);
        assert more.Ok? ==> ps + [f.v] + more.v == ps + ([f.v] + more.v);
        ps := ps + [f.v];
      }
      AfterAll(ps, z.Rest());
      r := Got(ps);
    }

    /** LoadHeader: the first character has been read already. */
    method LoadHeader() returns (r: Result<()>)
      modifies z
      ensures Reads(r, z.Rest(), GetHeader([HEADER[0]] + old(z.Rest())))
    {
      ghost var s := z.Rest();
      var b := LoadBlock(|HEADER| - 1);
      if b.Failed? { return Failed(b.e); }
      var h := [HEADER[0]] + b.v;
      assert ([HEADER[0]] + s)[..|HEADER|] == h && ([HEADER[0]] + s)[|HEADER|..] == s[|HEADER| - 1..];
      if h == HEADER { return Got(()); }
      if h[..4] != HEADER[..4] { return Failed(NotAChunk); }
      if h[..6] != HEADER[..6] { return Failed(VersionMismatch); }
      r := Failed(if h[..12] != HEADER[..12] then Incompatible else Corrupted);
    }

    /** luaU_undump. */
    method Undump() returns (r: Result<Proto>)
      modifies z
      ensures Reads(r, z.Rest(), GetChunk([HEADER[0]] + old(z.Rest())))
    {
      hide GetHeader, GetFunction;
      var h := LoadHeader();
      if h.Failed? { return Failed(h.e); }
      r := LoadFunction();
    }
  }

  lemma FrontShorter(s: seq<Byte>)
    ensures GetFront(s).Ok? ==> |GetFront(s).rest| < |s|
  {}

  lemma FunctionShorter(s: seq<Byte>)
    ensures GetFunction(s).Ok? ==> |GetFunction(s).rest| < |s|
  {}

  lemma ChunkBegins(f: Proto, strip: bool)
    ensures ChunkBytes(f, strip) != [] && ChunkBytes(f, strip)[0] == HEADER[0]
  {}

  /** Dumping a function and loading it again, through a writer that does not
      fail and a reader that hands the bytes over in any non-empty chunks. */
  method DumpAndLoad(f: Proto, strip: bool, writer: nat -> int, split: seq<Byte> -> seq<seq<Byte>>) returns (r: Result<Proto>)
    requires ProtoOk(f) && forall n :: writer(n) == 0
    requires forall s: seq<Byte> :: Flat(split(s)) == s
    ensures r == Got(Kept(f, strip))
  {
    hide ProtoOk, Kept, ChunkBytes, GetChunk, Flat;
    var d := new DumpState(writer, strip);
    var st := d.Dump(f);
    assert d.out == [] + ChunkBytes(f, strip) == ChunkBytes(f, strip);
    var z := new ZIO(split(d.out));
    assert z.Rest() == ChunkBytes(f, strip);
    var c := z.Getc();
    ChunkBack(f, strip, []);
    ChunkBegins(f, strip);
    assert ChunkBytes(f, strip) + [] == ChunkBytes(f, strip);
    assert ChunkBytes(f, strip) == [c] + z.Rest() && c == HEADER[0];
    var s := new LoadState(z);
    r := s.Undump();
  }
}
