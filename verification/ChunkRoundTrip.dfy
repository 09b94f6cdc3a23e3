/** Reading back what was written (ldump.c, lundump.c). */
module ChunkRoundTrip {
  import opened ChunkFormat

  lemma Front<T>(a: seq<T>, b: seq<T>)
    ensures (a + b)[..|a|] == a && (a + b)[|a|..] == b
  {}

  lemma IntBack(x: nat, t: seq<Byte>)
    requires x < INT_LIMIT
    ensures GetInt(Int(x) + t) == Ok(x, t)
  {
    Limits();
    WordRoundTrip(x, 4);
    Front(Int(x), t);
  }

  lemma Cut<T>(a: seq<T>, b: seq<T>, c: seq<T>, t: seq<T>)
    ensures (a + b + c + t)[..|a|] == a && (a + b + c + t)[|a|..|a| + |b|] == b && (a + b + c + t)[|a| + |b| + |c|..] == t
  {}

  lemma StringBack(s: Str, t: seq<Byte>)
    requires StrOk(s)
    ensures GetString(StringBytes(s) + t) == Ok(s, t)
  {
    hide Word, WordValue, Pow256;
    match s
    case Null =>
      SizeBack(0);
      Front(Word(0, 8), t);
    case Bytes(b) =>
      var n := |b| + 1;
      SizeBack(n);
      var all := Word(n, 8) + b + [0] + t;
      assert StringBytes(s) + t == all;
      Cut(Word(n, 8), b, [0], t);
      assert |all| == 8 + n + |t| && all[..8] == Word(n, 8) && all[8..8 + n - 1] == b && all[8 + n..] == t;
  }

  lemma SizeBack(n: nat)
    requires n < SIZE_LIMIT
    ensures |Word(n, 8)| == 8 && WordValue(Word(n, 8)) == n
  {
    Limits();
    WordRoundTrip(n, 8);
  }

  lemma {:induction false} WordsBack(ws: seq<nat>)
    requires forall i | 0 <= i < |ws| :: ws[i] < WORD_LIMIT
    ensures WordsOf(Words(ws)) == ws && |Words(ws)| == 4 * |ws|
    decreases |ws|
  {
    if ws != [] {
      Limits();
      WordRoundTrip(ws[0], 4);
      Front(Word(ws[0], 4), Words(ws[1..]));
      WordsBack(ws[1..]);
    }
  }

  lemma VectorBack(ws: seq<nat>, t: seq<Byte>)
    requires |ws| < INT_LIMIT && forall i | 0 <= i < |ws| :: ws[i] < WORD_LIMIT
    ensures GetWords(Int(|ws|) + Words(ws) + t) == Ok(ws, t)
  {
    hide Words, WordsOf, Int, GetInt;
    assert Int(|ws|) + Words(ws) + t == Int(|ws|) + (Words(ws) + t);
    IntBack(|ws|, Words(ws) + t);
    WordsBack(ws);
    Front(Words(ws), t);
  }

  lemma ConstBack(c: Const, t: seq<Byte>)
    requires ConstOk(c)
    ensures GetConst(ConstBytes(c) + t) == Ok(c, t)
  {
    hide StringBytes, GetString, Word, WordValue;
    match c
    case KNil => assert ([0] + t)[1..] == t;
    case KBool(b) => assert (ConstBytes(c) + t)[1..] == [if b then 1 else 0] + t;
    case KNum(n) =>
      assert (ConstBytes(c) + t)[1..] == n + t;
      Front(n, t);
    case KStr(s) =>
      assert (ConstBytes(c) + t)[1..] == StringBytes(Bytes(s)) + t;
      StringBack(Bytes(s), t);
  }

  lemma {:induction false} ConstsBack(ks: seq<Const>, t: seq<Byte>)
    requires forall i | 0 <= i < |ks| :: ConstOk(ks[i])
    ensures GetConsts(ConstsBytes(ks) + t, |ks|) == Ok(ks, t)
    decreases |ks|
  {
    hide GetConst, ConstBytes;
    if ks == [] {
      assert [] + t == t;
    } else {
      assert ConstsBytes(ks) + t == ConstBytes(ks[0]) + (ConstsBytes(ks[1..]) + t);
      ConstBack(ks[0], ConstsBytes(ks[1..]) + t);
      ConstsBack(ks[1..], t);
      assert [ks[0]] + ks[1..] == ks;
    }
  }

  function Nameless(us: seq<UpvalDesc>): seq<UpvalDesc> {
    seq(|us|, i requires 0 <= i < |us| => us[i].(name := Null))
  }

  lemma {:induction false} UpvalsBack(us: seq<UpvalDesc>, t: seq<Byte>)
    ensures GetUpvals(UpvalsBytes(us) + t, |us|) == Ok(Nameless(us), t)
    decreases |us|
  {
    if us == [] {
      assert [] + t == t;
    } else {
      assert UpvalsBytes(us) + t == [us[0].instack, us[0].idx] + (UpvalsBytes(us[1..]) + t);
      Front([us[0].instack, us[0].idx], UpvalsBytes(us[1..]) + t);
      UpvalsBack(us[1..], t);
      assert Nameless(us) == [us[0].(name := Null)] + Nameless(us[1..]);
    }
  }

  lemma {:induction false} NamesBack(us: seq<UpvalDesc>, t: seq<Byte>)
    requires forall i | 0 <= i < |us| :: StrOk(us[i].name)
    ensures GetNames(NamesBytes(us) + t, |us|, Nameless(us)) == Ok(us, t)
    decreases |us|
  {
    hide GetString, StringBytes;
    if us == [] {
      assert [] + t == t;
    } else {
      assert NamesBytes(us) + t == StringBytes(us[0].name) + (NamesBytes(us[1..]) + t);
      StringBack(us[0].name, NamesBytes(us[1..]) + t);
      NamesBack(us[1..], t);
      assert Nameless(us)[1..] == Nameless(us[1..]) && [us[0]] + us[1..] == us;
    }
  }

  lemma LocVarBack(v: LocVar, t: seq<Byte>)
    requires StrOk(v.varname) && v.startpc < INT_LIMIT && v.endpc < INT_LIMIT
    ensures GetLocVar(LocVarBytes(v) + t) == Ok(v, t)
  {
    hide GetString, StringBytes, GetInt, Int;
    assert LocVarBytes(v) + t == StringBytes(v.varname) + (Int(v.startpc) + (Int(v.endpc) + t));
    StringBack(v.varname, Int(v.startpc) + (Int(v.endpc) + t));
    IntBack(v.startpc, Int(v.endpc) + t);
    IntBack(v.endpc, t);
  }

  lemma {:induction false} LocVarsBack(vs: seq<LocVar>, t: seq<Byte>)
    requires forall i | 0 <= i < |vs| :: StrOk(vs[i].varname) && vs[i].startpc < INT_LIMIT && vs[i].endpc < INT_LIMIT
    ensures GetLocVars(LocVarsBytes(vs) + t, |vs|) == Ok(vs, t)
    decreases |vs|
  {
    hide GetLocVar, LocVarBytes;
    if vs == [] {
      assert [] + t == t;
    } else {
      assert LocVarsBytes(vs) + t == LocVarBytes(vs[0]) + (LocVarsBytes(vs[1..]) + t);
      LocVarBack(vs[0], LocVarsBytes(vs[1..]) + t);
      LocVarsBack(vs[1..], t);
      assert [vs[0]] + vs[1..] == vs;
    }
  }

  /** The debug data, onto a prototype whose upvalues have no names yet. */
  lemma DebugBack(f: Proto, t: seq<Byte>)
    requires ProtoOk(f)
    ensures GetDebug(DebugBytes(f, false) + t, EMPTY.(upvalues := Nameless(f.upvalues)))
            == Ok(EMPTY.(source := f.source, lineinfo := f.lineinfo, locvars := f.locvars, upvalues := f.upvalues), t)
  {
    hide GetString, StringBytes, GetInt, Int, GetWords, Words, GetLocVars, LocVarsBytes, GetNames, NamesBytes, WordsOf;
    var t3 := Int(|f.upvalues|) + NamesBytes(f.upvalues) + t;
    var t2 := Int(|f.locvars|) + LocVarsBytes(f.locvars) + t3;
    var t1 := Int(|f.lineinfo|) + Words(f.lineinfo) + t2;
    assert DebugBytes(f, false) + t == StringBytes(f.source) + t1;
    StringBack(f.source, t1);
    VectorBack(f.lineinfo, t2);
    assert t2 == Int(|f.locvars|) + (LocVarsBytes(f.locvars) + t3);
    IntBack(|f.locvars|, LocVarsBytes(f.locvars) + t3);
    LocVarsBack(f.locvars, t3);
    assert t3 == Int(|f.upvalues|) + (NamesBytes(f.upvalues) + t);
    IntBack(|f.upvalues|, NamesBytes(f.upvalues) + t);
    NamesBack(f.upvalues, t);
  }

  lemma StrippedBack(us: seq<UpvalDesc>, t: seq<Byte>)
    ensures GetDebug(DebugBytes(EMPTY, true) + t, EMPTY.(upvalues := us)) == Ok(EMPTY.(upvalues := us), t)
  {
    assert DebugBytes(EMPTY, true) + t == StringBytes(Null) + (Int(0) + (Int(0) + (Int(0) + t)));
    StringBack(Null, Int(0) + (Int(0) + (Int(0) + t)));
    IntBack(0, Int(0) + (Int(0) + t));
    var t2 := Int(0) + (Int(0) + t);
    assert t2[..0] == [] && t2[0..] == t2;
    IntBack(0, Int(0) + t);
    IntBack(0, t);
  }

  /** The other fields stay as they are. */
  lemma GetDebugKeeps(s: seq<Byte>, f: Proto, t: seq<Byte>, d: Proto)
    requires GetDebug(s, EMPTY.(upvalues := f.upvalues)) == Ok(d, t)
    ensures GetDebug(s, f) == Ok(f.(source := d.source, lineinfo := d.lineinfo, locvars := d.locvars, upvalues := d.upvalues), t)
  {}

  function FrontOf(f: Proto): Proto {
    EMPTY.(linedefined := f.linedefined, lastlinedefined := f.lastlinedefined, numparams := f.numparams,
           isVararg := f.isVararg, maxstacksize := f.maxstacksize, code := f.code, k := f.k)
  }

  lemma FrontBack(f: Proto, t: seq<Byte>)
    requires ProtoOk(f)
    ensures GetFront(Int(f.linedefined) + Int(f.lastlinedefined) + [f.numparams, f.isVararg, f.maxstacksize]
                     + (Int(|f.code|) + Words(f.code)) + (Int(|f.k|) + ConstsBytes(f.k)) + (Int(|f.p|) + t))
            == Ok((FrontOf(f), |f.p|), t)
  {
    hide GetInt, Int, GetWords, Words, GetConsts, ConstsBytes, WordsOf;
    var t5 := Int(|f.p|) + t;
    var t4 := Int(|f.k|) + (ConstsBytes(f.k) + t5);
    var t3 := Int(|f.code|) + Words(f.code) + t4;
    var t2 := [f.numparams, f.isVararg, f.maxstacksize] + t3;
    var t1 := Int(f.lastlinedefined) + t2;
    assert Int(f.linedefined) + Int(f.lastlinedefined) + [f.numparams, f.isVararg, f.maxstacksize]
           + (Int(|f.code|) + Words(f.code)) + (Int(|f.k|) + ConstsBytes(f.k)) + (Int(|f.p|) + t) == Int(f.linedefined) + t1;
    IntBack(f.linedefined, t1);
    IntBack(f.lastlinedefined, t2);
    Front([f.numparams, f.isVararg, f.maxstacksize], t3);
    VectorBack(f.code, t4);
    IntBack(|f.k|, ConstsBytes(f.k) + t5);
    ConstsBack(f.k, t5);
    IntBack(|f.p|, t);
  }

  function Kept(f: Proto, strip: bool): Proto { if strip then Stripped(f) else f }

  function KeptFrom(f: Proto, i: nat, strip: bool): seq<Proto>
    decreases |f.p| - i
  {
    if i >= |f.p| then [] else [Kept(f.p[i], strip)] + KeptFrom(f, i + 1, strip)
  }

  lemma {:induction false} KeptAll(f: Proto, i: nat, strip: bool)
    requires i <= |f.p|
    ensures KeptFrom(f, i, strip) == Kept(f, strip).p[i..]
    decreases |f.p| - i
  {
    if i < |f.p| { KeptAll(f, i + 1, strip); }
  }

  /** The bytes of a prototype, part by part. */
  lemma FunctionParts(f: Proto, strip: bool, t: seq<Byte>)
    ensures var t3 := DebugBytes(f, strip) + t;
            var t2 := Int(|f.upvalues|) + (UpvalsBytes(f.upvalues) + t3);
            FunctionBytes(f, strip) + t ==
            Int(f.linedefined) + Int(f.lastlinedefined) + [f.numparams, f.isVararg, f.maxstacksize]
            + (Int(|f.code|) + Words(f.code)) + (Int(|f.k|) + ConstsBytes(f.k)) + (Int(|f.p|) + (ProtosBytes(f, 0, strip) + t2))
  {
    hide Int, Words, ConstsBytes, ProtosBytes, UpvalsBytes, DebugBytes;
  }

  lemma Assembled(s: seq<Byte>, a: Proto, n: nat, t1: seq<Byte>, ps: seq<Proto>, t2: seq<Byte>, m: nat, t3: seq<Byte>,
                  us: seq<UpvalDesc>, t4: seq<Byte>, f: Proto, t: seq<Byte>)
    requires GetFront(s) == Ok((a, n), t1) && GetProtos(t1, n) == Ok(ps, t2) && GetInt(t2) == Ok(m, t3)
    requires GetUpvals(t3, m) == Ok(us, t4) && GetDebug(t4, a.(p := ps, upvalues := us)) == Ok(f, t)
    ensures GetFunction(s) == Ok(f, t)
  {
    hide GetFront, GetProtos, GetInt, GetUpvals, GetDebug;
  }

  lemma StripIgnores(f: Proto)
    ensures DebugBytes(f, true) == DebugBytes(EMPTY, true)
  {
    hide StringBytes, Int;
  }

  lemma DebugKept(f: Proto, strip: bool, t: seq<Byte>)
    requires ProtoOk(f)
    ensures GetDebug(DebugBytes(f, strip) + t, FrontOf(f).(p := Kept(f, strip).p, upvalues := Nameless(f.upvalues)))
            == Ok(Kept(f, strip), t)
  {
    var us := Nameless(f.upvalues);
    var g := FrontOf(f).(p := Kept(f, strip).p, upvalues := us);
    var s := DebugBytes(f, strip) + t;
    if strip {
      StripIgnores(f);
      hide GetDebug, DebugBytes, ProtoOk;
      StrippedBack(us, t);
      GetDebugKeeps(s, g, t, EMPTY.(upvalues := us));
      assert Stripped(f).upvalues == us;
    } else {
      hide GetDebug, DebugBytes, ProtoOk, Stripped;
      DebugBack(f, t);
      GetDebugKeeps(s, g, t, EMPTY.(source := f.source, lineinfo := f.lineinfo, locvars := f.locvars, upvalues := f.upvalues));
    }
  }

  /** Reading the bytes of a prototype gives it back, without its debug data if
      that was stripped. */
  lemma {:induction false} FunctionBack(f: Proto, strip: bool, t: seq<Byte>)
    requires ProtoOk(f)
    ensures GetFunction(FunctionBytes(f, strip) + t) == Ok(Kept(f, strip), t)
    decreases f, 1
  {
    hide *;
    UpvalCount(f);
    var t3 := DebugBytes(f, strip) + t;
    var t2 := Int(|f.upvalues|) + (UpvalsBytes(f.upvalues) + t3);
    var t1 := ProtosBytes(f, 0, strip) + t2;
    FunctionParts(f, strip, t);
    FrontBack(f, t1);
    ProtosBack(f, 0, strip, t2);
    KeptAll(f, 0, strip);
    assert Kept(f, strip).p[0..] == Kept(f, strip).p;
    IntBack(|f.upvalues|, UpvalsBytes(f.upvalues) + t3);
    UpvalsBack(f.upvalues, t3);
    DebugKept(f, strip, t);
    Assembled(FunctionBytes(f, strip) + t, FrontOf(f), |f.p|, t1, Kept(f, strip).p, t2, |f.upvalues|,
              UpvalsBytes(f.upvalues) + t3, Nameless(f.upvalues), t3, Kept(f, strip), t);
  }

  lemma UpvalCount(f: Proto)
    requires ProtoOk(f)
    ensures |f.upvalues| < INT_LIMIT
  {}

  lemma OneMore(s: seq<Byte>, n: nat, f: Proto, t: seq<Byte>, fs: seq<Proto>, u: seq<Byte>)
    requires n > 0 && GetFunction(s) == Ok(f, t) && GetProtos(t, n - 1) == Ok(fs, u)
    ensures GetProtos(s, n) == Ok([f] + fs, u)
  {
    hide GetFunction;
  }

  lemma {:induction false} ProtosBack(f: Proto, i: nat, strip: bool, t: seq<Byte>)
    requires ProtoOk(f) && i <= |f.p|
    ensures GetProtos(ProtosBytes(f, i, strip) + t, |f.p| - i) == Ok(KeptFrom(f, i, strip), t)
    decreases f, 0, |f.p| - i
  {
    hide *;
    if i == |f.p| {
      NoProtos(f, strip, t);
    } else {
      var rest := ProtosBytes(f, i + 1, strip) + t;
      NextProto(f, i, strip, t);
      FunctionBack(f.p[i], strip, rest);
      ProtosBack(f, i + 1, strip, t);
      OneMore(ProtosBytes(f, i, strip) + t, |f.p| - i, Kept(f.p[i], strip), rest, KeptFrom(f, i + 1, strip), t);
    }
  }

  lemma NoProtos(f: Proto, strip: bool, t: seq<Byte>)
    ensures GetProtos(ProtosBytes(f, |f.p|, strip) + t, 0) == Ok(KeptFrom(f, |f.p|, strip), t)
  {
    assert [] + t == t;
  }

  lemma NextProto(f: Proto, i: nat, strip: bool, t: seq<Byte>)
    requires ProtoOk(f) && i < |f.p|
    ensures ProtoOk(f.p[i])
    ensures ProtosBytes(f, i, strip) + t == FunctionBytes(f.p[i], strip) + (ProtosBytes(f, i + 1, strip) + t)
    ensures KeptFrom(f, i, strip) == [Kept(f.p[i], strip)] + KeptFrom(f, i + 1, strip)
  {
    hide FunctionBytes, Kept;
  }

  /** luaU_undump after luaU_dump. */
  lemma ChunkBack(f: Proto, strip: bool, t: seq<Byte>)
    requires ProtoOk(f)
    ensures GetChunk(ChunkBytes(f, strip) + t) == Ok(Kept(f, strip), t)
  {
    hide GetFunction, FunctionBytes;
    assert ChunkBytes(f, strip) + t == HEADER + (FunctionBytes(f, strip) + t);
    Front(HEADER, FunctionBytes(f, strip) + t);
    FunctionBack(f, strip, t);
  }

  /** Different prototypes have different bytes, and none are the beginning of
      those of another. */
  lemma BytesTell(f: Proto, g: Proto, t: seq<Byte>, u: seq<Byte>)
    requires ProtoOk(f) && ProtoOk(g) && ChunkBytes(f, false) + t == ChunkBytes(g, false) + u
    ensures f == g && t == u
  {
    ChunkBack(f, false, t);
    ChunkBack(g, false, u);
  }

  /** Stripping is what is lost, and only once. */
  lemma {:induction false} StrippedTwice(f: Proto)
    ensures Stripped(Stripped(f)) == Stripped(f)
    decreases f
  {
    var g := Stripped(f);
    forall i | 0 <= i < |f.p| ensures Stripped(g.p[i]) == g.p[i] { StrippedTwice(f.p[i]); }
    assert Stripped(g).p == g.p;
    assert Stripped(g).upvalues == g.upvalues;
  }
}
