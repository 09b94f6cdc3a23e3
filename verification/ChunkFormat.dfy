/** Precompiled chunks (ldump.c, lundump.c): the bytes of a function prototype,
    and reading them back. Integers are little-endian; an int has 4 bytes, a
    size 8, an instruction 4 and a number 8, as the header says. */
module ChunkFormat {
  type Byte = x: int | 0 <= x < 256

  datatype Str = Null | Bytes(s: seq<Byte>)

  /** A number is kept as its 8 bytes. */
  datatype Const = KNil | KBool(b: bool) | KNum(n: seq<Byte>) | KStr(s: seq<Byte>)

  datatype UpvalDesc = UpvalDesc(instack: Byte, idx: Byte, name: Str)

  datatype LocVar = LocVar(varname: Str, startpc: nat, endpc: nat)

  datatype Proto = Proto(
    linedefined: nat, lastlinedefined: nat, numparams: Byte, isVararg: Byte, maxstacksize: Byte,
    code: seq<nat>, k: seq<Const>, p: seq<Proto>, upvalues: seq<UpvalDesc>,
    source: Str, lineinfo: seq<nat>, locvars: seq<LocVar>)

  const INT_LIMIT := 0x8000_0000
  const WORD_LIMIT := 0x1_0000_0000
  const SIZE_LIMIT := 0x1_0000_0000_0000_0000

  // --------------------------------------------------------------- well-formed

  predicate StrOk(s: Str) { s.Bytes? ==> |s.s| + 1 < SIZE_LIMIT }

  predicate ConstOk(c: Const) {
    match c case KNil => true case KBool(_) => true case KNum(n) => |n| == 8 case KStr(s) => |s| + 1 < SIZE_LIMIT
  }

  /** What holds of every prototype: counts are ints, instructions are words.
      Line numbers are dumped as they are, as the words of ints. */
  ghost predicate ProtoOk(f: Proto)
    decreases f, 1
  {
    && f.linedefined < INT_LIMIT && f.lastlinedefined < INT_LIMIT
    && |f.code| < INT_LIMIT && (forall i | 0 <= i < |f.code| :: f.code[i] < WORD_LIMIT)
    && |f.k| < INT_LIMIT && (forall i | 0 <= i < |f.k| :: ConstOk(f.k[i]))
    && |f.p| < INT_LIMIT && (forall i | 0 <= i < |f.p| :: ProtoOk(f.p[i]))
    && |f.upvalues| < INT_LIMIT && (forall i | 0 <= i < |f.upvalues| :: StrOk(f.upvalues[i].name))
    && StrOk(f.source)
    && |f.lineinfo| < INT_LIMIT && (forall i | 0 <= i < |f.lineinfo| :: f.lineinfo[i] < WORD_LIMIT)
    && |f.locvars| < INT_LIMIT
    && (forall i | 0 <= i < |f.locvars| :: StrOk(f.locvars[i].varname) && f.locvars[i].startpc < INT_LIMIT && f.locvars[i].endpc < INT_LIMIT)
  }

  /** A prototype without its debug data. */
  function Stripped(f: Proto): Proto
    decreases f
  {
    f.(source := Null, lineinfo := [], locvars := [],
       upvalues := seq(|f.upvalues|, i requires 0 <= i < |f.upvalues| => f.upvalues[i].(name := Null)),
       p := seq(|f.p|, i requires 0 <= i < |f.p| => Stripped(f.p[i])))
  }

  // ----------------------------------------------------------------- numbers

  function Pow256(k: nat): nat { if k == 0 then 1 else 256 * Pow256(k - 1) }

  function Word(x: nat, k: nat): (s: seq<Byte>)
    ensures |s| == k
  {
    if k == 0 then [] else [x % 256] + Word(x / 256, k - 1)
  }

  function WordValue(s: seq<Byte>): nat {
    if s == [] then 0 else s[0] + 256 * WordValue(s[1..])
  }

  lemma {:induction false} WordRoundTrip(x: nat, k: nat)
    requires x < Pow256(k)
    ensures WordValue(Word(x, k)) == x
    decreases k
  {
    if k > 0 {
      WordRoundTrip(x / 256, k - 1);
      assert Word(x, k)[1..] == Word(x / 256, k - 1);
    }
  }

  lemma Limits()
    ensures Pow256(4) == WORD_LIMIT && Pow256(8) == SIZE_LIMIT
  {
    assert Pow256(1) == 256 && Pow256(2) == 65536 && Pow256(3) == 16777216 && Pow256(4) == WORD_LIMIT;
    assert Pow256(5) == 256 * WORD_LIMIT && Pow256(6) == 65536 * WORD_LIMIT && Pow256(7) == 16777216 * WORD_LIMIT;
  }

  // ------------------------------------------------------------------- writing

  function Int(x: nat): seq<Byte> { Word(x, 4) }

  function StringBytes(s: Str): seq<Byte> {
    match s
    case Null => Word(0, 8)
    case Bytes(b) => Word(|b| + 1, 8) + b + [0]
  }

  function Words(ws: seq<nat>): (s: seq<Byte>)
    ensures |s| == 4 * |ws|
  {
    if ws == [] then [] else Word(ws[0], 4) + Words(ws[1..])
  }

  function ConstBytes(c: Const): seq<Byte> {
    match c
    case KNil => [0]
    case KBool(b) => [1, if b then 1 else 0]
    case KNum(n) => [3] + n
    case KStr(s) => [4] + StringBytes(Bytes(s))
  }

  function ConstsBytes(ks: seq<Const>): seq<Byte> {
    if ks == [] then [] else ConstBytes(ks[0]) + ConstsBytes(ks[1..])
  }

  function UpvalsBytes(us: seq<UpvalDesc>): seq<Byte> {
    if us == [] then [] else [us[0].instack, us[0].idx] + UpvalsBytes(us[1..])
  }

  function LocVarBytes(v: LocVar): seq<Byte> { StringBytes(v.varname) + Int(v.startpc) + Int(v.endpc) }

  function LocVarsBytes(vs: seq<LocVar>): seq<Byte> {
    if vs == [] then [] else LocVarBytes(vs[0]) + LocVarsBytes(vs[1..])
  }

  function NamesBytes(us: seq<UpvalDesc>): seq<Byte> {
    if us == [] then [] else StringBytes(us[0].name) + NamesBytes(us[1..])
  }

  function DebugBytes(f: Proto, strip: bool): seq<Byte> {
    if strip then StringBytes(Null) + Int(0) + Int(0) + Int(0)
    else StringBytes(f.source) + (Int(|f.lineinfo|) + Words(f.lineinfo))
         + (Int(|f.locvars|) + LocVarsBytes(f.locvars)) + (Int(|f.upvalues|) + NamesBytes(f.upvalues))
  }

  function FunctionBytes(f: Proto, strip: bool): seq<Byte>
    decreases f, 1
  {
    Int(f.linedefined) + Int(f.lastlinedefined) + [f.numparams, f.isVararg, f.maxstacksize]
    + (Int(|f.code|) + Words(f.code)) + (Int(|f.k|) + ConstsBytes(f.k)) + (Int(|f.p|) + ProtosBytes(f, 0, strip))
    + (Int(|f.upvalues|) + UpvalsBytes(f.upvalues)) + DebugBytes(f, strip)
  }

  /** The nested prototypes from the `i`-th on. */
  function ProtosBytes(f: Proto, i: nat, strip: bool): seq<Byte>
    decreases f, 0, |f.p| - i
  {
    if i >= |f.p| then [] else FunctionBytes(f.p[i], strip) + ProtosBytes(f, i + 1, strip)
  }

  /** luaU_header. */
  const HEADER: seq<Byte> := [0x1B, 0x4C, 0x75, 0x61, 0x52, 0, 1, 4, 8, 4, 8, 0, 0x19, 0x93, 0x0D, 0x0A, 0x1A, 0x0A]

  function ChunkBytes(f: Proto, strip: bool): seq<Byte> { HEADER + FunctionBytes(f, strip) }

  // ------------------------------------------------------------------- reading

  /** The last two stand for what is undefined in the original: a string
      constant without characters, and more upvalue names than upvalues. */
  datatype Error = Truncated | Corrupted | NotAChunk | VersionMismatch | Incompatible | NullConstant | TooManyNames

  datatype Read<T> = Ok(v: T, rest: seq<Byte>) | Err(e: Error)

  function GetBlock(s: seq<Byte>, n: nat): Read<seq<Byte>> {
    if |s| < n then Err(Truncated) else Ok(s[..n], s[n..])
  }

  function GetByte(s: seq<Byte>): Read<Byte> {
    if s == [] then Err(Truncated) else Ok(s[0], s[1..])
  }

  /** LoadInt refuses negative values. */
  function GetInt(s: seq<Byte>): (r: Read<nat>)
    ensures r.Ok? ==> |s| >= 4 && r.v < INT_LIMIT && r.rest == s[4..]
  {
    if |s| < 4 then Err(Truncated)
    else if WordValue(s[..4]) >= INT_LIMIT then Err(Corrupted)
    else Ok(WordValue(s[..4]), s[4..])
  }

  function GetString(s: seq<Byte>): (r: Read<Str>)
    ensures r.Ok? ==> |r.rest| < |s|
  {
    if |s| < 8 then Err(Truncated)
    else
      var size := WordValue(s[..8]);
      if size == 0 then Ok(Null, s[8..])
      else if |s| - 8 < size then Err(Truncated)
      else Ok(Bytes(s[8..8 + size - 1]), s[8 + size..])
  }

  function WordsOf(s: seq<Byte>): seq<nat> {
    if |s| < 4 then [] else [WordValue(s[..4])] + WordsOf(s[4..])
  }

  /** A counted vector of words. */
  function GetWords(s: seq<Byte>): (r: Read<seq<nat>>)
    ensures r.Ok? ==> |r.rest| < |s|
  {
    var n := GetInt(s);
    if n.Err? then Err(n.e)
    else if |n.rest| < 4 * n.v then Err(Truncated)
    else Ok(WordsOf(n.rest[..4 * n.v]), n.rest[4 * n.v..])
  }

  /** A constant; an unknown tag leaves it nil. */
  function GetConst(s: seq<Byte>): (r: Read<Const>)
    ensures r.Ok? ==> |r.rest| < |s|
  {
    if s == [] then Err(Truncated)
    else if s[0] == 1 then
      var b := GetByte(s[1..]);
      if b.Err? then Err(b.e) else Ok(KBool(b.v != 0), b.rest)
    else if s[0] == 3 then
      var b := GetBlock(s[1..], 8);
      if b.Err? then Err(b.e) else Ok(KNum(b.v), b.rest)
    else if s[0] == 4 then
      var b := GetString(s[1..]);
      if b.Err? then Err(b.e) else if b.v.Null? then Err(NullConstant) else Ok(KStr(b.v.s), b.rest)
    else Ok(KNil, s[1..])
  }

  function GetConsts(s: seq<Byte>, n: nat): (r: Read<seq<Const>>)
    ensures r.Ok? ==> |r.rest| <= |s|
    decreases n
  {
    if n == 0 then Ok([], s)
    else
      var c := GetConst(s);
      if c.Err? then Err(c.e)
      else
        var cs := GetConsts(c.rest, n - 1);
        if cs.Err? then cs else Ok([c.v] + cs.v, cs.rest)
  }

  function GetUpvals(s: seq<Byte>, n: nat): (r: Read<seq<UpvalDesc>>)
    ensures r.Ok? ==> |r.rest| <= |s| && |r.v| == n
    decreases n
  {
    if n == 0 then Ok([], s)
    else if |s| < 2 then Err(Truncated)
    else
      var us := GetUpvals(s[2..], n - 1);
      if us.Err? then us else Ok([UpvalDesc(s[0], s[1], Null)] + us.v, us.rest)
  }

  function GetLocVar(s: seq<Byte>): (r: Read<LocVar>)
    ensures r.Ok? ==> |r.rest| < |s|
  {
    var name := GetString(s);
    if name.Err? then Err(name.e)
    else
      var a := GetInt(name.rest);
      if a.Err? then Err(a.e)
      else
        var b := GetInt(a.rest);
        if b.Err? then Err(b.e) else Ok(LocVar(name.v, a.v, b.v), b.rest)
  }

  function GetLocVars(s: seq<Byte>, n: nat): (r: Read<seq<LocVar>>)
    ensures r.Ok? ==> |r.rest| <= |s|
    decreases n
  {
    if n == 0 then Ok([], s)
    else
      var v := GetLocVar(s);
      if v.Err? then Err(v.e)
      else
        var vs := GetLocVars(v.rest, n - 1);
        if vs.Err? then vs else Ok([v.v] + vs.v, vs.rest)
  }

  /** The names of the first `n` upvalues. */
  function GetNames(s: seq<Byte>, n: nat, us: seq<UpvalDesc>): (r: Read<seq<UpvalDesc>>)
    ensures r.Ok? ==> |r.rest| <= |s|
    decreases n
  {
    if n == 0 then Ok(us, s)
    else
      var name := GetString(s);
      if name.Err? then Err(name.e)
      else if us == [] then Err(TooManyNames)
      else
        var rest := GetNames(name.rest, n - 1, us[1..]);
        if rest.Err? then rest else Ok([us[0].(name := name.v)] + rest.v, rest.rest)
  }

  function GetDebug(s: seq<Byte>, f: Proto): (r: Read<Proto>)
    ensures r.Ok? ==> |r.rest| <= |s|
  {
    var src := GetString(s);
    if src.Err? then Err(src.e)
    else
      var lines := GetWords(src.rest);
      if lines.Err? then Err(lines.e)
      else
        var nv := GetInt(lines.rest);
        if nv.Err? then Err(nv.e)
        else
          var vars := GetLocVars(nv.rest, nv.v);
          if vars.Err? then Err(vars.e)
          else
            var nn := GetInt(vars.rest);
            if nn.Err? then Err(nn.e)
            else
              var names := GetNames(nn.rest, nn.v, f.upvalues);
              if names.Err? then Err(names.e)
              else Ok(f.(source := src.v, lineinfo := lines.v, locvars := vars.v, upvalues := names.v), names.rest)
  }

  const EMPTY := Proto(0, 0, 0, 0, 0, [], [], [], [], Null, [], [])

  /** The parts before the nested prototypes, with their number. */
  function GetFront(s: seq<Byte>): (r: Read<(Proto, nat)>)
    ensures r.Ok? ==> |r.rest| < |s|
  {
    var a := GetInt(s);
    if a.Err? then Err(a.e)
    else
      var b := GetInt(a.rest);
      if b.Err? then Err(b.e)
      else
        var h := GetBlock(b.rest, 3);
        if h.Err? then Err(h.e)
        else
          var code := GetWords(h.rest);
          if code.Err? then Err(code.e)
          else
            var nk := GetInt(code.rest);
            if nk.Err? then Err(nk.e)
            else
              var ks := GetConsts(nk.rest, nk.v);
              if ks.Err? then Err(ks.e)
              else
                var np := GetInt(ks.rest);
                if np.Err? then Err(np.e)
                else Ok((EMPTY.(linedefined := a.v, lastlinedefined := b.v, numparams := h.v[0], isVararg := h.v[1],
                                maxstacksize := h.v[2], code := code.v, k := ks.v), np.v), np.rest)
  }

  function GetFunction(s: seq<Byte>): (r: Read<Proto>)
    ensures r.Ok? ==> |r.rest| < |s|
    decreases |s|, 0, 0
  {
    var front := GetFront(s);
    if front.Err? then Err(front.e)
    else
      var ps := GetProtos(front.rest, front.v.1);
      if ps.Err? then Err(ps.e)
      else
        var nu := GetInt(ps.rest);
        if nu.Err? then Err(nu.e)
        else
          var us := GetUpvals(nu.rest, nu.v);
          if us.Err? then Err(us.e)
          else GetDebug(us.rest, front.v.0.(p := ps.v, upvalues := us.v))
  }

  function GetProtos(s: seq<Byte>, n: nat): (r: Read<seq<Proto>>)
    ensures r.Ok? ==> |r.rest| <= |s|
    decreases |s|, 1, n
  {
    if n == 0 then Ok([], s)
    else
      var f := GetFunction(s);
      if f.Err? then Err(f.e)
      else
        var fs := GetProtos(f.rest, n - 1);
        if fs.Err? then fs else Ok([f.v] + fs.v, fs.rest)
  }

  /** LoadHeader: what is wrong with a header that is not the expected one. */
  function GetHeader(s: seq<Byte>): Read<()> {
    if |s| < |HEADER| then Err(Truncated)
    else
      var h := s[..|HEADER|];
      if h == HEADER then Ok((), s[|HEADER|..])
      else if h[..4] != HEADER[..4] then Err(NotAChunk)
      else if h[..6] != HEADER[..6] then Err(VersionMismatch)
      else if h[..12] != HEADER[..12] then Err(Incompatible)
      else Err(Corrupted)
  }

  function GetChunk(s: seq<Byte>): Read<Proto> {
    var h := GetHeader(s);
    if h.Err? then Err(h.e) else GetFunction(h.rest)
  }
}
