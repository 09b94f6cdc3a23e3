/** The code generator as it is: one object whose code array, pending lists and
    registers are updated in place. A list of jumps is threaded through the jump
    instructions themselves: each holds the offset to the next one, and NO_JUMP
    ends the list. Every method is proved against the function of module CodeGen
    of the same name. */
module FuncStates {
  import opened LuaVM
  import opened CodeGen
  import opened CodeGenJumps
  import opened CodeGenEmit
  import opened CodeGenOps
  import opened CodeGenClose
  import opened CodeGenCorrect
  import opened CodeGenProgram

  const NO_JUMP := -1

  /** An instruction word: a jump with its signed offset, or any other. */
  datatype Word = JmpTo(sbx: int) | Op(i: Instr)

  /** The word at position p stands for an instruction. A resolved jump holds the
      offset to its target; the offset of a pending one is a list link. */
  ghost predicate Rep(w: Word, i: Instr, p: int) {
    if i.Jmp? then w.JmpTo? && (i.to.Dest? ==> w.sbx == i.to.d - (p + 1))
    else w == Op(i)
  }

  ghost predicate RepCode(words: seq<Word>, code: seq<Instr>) {
    |words| == |code| && forall p | 0 <= p < |code| :: Rep(words[p], code[p], p)
  }

  /** getjump: the next jump of the list. */
  function Next(w: Word, p: int): int
    requires w.JmpTo?
  {
    if w.sbx == NO_JUMP then NO_JUMP else p + 1 + w.sbx
  }

  /** The links that start at `head` visit exactly the positions xs, in order,
      and end. */
  ghost predicate IsList(words: seq<Word>, head: int, xs: seq<nat>)
    decreases |xs|
  {
    if xs == [] then head == NO_JUMP
    else
      && head == xs[0] && xs[0] < |words| && words[xs[0]].JmpTo?
      && IsList(words, Next(words[xs[0]], xs[0]), xs[1..])
  }

  lemma {:induction false} ListFrame(words: seq<Word>, words': seq<Word>, head: int, xs: seq<nat>)
    requires IsList(words, head, xs)
    requires forall p | p in xs :: p < |words'| && (p < |words| ==> words'[p] == words[p])
    ensures IsList(words', head, xs)
    decreases |xs|
  {
    if xs != [] {
      assert xs[0] in xs && forall p | p in xs[1..] :: p in xs;
      ListFrame(words, words', Next(words[xs[0]], xs[0]), xs[1..]); }
  }

  /** A descriptor with the heads of its lists. */
  datatype ExpDesc = ExpDesc(k: Kind, t: int, f: int)

  ghost predicate RepLists(words: seq<Word>, d: ExpDesc, e: Exp) {
    d.k == e.k && IsList(words, d.t, e.t) && IsList(words, d.f, e.f)
  }

  /** The jump of a comparison is a list of its own. */
  ghost predicate RepExp(words: seq<Word>, d: ExpDesc, e: Exp) {
    && RepLists(words, d, e)
    && (d.k.VJmp? ==> IsList(words, d.k.p, [d.k.p]))
  }

  lemma {:induction false} ListEmpty(words: seq<Word>, head: int, xs: seq<nat>)
    requires IsList(words, head, xs)
    ensures head == NO_JUMP <==> xs == []
  {}

  class FuncState {
    var code: seq<Word>
    var jpc: int
    var lasttarget: nat
    var k: seq<Value>
    var h: map<Value, nat>
    var freereg: int
    var nactvar: int
    const ord: Order
    /** The state that the fields stand for. */
    ghost var a: FS

    ghost predicate Valid()
      reads this
    {
      && RepCode(code, a.code) && IsList(code, jpc, a.jpc)
      && lasttarget == a.lasttarget && k == a.k && h == a.h
      && freereg == a.freereg && nactvar == a.nactvar
    }

    constructor (ord: Order, params: nat)
      ensures Valid() && this.ord == ord && a == FS([], [], 0, [], map[], params, params)
    {
      this.ord := ord;
      code, jpc, lasttarget, k, h := [], NO_JUMP, 0, [], map[];
      freereg, nactvar := params, params;
      a := FS([], [], 0, [], map[], params, params);
    }

    /** The control instruction of a jump is a TESTSET. */
    function ControlIsTestSet(p: int): (b: bool)
      reads this
      requires Valid() && 0 <= p < |code|
      ensures b == HasTestSet(a.code, p)
    {
      p >= 1 && code[p - 1].Op? && code[p - 1].i.TestSet?
    }

    method GetJump(p: int, ghost xs: seq<nat>) returns (next: int)
      requires Valid() && xs != [] && IsList(code, p, xs)
      ensures IsList(code, next, xs[1..])
    {
      next := Next(code[p], p);
    }

    method NeedsValue(list: int, ghost xs: seq<nat>) returns (need: bool)
      requires Valid() && IsList(code, list, xs)
      ensures need == NeedValue(a.code, xs)
    {
      var l := list;
      ghost var i := 0;
      while l != NO_JUMP
        invariant 0 <= i <= |xs| && IsList(code, l, xs[i..])
        invariant forall j | 0 <= j < i :: HasTestSet(a.code, xs[j])
        decreases |xs| - i
      {
        ListEmpty(code, l, xs[i..]);
        if !ControlIsTestSet(l) { assert !HasTestSet(a.code, xs[i]); return true; }
        l := GetJump(l, xs[i..]);
        i := i + 1;
      }
      ListEmpty(code, l, xs[i..]);
      need := false;
    }

    /** fixjump: only the offset of the jump changes. */
    method FixJump(p: nat, dest: int)
      requires p < |code| && code[p].JmpTo?
      modifies this`code
      ensures code == old(code)[p := JmpTo(dest - (p + 1))]
    {
      code := code[p := JmpTo(dest - (p + 1))];
    }

    /** patchtestreg. */
    method PatchTestReg(p: nat, reg: Option<int>) returns (patched: bool)
      requires p < |code|
      modifies this`code
      ensures patched == TestBefore(old(code), p)
      ensures code == if patched then old(code)[p - 1 := Op(PatchTest(old(code)[p - 1].i, reg))] else old(code)
    {
      if p >= 1 && code[p - 1].Op? && code[p - 1].i.TestSet? {
        code := code[p - 1 := Op(PatchTest(code[p - 1].i, reg))];
        return true;
      }
      return false;
    }

    /** One turn of patchlistaux; the result is the next jump of the list. */
    method PatchOne(l: nat, vtarget: nat, reg: Option<int>, dtarget: nat, ghost xs: seq<nat>, ghost i: nat)
      returns (next: int)
      requires i < |xs| && IsList(code, l, xs[i..]) && NoDup(xs) && AllPend(a.code, xs)
      requires RepCode(code, Patch(a.code, xs[..i], vtarget, reg, dtarget))
      modifies this`code
      ensures IsList(code, next, xs[i + 1..])
      ensures RepCode(code, Patch(a.code, xs[..i + 1], vtarget, reg, dtarget))
      ensures SameLinks(a.code, [xs[i]], old(code), code)
    {
      ghost var before := code;
      assert |code| == |a.code|;
      assert xs[i] in xs && Pend(a.code, xs[i]);
      next := Next(code[l], l);
      PatchStep(a.code, xs, i, vtarget, reg, dtarget, code);
      hide Patch, RepCode, PatchAt;
      var patched := PatchTestReg(l, reg);
      if patched {
        FixJump(l, vtarget);
      } else {
        FixJump(l, dtarget);
      }
      assert code == FixOne(before, xs[i], vtarget, reg, dtarget);
      RestOfList(a.code, before, code, next, xs, i);
    }

    /** patchlistaux: every jump of the list is fixed as Patch says. */
    method PatchListAux(list: int, vtarget: nat, reg: Option<int>, dtarget: nat, ghost xs: seq<nat>)
      requires RepCode(code, a.code) && IsList(code, list, xs) && NoDup(xs) && AllPend(a.code, xs)
      modifies this`code
      ensures RepCode(code, Patch(a.code, xs, vtarget, reg, dtarget))
      ensures SameLinks(a.code, xs, old(code), code)
    {
      var l := list;
      ghost var i := 0;
      PatchNone(a.code, vtarget, reg, dtarget);
      assert xs[..0] == [] && xs[0..] == xs;
      hide Patch, RepCode;
      while l != NO_JUMP
        invariant 0 <= i <= |xs| && IsList(code, l, xs[i..])
        invariant RepCode(code, Patch(a.code, xs[..i], vtarget, reg, dtarget))
        invariant SameLinks(a.code, xs[..i], old(code), code)
        decreases |xs| - i
      {
        ListEmpty(code, l, xs[i..]);
        l := PatchOne(l, vtarget, reg, dtarget, xs, i);
        assert xs[..i + 1] == xs[..i] + [xs[i]];
        i := i + 1;
      }
      ListEmpty(code, l, xs[i..]);
      assert xs[..i] == xs;
    }

    method DischargeJpc()
      requires Valid() && AllPend(a.code, a.jpc) && NoDup(a.jpc)
      modifies this
      ensures Valid() && a == Discharge(old(a)) && |code| == |old(code)|
      ensures SameLinks(old(a).code, old(a).jpc, old(code), code)
    {
      PatchListAux(jpc, |code|, None, |code|, a.jpc);
      jpc := NO_JUMP;
      a := Discharge(a);
    }

    /** luaK_code for an instruction that is not a jump. */
    method Code(i: Instr)
      requires Valid() && AllPend(a.code, a.jpc) && NoDup(a.jpc) && !i.Jmp?
      modifies this
      ensures Valid() && a == Emit(old(a), i) && |code| == |old(code)| + 1
      ensures SameLinks(old(a).code, old(a).jpc, old(code), code)
    {
      DischargeJpc();
      code := code + [Op(i)];
      a := a.(code := a.code + [i]);
    }

    /** luaK_concat: the list l2 is appended to l1. */
    method Concat(l1: int, l2: int, ghost xs: seq<nat>, ghost ys: seq<nat>) returns (l: int)
      requires Valid() && IsList(code, l1, xs) && IsList(code, l2, ys)
      requires NoDup(xs) && Disjoint(xs, ys) && AllPend(a.code, xs)
      modifies this`code
      ensures RepCode(code, a.code) && IsList(code, l, xs + ys)
      ensures SameLinks(a.code, xs, old(code), code)
    {
      ListEmpty(code, l1, xs);
      ListEmpty(code, l2, ys);
      if l2 == NO_JUMP {
        assert xs + ys == xs;
        return l1;
      } else if l1 == NO_JUMP {
        assert xs + ys == ys;
        return l2;
      }
      var list := l1;
      ghost var i := 0;
      var next := GetJump(list, xs);
      while next != NO_JUMP
        invariant 0 <= i < |xs| && list == xs[i] && IsList(code, next, xs[i + 1..]) && code == old(code)
        decreases |xs| - i
      {
        ListEmpty(code, next, xs[i + 1..]);
        list := next;
        i := i + 1;
        assert xs[i..][1..] == xs[i + 1..];
        next := GetJump(list, xs[i..]);
      }
      ListEmpty(code, next, xs[i + 1..]);
      assert list in xs && Pend(a.code, list);
      ListAppend(code, l1, xs, l2, ys);
      FixJump(list, l2);
      l := l1;
    }

    /** luaK_jump: the pending jumps to here are kept on hold after the new one. */
    method NewJump() returns (j: int)
      requires Valid() && AllPend(a.code, a.jpc) && NoDup(a.jpc)
      modifies this
      ensures Valid() && a == Jump(old(a)).0 && |code| == |old(code)| + 1
      ensures IsList(code, j, Jump(old(a)).1)
      ensures SameLinks(old(a).code, [], old(code), code)
    {
      var held, n := jpc, |code|;
      ghost var xs, before := a.jpc, code;
      jpc := NO_JUMP;
      code := code + [JmpTo(NO_JUMP)];
      a := Jump(a).0;
      forall p | p in xs ensures p < n && Pend(old(a).code, p) {}
      ListFrame(before, code, held, xs);
      assert IsList(code, n, [n]);
      j := Concat(n, held, [n], xs);
    }

    method LabelHere()
      requires Valid()
      modifies this`lasttarget, this`a
      ensures Valid() && a == GetLabel(old(a))
    {
      lasttarget := |code|;
      a := GetLabel(a);
    }

    /** luaK_patchtohere. */
    method PatchListToHere(list: int, ghost xs: seq<nat>)
      requires Valid() && IsList(code, list, xs) && NoDup(a.jpc) && Disjoint(a.jpc, xs) && AllPend(a.code, a.jpc)
      modifies this
      ensures Valid() && a == PatchToHere(old(a), xs) && |code| == |old(code)|
      ensures SameLinks(old(a).code, old(a).jpc, old(code), code)
    {
      LabelHere();
      jpc := Concat(jpc, list, a.jpc, xs);
      a := a.(jpc := a.jpc + xs);
    }

    /** condjump. */
    method CodeTest(i: Instr) returns (j: int)
      requires Valid() && Inv0(a) && NoDup(a.jpc) && IsTest(i) && (i.TestSet? ==> i.dst == None)
      modifies this
      ensures Valid() && a == CondJump(old(a), i).0 && |code| == |old(code)| + 2
      ensures IsList(code, j, CondJump(old(a), i).1) && j == |code| - 1
      ensures SameLinks(old(a).code, old(a).jpc, old(code), code)
    {
      ghost var a0, c0 := a, code;
      Code(i);
      ghost var a1, c1 := a, code;
      j := NewJump();
      ListEmpty(c1, jpc, []);
      DischargeOk(a0);
      forall p: nat | Pend(a0.code, p) && p !in a0.jpc ensures code[p] == c0[p] {
        assert SameExit(a0.code, Discharge(a0).code, p);
        assert Pend(a1.code, p);
      }
    }

    /** invertjump. */
    method Invert(p: nat)
      requires Valid() && 1 <= p < |a.code| && a.code[p - 1].Cmp? && AllPend(a.code, a.jpc)
      modifies this
      ensures Valid() && a == InvertJump(old(a), p) && |code| == |old(code)|
      ensures SameLinks(old(a).code, [], old(code), code)
    {
      ghost var before := code;
      code := code[p - 1 := Op(InvertAt(code[p - 1].i))];
      ListKeeps(a.code, [], before, code, jpc, a.jpc);
      a := InvertJump(a, p);
    }

    /** One turn of removevalues. */
    method StripOne(l: nat, ghost xs: seq<nat>, ghost i: nat) returns (next: int)
      requires i < |xs| && IsList(code, l, xs[i..]) && AllPend(a.code, xs)
      requires RepCode(code, RemoveValues(a.code, xs[..i]))
      modifies this`code
      ensures IsList(code, next, xs[i + 1..])
      ensures RepCode(code, RemoveValues(a.code, xs[..i + 1]))
      ensures SameLinks(a.code, [], old(code), code)
    {
      ghost var before := code;
      assert xs[i] in xs && Pend(a.code, xs[i]);
      next := Next(code[l], l);
      assert xs[i..][1..] == xs[i + 1..] && IsList(before, next, xs[i + 1..]);
      StripStep(a.code, xs, i, code);
      var _ := PatchTestReg(l, None);
      assert code == StripWords(before, xs[i]);
      assert forall p | p in xs[i + 1..] :: p in xs;
      ListKeeps(a.code, [], before, code, next, xs[i + 1..]);
    }

    /** removevalues. */
    method StripList(list: int, ghost xs: seq<nat>)
      requires Valid() && IsList(code, list, xs) && AllPend(a.code, xs) && AllPend(a.code, a.jpc)
      modifies this
      ensures Valid() && a == old(a).(code := RemoveValues(old(a).code, xs)) && |code| == |old(code)|
      ensures SameLinks(old(a).code, [], old(code), code)
    {
      var l := list;
      ghost var i := 0;
      ghost var c := a.code;
      assert RemoveValues(c, []) == c;
      assert xs[..0] == [] && xs[0..] == xs;
      while l != NO_JUMP
        invariant 0 <= i <= |xs| && IsList(code, l, xs[i..])
        invariant RepCode(code, RemoveValues(c, xs[..i]))
        invariant SameLinks(c, [], old(code), code)
        invariant a == old(a) && jpc == old(jpc) && lasttarget == old(lasttarget) && k == old(k)
        invariant h == old(h) && freereg == old(freereg) && nactvar == old(nactvar)
        decreases |xs| - i
      {
        ListEmpty(code, l, xs[i..]);
        l := StripOne(l, xs, i);
        i := i + 1;
      }
      ListEmpty(code, l, xs[i..]);
      assert xs[..i] == xs;
      a := a.(code := RemoveValues(c, xs));
      ListKeeps(c, [], old(code), code, jpc, a.jpc);
    }

    // ------------------------------------------------ constants and registers

    /** addk. */
    method AddConstant(v: Value) returns (i: nat)
      requires Valid()
      modifies this
      ensures Valid() && (a, i) == AddK(old(a), v, ord) && code == old(code)
    {
      a := AddK(a, v, ord).0;
      if v in h && h[v] < |k| && RawEqual(ord, k[h[v]], v) {
        return h[v];
      }
      i := |k|;
      k := k + [v];
      h := h[v := i];
    }

    /** luaK_codek. */
    method CodeConstant(reg: int, i: nat)
      requires Valid() && Inv0(a) && NoDup(a.jpc) && (i > MAXARG_BX ==> Inv(a))
      modifies this
      ensures Valid() && a == CodeK(old(a), reg, i) && |code| > |old(code)|
      ensures SameLinks(old(a).code, old(a).jpc, old(code), code)
    {
      if i <= MAXARG_BX {
        Code(LoadK(reg, i));
      } else {
        ghost var a0, c0 := a, code;
        EmitOk(a, LoadKX(reg));
        Code(LoadKX(reg));
        ghost var a1, c1 := a, code;
        Code(ExtraArg(i));
        forall p: nat | Pend(a0.code, p) && p !in a0.jpc ensures code[p] == c0[p] {
          assert SameExit(a0.code, a1.code, p);
        }
      }
    }

    /** Extends the LOADNIL that ends the code. */
    method MergeNil(from: int, n: nat, ghost a1: FS)
      requires Valid() && AllPend(a.code, a.jpc) && |code| > 0 && a1.code != []
      requires var q := a1.code[|a1.code| - 1];
        q == LoadNil(from, n) && a1 == a.(code := a.code[|a.code| - 1 := q]) && a.code[|a.code| - 1].LoadNil?
      modifies this
      ensures Valid() && a == a1 && |code| == |old(code)|
      ensures SameLinks(old(a).code, [], old(code), code)
    {
      ghost var c0 := code;
      code := code[|code| - 1 := Op(LoadNil(from, n))];
      ListKeeps(a.code, [], c0, code, jpc, a.jpc);
      a := a1;
    }

    /** luaK_nil. */
    method CodeNil(from: int, n: nat)
      requires Valid() && AllPend(a.code, a.jpc) && NoDup(a.jpc) && n > 0
      modifies this
      ensures Valid() && a == LuaNil(old(a), from, n)
      ensures SameLinks(old(a).code, old(a).jpc, old(code), code)
    {
      hide Emit;
      var l := from + n - 1;
      if |code| > lasttarget {
        var previous := code[|code| - 1];
        if previous.Op? && previous.i.LoadNil? {
          var pfrom, pl := previous.i.a, previous.i.a + previous.i.n;
          if (pfrom <= from <= pl + 1) || (from <= pfrom <= l + 1) {
            var lo := if pfrom < from then pfrom else from;
            var hi := if pl > l then pl else l;
            MergeNil(lo, hi - lo, LuaNil(a, from, n));
            return;
          }
        }
      }
      Code(LoadNil(from, n - 1));
    }

    method ReserveRegs(n: nat)
      requires Valid()
      modifies this`freereg, this`a
      ensures Valid() && a == Reserve(old(a), n)
    {
      freereg := freereg + n;
      a := Reserve(a, n);
    }

    method FreeExpReg(d: ExpDesc, ghost e: Exp)
      requires Valid() && d.k == e.k
      modifies this`freereg, this`a
      ensures Valid() && a == FreeExp(old(a), e)
    {
      if d.k.VNonReloc? && d.k.r >= nactvar {
        freereg := freereg - 1;
      }
      a := FreeExp(a, e);
    }

    // --------------------------------------------------------- discharging

    /** SETARG_A on the NOT of a relocatable descriptor. */
    method SetDestination(p: nat, reg: int)
      requires Valid() && AllPend(a.code, a.jpc) && p < |a.code| && a.code[p].Not?
      modifies this
      ensures Valid() && a == old(a).(code := Relocate(old(a).code, p, reg))
      ensures SameLinks(old(a).code, [], old(code), code)
    {
      ghost var c0 := code;
      code := code[p := Op(Not(reg, code[p].i.b))];
      ListKeeps(a.code, [], c0, code, jpc, a.jpc);
      a := a.(code := Relocate(a.code, p, reg));
    }

    /** The instruction that puts a descriptor's value in reg. */
    method LoadInto(d: ExpDesc, reg: int, ghost e: Exp, ghost base: nat)
      requires Valid() && Good(a, e, base) && d.k == e.k && !e.k.VLocal?
      modifies this
      ensures Valid() && a == Discharge2Reg(old(a), e, reg, ord).0
      ensures SameLinks(old(a).code, old(a).jpc, old(code), code)
    {
      hide Emit, CodeK, LuaNil, Patch, Bounded, SameLinks, RepCode;
      SameSame(a.code, a.jpc, code);
      match d.k {
        case VNil => CodeNil(reg, 1);
        case VFalse => Code(LoadBool(reg, false, false));
        case VTrue => Code(LoadBool(reg, true, false));
        case VK(i) => CodeConstant(reg, i);
        case VKNum(n) =>
          AddKOk(a, e, base, Num(n), ord);
          var i := AddConstant(Num(n));
          CodeConstant(reg, i);
        case VReloc(p) =>
          ghost var a0, c0 := a, code;
          SetDestination(p, reg);
          SameMore(a0.code, a0.jpc, c0, code);
        case VNonReloc(x) =>
          if x != reg { Code(Move(reg, x)); }
        case _ =>
      }
    }

    /** discharge2reg. */
    method DischargeToReg(d0: ExpDesc, reg: int, ghost e0: Exp, ghost base: nat) returns (d: ExpDesc)
      requires Valid() && Good(a, e0, base) && Writable(a, reg) && RepExp(code, d0, e0)
      modifies this
      ensures Valid() && a == Discharge2Reg(old(a), e0, reg, ord).0
      ensures RepExp(code, d, Discharge2Reg(old(a), e0, reg, ord).1)
      ensures LinksBelow(old(a), base, old(code), code)
    {
      ghost var a0, c0 := a, code;
      d := if d0.k.VLocal? then d0.(k := VNonReloc(d0.k.r)) else d0;
      VarsOk(a, e0, base);
      hide Emit, CodeK, LuaNil, Patch, Bounded, RepCode;
      LoadInto(d, reg, DischargeVars(e0), base);
      ListKeeps(a0.code, a0.jpc, c0, code, d.t, e0.t);
      ListKeeps(a0.code, a0.jpc, c0, code, d.f, e0.f);
      if d.k.VJmp? { ListKeeps(a0.code, a0.jpc, c0, code, d.k.p, [d.k.p]); }
      else { d := d.(k := VNonReloc(reg)); }
    }

    /** discharge2anyreg. */
    method DischargeToAnyReg(d0: ExpDesc, ghost e0: Exp, ghost base: nat) returns (d: ExpDesc)
      requires Valid() && Good(a, e0, base) && RepExp(code, d0, e0)
      modifies this
      ensures Valid() && a == Discharge2AnyReg(old(a), e0, ord).0
      ensures RepExp(code, d, Discharge2AnyReg(old(a), e0, ord).1)
      ensures LinksBelow(old(a), base, old(code), code)
    {
      hide Discharge2Reg;
      if d0.k.VNonReloc? { return d0; }
      ReserveRegs(1);
      d := DischargeToReg(d0, freereg - 1, e0, base);
    }

    /** The LOADBOOL pair of exp2reg. */
    method CodePair(reg: int)
      requires Valid() && a.jpc == []
      modifies this
      ensures Valid() && a == PairOf(old(a), reg) && |code| == |old(code)| + 2
      ensures SameLinks(old(a).code, [], old(code), code)
    {
      ghost var a1, c1 := a, code;
      PairShape(a, reg);
      hide Emit, Patch;
      LabelHere();
      Code(LoadBool(reg, false, true));
      ghost var a2, c2 := a, code;
      LabelHere();
      Code(LoadBool(reg, true, false));
      SameTrans(a1.code, c1, a2.code, c2, code);
    }

    /** The LOADBOOL pair of exp2reg, and the jump over it. */
    method CodeLoadBools(isJmp: bool, reg: int, ghost e: Exp) returns (pf: nat, pt: nat)
      requires Valid() && AllPend(a.code, a.jpc) && NoDup(a.jpc) && isJmp == e.k.VJmp? && (isJmp ==> a.jpc == [])
      modifies this
      ensures Valid() && (a, pf, pt) == LoadBools(old(a), e, reg)
      ensures SameLinks(old(a).code, [], old(code), code)
    {
      ghost var a0, c0 := a, code;
      var fj := NO_JUMP;
      ghost var held: seq<nat> := [];
      if !isJmp {
        held := Jump(a).1;
        fj := NewJump();
      }
      ghost var a1, c1 := a, code;
      PairShape(a, reg);
      hide Emit, Patch;
      pf := |code|;
      pt := |code| + 1;
      CodePair(reg);
      SameTrans(a0.code, c0, a1.code, c1, code);
      ListKeeps(a1.code, [], c1, code, fj, held);
      PatchListToHere(fj, held);
    }

    // -------------------------------------------------------------- exp2reg

    /** patchlistaux on a list apart from the jumps to here. */
    method PatchPending(list: int, vtarget: nat, reg: Option<int>, dtarget: nat, ghost xs: seq<nat>)
      requires Valid() && IsList(code, list, xs) && NoDup(xs) && AllPend(a.code, xs)
      requires AllPend(a.code, a.jpc) && Disjoint(a.jpc, xs)
      modifies this
      ensures Valid() && a == old(a).(code := Patch(old(a).code, xs, vtarget, reg, dtarget))
      ensures SameLinks(old(a).code, xs, old(code), code)
    {
      ghost var c0 := code;
      hide Patch;
      PatchListAux(list, vtarget, reg, dtarget, xs);
      ListKeeps(a.code, xs, c0, code, jpc, a.jpc);
      a := a.(code := Patch(a.code, xs, vtarget, reg, dtarget));
    }

    /** The two calls of patchlistaux in exp2reg. */
    method PatchBoth(t: int, f: int, reg: int, pf: nat, pt: nat, ghost xt: seq<nat>, ghost xf: seq<nat>)
      requires Valid() && IsList(code, t, xt) && IsList(code, f, xf) && NoDup(xt) && NoDup(xf)
      requires Closable(a.code, xt, xf, reg, pf, pt) && Bounded(a.code, |a.code|) && AllPend(a.code, a.jpc)
      requires Disjoint(xt, a.jpc) && Disjoint(xf, a.jpc)
      modifies this
      ensures Valid()
      ensures var final := |old(a).code|;
        a == GetLabel(old(a)).(code :=
               Patch(Patch(old(a).code, xf, final, Some(reg), pf), xt, final, Some(reg), pt))
      ensures SameLinks(old(a).code, xt + xf, old(code), code)
    {
      LabelHere();
      var final := |code|;
      ghost var a0, c0 := a, code;
      PatchFirst(a.code, xt, xf, reg, pf, pt);
      PatchKeeps(a.code, xf, final, Some(reg), pf);
      hide Patch, RepCode, Bounded, PendingTests, Closable;
      PatchPending(f, final, Some(reg), pf, xf);
      ghost var a1, c1 := a, code;
      ListKeeps(a0.code, xf, c0, c1, t, xt);
      forall p | p in a1.jpc ensures Pend(a1.code, p) { assert SameExit(a0.code, a1.code, p); }
      PatchPending(t, final, Some(reg), pt, xt);
      TwoPatches(a0.code, a1.code, xf, xt, c0, c1, code);
    }

    /** The end of exp2reg. */
    method CloseLists(d: ExpDesc, reg: int, ghost e: Exp, ghost base: nat)
      requires Valid() && CloseGood(a, e, base) && NoDup(e.t) && NoDup(e.f)
      requires d.k.VJmp? == e.k.VJmp? && IsList(code, d.t, e.t) && IsList(code, d.f, e.f)
      modifies this
      ensures Valid() && a == CloseJumps(old(a), e, reg)
      ensures LinksBelow(old(a), base, old(code), code)
    {
      ghost var a0, c0 := a, code;
      JumpHeads(code, d.t, e.t, d.f, e.f);
      if d.t != d.f {
        BeforePatchGood(a, e, base, reg);
        var pf, pt := 0, 0;
        var needT := NeedsValue(d.t, e.t);
        var needF := false;
        if !needT { needF := NeedsValue(d.f, e.f); }
        if needT || needF {
          pf, pt := CodeLoadBools(d.k.VJmp?, reg, e);
        }
        ghost var a1, c1 := a, code;
        assert (a1, pf, pt) == BeforePatch(a0, e, reg);
        assert SameLinks(a0.code, [], c0, c1);
        hide LoadBools, NeedValue, Patch, BeforePatch, RepCode;
        ListKeeps(a0.code, [], c0, c1, d.t, e.t);
        ListKeeps(a0.code, [], c0, c1, d.f, e.f);
        PatchBoth(d.t, d.f, reg, pf, pt, e.t, e.f);
        CloseLinks(a0, a1, e, base, c0, c1, code);
      }
    }

    /** exp2reg. */
    method ExpToReg(d0: ExpDesc, reg: int, ghost e0: Exp, ghost base: nat) returns (d: ExpDesc)
      requires Valid() && Good(a, e0, base) && Writable(a, reg) && RepExp(code, d0, e0)
      modifies this
      ensures Valid() && (a, Exp(d.k, [], [])) == Exp2Reg(old(a), e0, reg, ord)
      ensures d == ExpDesc(VNonReloc(reg), NO_JUMP, NO_JUMP)
      ensures LinksBelow(old(a), base, old(code), code)
    {
      ghost var a0, c0 := a, code;
      Discharge2RegGood(a, e0, base, reg, ord);
      ghost var e1 := Discharge2Reg(a, e0, reg, ord).1;
      d := DischargeToReg(d0, reg, e0, base);
      ghost var a1, c1 := a, code;
      WithJmpGood(a1, e1, base);
      Discharge2RegStep(a0, e0, base, a1, e1, reg, ord);
      hide Discharge2Reg, CloseJumps, Good, RepCode;
      if d.k.VJmp? {
        AppendOwn(a1, e1, base);
        var t := Concat(d.t, d.k.p, e1.t, [d.k.p]);
        d := d.(t := t);
        ListKeeps(a1.code, e1.t, c1, code, d.f, e1.f);
        ListKeeps(a1.code, e1.t, c1, code, jpc, a.jpc);
      }
      ghost var e, c2 := WithJmp(e1), code;
      OwnLinks(a1, e1, base, c1, c2);
      WithJmpNoDup(a1, e1, base);
      CloseLists(d, reg, e, base);
      LinksTrans(a0, base, a1, c0, c1, c2);
      LinksTrans(a0, base, a1, c0, c2, code);
      d := ExpDesc(VNonReloc(reg), NO_JUMP, NO_JUMP);
    }

    function Vars(d: ExpDesc): ExpDesc { if d.k.VLocal? then d.(k := VNonReloc(d.k.r)) else d }

    /** luaK_exp2nextreg. */
    method ExpToNextReg(d0: ExpDesc, ghost e0: Exp, ghost base: nat) returns (d: ExpDesc)
      requires Valid() && Good(a, e0, base) && RepExp(code, d0, e0)
      modifies this
      ensures Valid() && a == Exp2NextReg(old(a), e0, ord).0
      ensures RepExp(code, d, Exp2NextReg(old(a), e0, ord).1) && d.k.VNonReloc?
      ensures LinksBelow(old(a), base, old(code), code)
    {
      hide Exp2Reg;
      ghost var e := DischargeVars(e0);
      VarsOk(a, e0, base);
      ReadyForNextGood(a, e, base);
      FreeExpReg(Vars(d0), e);
      ReserveRegs(1);
      d := ExpToReg(Vars(d0), freereg - 1, e, base);
    }

    /** luaK_exp2anyreg. */
    method ExpToAnyReg(d0: ExpDesc, ghost e0: Exp, ghost base: nat) returns (d: ExpDesc)
      requires Valid() && Good(a, e0, base) && RepExp(code, d0, e0)
      modifies this
      ensures Valid() && a == Exp2AnyReg(old(a), e0, ord).0
      ensures RepExp(code, d, Exp2AnyReg(old(a), e0, ord).1)
      ensures LinksBelow(old(a), base, old(code), code)
    {
      hide Exp2Reg, Exp2NextReg;
      ghost var e := DischargeVars(e0);
      VarsOk(a, e0, base);
      JumpHeads(code, d0.t, e0.t, d0.f, e0.f);
      d := Vars(d0);
      if d.k.VNonReloc? {
        if d.t == d.f { return; }
        if d.k.r >= nactvar {
          d := ExpToReg(d, d.k.r, e, base);
          return;
        }
      }
      d := ExpToNextReg(d, e, base);
    }

    /** luaK_exp2val. */
    method ExpToVal(d0: ExpDesc, ghost e0: Exp, ghost base: nat) returns (d: ExpDesc)
      requires Valid() && Good(a, e0, base) && RepExp(code, d0, e0)
      modifies this
      ensures Valid() && a == Exp2Val(old(a), e0, ord).0
      ensures RepExp(code, d, Exp2Val(old(a), e0, ord).1)
      ensures LinksBelow(old(a), base, old(code), code)
    {
      hide Exp2AnyReg;
      JumpHeads(code, d0.t, e0.t, d0.f, e0.f);
      if d0.t != d0.f { d := ExpToAnyReg(d0, e0, base); }
      else { d := Vars(d0); }
    }

    /** The part of luaK_exp2RK that turns constants into operands. */
    method ConstantOperand(d0: ExpDesc, ghost e0: Exp) returns (d: ExpDesc)
      requires Valid() && RepExp(code, d0, e0)
      modifies this
      ensures Valid() && a == ToConstant(old(a), e0, ord).0 && code == old(code)
      ensures RepExp(code, d, ToConstant(old(a), e0, ord).1)
    {
      d := d0;
      match d0.k {
        case VNil | VTrue | VFalse =>
          if |k| <= MAXINDEXRK {
            var i := AddConstant(if d0.k == VNil then Nil else Bool(d0.k == VTrue));
            d := d0.(k := VK(i));
          }
        case VKNum(n) =>
          var i := AddConstant(Num(n));
          d := d0.(k := VK(i));
        case _ =>
      }
    }

    /** luaK_exp2RK. */
    method ExpToRK(d0: ExpDesc, ghost e0: Exp, ghost base: nat) returns (d: ExpDesc, rk: RK)
      requires Valid() && Good(a, e0, base) && RepExp(code, d0, e0)
      modifies this
      ensures Valid() && a == Exp2RK(old(a), e0, ord).0 && rk == Exp2RK(old(a), e0, ord).2
      ensures RepExp(code, d, Exp2RK(old(a), e0, ord).1)
      ensures LinksBelow(old(a), base, old(code), code)
    {
      ghost var a0, c0 := a, code;
      ghost var e1 := Exp2Val(a, e0, ord).1;
      Exp2ValGood(a, e0, base, ord);
      hide Exp2AnyReg, Exp2Val;
      d := ExpToVal(d0, e0, base);
      ghost var a1, c1 := a, code;
      ghost var e2 := ToConstant(a, e1, ord).1;
      ToConstantGood(a, e1, base, ord);
      d := ConstantOperand(d, e1);
      ghost var a2 := a;
      if d.k.VK? && d.k.i <= MAXINDEXRK {
        rk := K(d.k.i);
      } else {
        d := ExpToAnyReg(d, e2, base);
        rk := AsRK(d.k);
        LinksTrans(a0, base, a1, c0, c1, code);
      }
    }

    // ---------------------------------------------------------- and, or, not

    /** "remove previous OP_NOT": the last instruction is dropped. */
    method Uncode()
      requires Valid() && a.code != [] && a.code[|a.code| - 1].Not? && a.jpc == []
      modifies this
      ensures Valid() && a == DropLast(old(a)) && SameLinks(old(a).code, [], old(code), code)
    {
      code := code[..|code| - 1];
      a := DropLast(a);
    }

    /** jumponcond on a NOT. */
    method JumpIfNot(d: ExpDesc, cond: bool, ghost e: Exp, ghost base: nat) returns (j: int)
      requires Valid() && Good(a, e, base) && RepExp(code, d, e) && e.k.VReloc?
      modifies this
      ensures Valid() && a == JumpOnCond(old(a), e, cond, ord).0
      ensures IsList(code, j, JumpOnCond(old(a), e, cond, ord).1)
      ensures RepLists(code, d, e) && LinksBelow(old(a), base, old(code), code)
    {
      ghost var a0, c0 := a, code;
      DropLastOk(a, e, base);
      var b := code[d.k.p].i.b;
      hide CondJump, Good, SameLinks, RepCode, Bounded;
      Uncode();
      ghost var a1, c1 := a, code;
      j := CodeTest(Test(b, !cond));
      LinksThen(a0, base, a1, e, [], c0, c1, code, d);
    }

    /** jumponcond on a value in a register. */
    method JumpIfReg(d: ExpDesc, cond: bool, ghost e: Exp, ghost base: nat) returns (j: int)
      requires Valid() && Good(a, e, base) && RepExp(code, d, e) && e.k.VNonReloc?
      modifies this
      ensures Valid() && a == CondJump(FreeExp(old(a), e), TestSet(None, e.k.r, cond)).0
      ensures IsList(code, j, CondJump(FreeExp(old(a), e), TestSet(None, e.k.r, cond)).1)
      ensures SameLinks(old(a).code, old(a).jpc, old(code), code)
    {
      hide CondJump;
      FreeExpReg(d, e);
      j := CodeTest(TestSet(None, d.k.r, cond));
    }

    /** jumponcond. */
    method JumpIf(d: ExpDesc, cond: bool, ghost e: Exp, ghost base: nat) returns (j: int)
      requires Valid() && Good(a, e, base) && RepExp(code, d, e) && !e.k.VJmp? && !e.k.VLocal?
      modifies this
      ensures Valid() && a == JumpOnCond(old(a), e, cond, ord).0
      ensures IsList(code, j, JumpOnCond(old(a), e, cond, ord).1)
      ensures RepLists(code, d, e) && LinksBelow(old(a), base, old(code), code)
    {
      if d.k.VReloc? {
        j := JumpIfNot(d, cond, e, base);
        return;
      }
      ghost var a0, c0 := a, code;
      ghost var e1 := Discharge2AnyReg(a, e, ord).1;
      AnyRegStep(a, e, base, ord);
      hide Discharge2AnyReg, CondJump, Good, SameLinks, RepCode;
      var d1 := DischargeToAnyReg(d, e, base);
      ghost var a1, c1 := a, code;
      j := JumpIfReg(d1, cond, e1, base);
      LinksThen2(a0, base, a1, e1, c0, c1, code, d1);
    }

    /** invertjump on a descriptor: its lists stay. */
    method InvertOwn(d: ExpDesc, p: nat, ghost e: Exp, ghost base: nat)
      requires Valid() && Good(a, e, base) && RepExp(code, d, e) && e.k == VJmp(p)
      modifies this
      ensures Valid() && a == InvertJump(old(a), p) && RepExp(code, d, e)
      ensures BranchGood(old(a), e, base, a, [p]) && LinksBelow(old(a), base, old(code), code)
    {
      ghost var a0, c0 := a, code;
      InvertOk(a, e, base);
      Invert(p);
      ListKeeps(a0.code, [], c0, code, p, [p]);
      ListKeeps(a0.code, [], c0, code, d.t, e.t);
      ListKeeps(a0.code, [], c0, code, d.f, e.f);
    }

    /** The jump of goiftrue (`truth`) or goiffalse. */
    method Branch(d: ExpDesc, truth: bool, ghost e: Exp, ghost base: nat) returns (pc: int, ghost list: seq<nat>)
      requires Valid() && Good(a, e, base) && RepExp(code, d, e) && !e.k.VLocal?
      modifies this
      ensures Valid() && (a, list) == if truth then JumpIfFalse(old(a), e, ord) else JumpIfTrue(old(a), e, ord)
      ensures BranchGood(old(a), e, base, a, list) && IsList(code, pc, list)
      ensures RepLists(code, d, e) && LinksBelow(old(a), base, old(code), code)
    {
      NoBranch(a, e, base);
      pc, list := NO_JUMP, [];
      hide JumpOnCond, Good, RepCode, BranchGood;
      match d.k {
        case VJmp(p) =>
          if truth { InvertOwn(d, p, e, base); }
          return p, [p];
        case VK(_) | VKNum(_) | VTrue =>
          if truth { return; }
        case VNil | VFalse =>
          if !truth { return; }
        case _ =>
      }
      JumpOnCondOk(a, e, base, !truth, ord);
      list := JumpOnCond(a, e, !truth, ord).1;
      pc := JumpIf(d, !truth, e, base);
    }

    /** luaK_goiftrue. */
    method GoTrue(d0: ExpDesc, ghost e0: Exp, ghost base: nat) returns (d: ExpDesc)
      requires Valid() && Good(a, e0, base) && RepExp(code, d0, e0)
      modifies this
      ensures Valid() && a == GoIfTrue(old(a), e0, ord).0
      ensures RepLists(code, d, GoIfTrue(old(a), e0, ord).1)
      ensures LinksBelow(old(a), base, old(code), code)
    {
      ghost var a0, c0, e := a, code, DischargeVars(e0);
      VarsOk(a, e0, base);
      hide JumpIfFalse, Good, BranchGood, RepCode;
      var pc; ghost var list;
      pc, list := Branch(Vars(d0), true, e, base);
      ghost var a1, c1 := a, code;
      d := FinishBranch(Vars(d0), pc, true, e, base, a0, list);
      LinksTrans2(a0, base, a1, e, list, c0, c1, code);
    }

    /** luaK_goiffalse. */
    method GoFalse(d0: ExpDesc, ghost e0: Exp, ghost base: nat) returns (d: ExpDesc)
      requires Valid() && Good(a, e0, base) && RepExp(code, d0, e0)
      modifies this
      ensures Valid() && a == GoIfFalse(old(a), e0, ord).0
      ensures RepLists(code, d, GoIfFalse(old(a), e0, ord).1)
      ensures LinksBelow(old(a), base, old(code), code)
    {
      ghost var a0, c0, e := a, code, DischargeVars(e0);
      VarsOk(a, e0, base);
      hide JumpIfTrue, Good, BranchGood, RepCode;
      var pc; ghost var list;
      pc, list := Branch(Vars(d0), false, e, base);
      ghost var a1, c1 := a, code;
      d := FinishBranch(Vars(d0), pc, false, e, base, a0, list);
      LinksTrans2(a0, base, a1, e, list, c0, c1, code);
    }

    /** The end of goiftrue and goiffalse: the new jump joins the list of the
        jumps that leave, and the other list is patched to here. */
    method FinishBranch(d0: ExpDesc, pc: int, truth: bool, ghost e: Exp, ghost base: nat, ghost s: FS, ghost list: seq<nat>)
      returns (d: ExpDesc)
      requires Valid() && Good(s, e, base) && BranchGood(s, e, base, a, list)
      requires RepLists(code, d0, e) && IsList(code, pc, list)
      modifies this
      ensures Valid() && a == PatchToHere(old(a), if truth then e.t else e.f)
      ensures RepLists(code, d, if truth then e.(f := e.f + list, t := []) else e.(t := e.t + list, f := []))
      ensures forall p: nat | Pend(old(a).code, p) && p < base && p !in s.jpc && p < |old(code)| ::
                p < |code| && code[p] == old(code)[p]
    {
      ghost var a1, c1 := a, code;
      ghost var stay, go := if truth then e.f else e.t, if truth then e.t else e.f;
      BranchLists(s, e, base, a, list, stay, go);
      hide Good, BranchGood, RepCode;
      var l := Concat(if truth then d0.f else d0.t, pc, stay, list);
      ghost var c2 := code;
      var rest := if truth then d0.t else d0.f;
      ListKeeps(a1.code, stay, c1, c2, rest, go);
      ListKeeps(a1.code, stay, c1, c2, jpc, a.jpc);
      PatchListToHere(rest, go);
      ListKeeps(a1.code, a1.jpc, c2, code, l, stay + list);
      d := if truth then d0.(f := l, t := NO_JUMP) else d0.(t := l, f := NO_JUMP);
    }

    /** The NOT of codenot, on a value in any register. */
    method EmitNot(d: ExpDesc, ghost e: Exp, ghost base: nat) returns (d': ExpDesc)
      requires Valid() && Good(a, e, base) && RepExp(code, d, e) && (e.k.VReloc? || e.k.VNonReloc?)
      modifies this
      ensures Valid() && a == NotOf(old(a), e, ord).0 && RepLists(code, d', NotOf(old(a), e, ord).1)
      ensures LinksBelow(old(a), base, old(code), code)
    {
      ghost var a0, c0 := a, code;
      ghost var e1 := Discharge2AnyReg(a, e, ord).1;
      AnyRegStep(a, e, base, ord);
      hide Discharge2AnyReg, Emit, Good, SameLinks, RepCode;
      var d1 := DischargeToAnyReg(d, e, base);
      ghost var a1, c1 := a, code;
      GoodParts(a1, e1, base);
      FreeExpReg(d1, e1);
      Code(Not(0, d1.k.r));
      LinksThen2(a0, base, a1, e1, c0, c1, code, d1);
      d' := d1.(k := VReloc(|code| - 1));
    }

    /** The end of codenot: the lists are exchanged and give up their values. */
    method SwapLists(d: ExpDesc, ghost e: Exp) returns (d': ExpDesc)
      requires Valid() && RepLists(code, d, e) && AllPend(a.code, e.t) && AllPend(a.code, e.f)
      requires AllPend(a.code, a.jpc)
      modifies this
      ensures Valid() && a == Strip(old(a), e) && RepLists(code, d', Exp(e.k, e.f, e.t))
      ensures SameLinks(old(a).code, [], old(code), code)
    {
      ghost var a0, c0 := a, code;
      StripOnce(a.code, e.t);
      hide RemoveValues;
      StripList(d.t, e.t);
      ghost var a1, c1 := a, code;
      assert forall p: nat | Pend(a0.code, p) :: Pend(a1.code, p);
      ListKeeps(a0.code, [], c0, c1, d.f, e.f);
      StripList(d.f, e.f);
      forall p: nat | Pend(a0.code, p) && p < |c0| ensures p < |code| && code[p] == c0[p] { assert Pend(a1.code, p); }
      ListKeeps(a0.code, [], c0, code, d.t, e.t);
      ListKeeps(a0.code, [], c0, code, d.f, e.f);
      d' := d.(t := d.f, f := d.t);
    }

    /** codenot. */
    method NegateExp(d0: ExpDesc, ghost e0: Exp, ghost base: nat) returns (d: ExpDesc)
      requires Valid() && Good(a, e0, base) && RepExp(code, d0, e0)
      modifies this
      ensures Valid() && a == CodeNot(old(a), e0, ord).0
      ensures RepExp(code, d, CodeNot(old(a), e0, ord).1)
      ensures LinksBelow(old(a), base, old(code), code)
    {
      ghost var a0, c0, e := a, code, DischargeVars(e0);
      VarsOk(a, e0, base);
      d := Vars(d0);
      ghost var e1 := e;
      match d.k {
        case VNil | VFalse => d := d.(k := VTrue); e1 := e.(k := VTrue);
        case VK(_) | VKNum(_) | VTrue => d := d.(k := VFalse); e1 := e.(k := VFalse);
        case VJmp(p) =>
          InvertOk(a, e, base);
          InvertOwn(d, p, e, base);
        case VReloc(_) | VNonReloc(_) =>
          NotGood(a, e, base, ord);
          e1 := NotOf(a, e, ord).1;
          d := EmitNot(d, e, base);
        case VLocal(_) =>
          assert false;
      }
      ghost var a1, c1 := a, code;
      NotState(a0, e, base, ord, a1, e1);
      hide Good, CodeNot, RepCode, Strip, NotOf;
      d := SwapLists(d, e1);
      NotShape(a0, e0, base, ord, a1, e1);
      if d.k.VJmp? { ListKeeps(a1.code, [], c1, code, d.k.p, [d.k.p]); }
      LinksSame(a0, base, a1, c0, c1, code);
    }

    // ----------------------------------------------------- binary operators

    /** The end of codecomp: the operands' registers are freed, and the
        comparison and its jump are coded. */
    method EmitCompare(op: BinOp, d1: ExpDesc, d2: ExpDesc, o2: RK, ghost e1: Exp, ghost x2: Exp) returns (d: ExpDesc)
      requires Valid() && Inv(a) && NoDup(a.jpc) && d1.k == e1.k && d2.k == x2.k
      requires Inv(FreeExp(FreeExp(a, x2), e1))
      modifies this
      ensures Valid()
      ensures var i := CmpInstr(op, AsRK(e1.k), o2);
        a == CondJump(FreeExp(FreeExp(old(a), x2), e1), i).0
      ensures d == ExpDesc(VJmp(|code| - 1), NO_JUMP, NO_JUMP) && |code| > 0 && IsList(code, |code| - 1, [|code| - 1])
      ensures SameLinks(old(a).code, old(a).jpc, old(code), code)
    {
      FreeExpReg(d2, x2);
      FreeExpReg(d1, e1);
      IsCmp(op, AsRK(d1.k), o2);
      JumpAlone(a, CmpInstr(op, AsRK(d1.k), o2));
      hide CondJump, CmpInstr;
      var j := CodeTest(CmpInstr(op, AsRK(d1.k), o2));
      d := ExpDesc(VJmp(|code| - 1), NO_JUMP, NO_JUMP);
    }

    /** codecomp. */
    method CompareExp(op: BinOp, d1: ExpDesc, d2: ExpDesc, ghost e1: Exp, ghost e2: Exp, ghost base: nat)
      returns (d: ExpDesc)
      requires Valid() && IsCompare(op) && Good(a, e2, base) && RepExp(code, d2, e2) && d1.k == e1.k
      requires e1.t == [] && e1.f == [] && (e1.k.VNonReloc? || (e1.k.VK? && e1.k.i <= MAXINDEXRK))
      requires e1.k.VNonReloc? && e1.k.r >= nactvar ==> nactvar < FreeExp(a, e2).freereg
      modifies this
      ensures Valid() && a == Posfix(old(a), op, e1, e2, ord).0
      ensures RepExp(code, d, Posfix(old(a), op, e1, e2, ord).1)
      ensures LinksBelow(old(a), base, old(code), code)
    {
      ghost var a0, c0 := a, code;
      PosfixCompare(a, op, e1, e2, ord);
      ghost var x2 := Exp2RK(a, e2, ord).1;
      OperandsFreed(a, e2, base, e1, ord);
      hide Posfix, Exp2RK, CondJump, CmpInstr, Good, RepCode;
      var d3, o2 := ExpToRK(d2, e2, base);
      ghost var a1, c1 := a, code;
      d := EmitCompare(op, d1, d3, o2, e1, x2);
      LinksTrans(a0, base, a1, c0, c1, code);
    }

    /** luaK_infix. */
    method BeforeOperand(op: BinOp, d0: ExpDesc, ghost e0: Exp, ghost base: nat) returns (d: ExpDesc)
      requires Valid() && Good(a, e0, base) && RepExp(code, d0, e0)
      modifies this
      ensures Valid() && a == Infix(old(a), op, e0, ord).0
      ensures RepLists(code, d, Infix(old(a), op, e0, ord).1)
      ensures LinksBelow(old(a), base, old(code), code)
    {
      hide GoIfTrue, GoIfFalse, Exp2RK;
      match op {
        case And => d := GoTrue(d0, e0, base);
        case Or => d := GoFalse(d0, e0, base);
        case _ =>
          var rk;
          d, rk := ExpToRK(d0, e0, base);
      }
    }

    /** luaK_posfix. */
    method AfterOperand(op: BinOp, d1: ExpDesc, d2: ExpDesc, ghost e1: Exp, ghost e2: Exp, ghost base: nat)
      returns (d: ExpDesc)
      requires Valid() && Good(a, e2, base) && RepExp(code, d2, e2) && RepLists(code, d1, e1)
      requires op == And ==> Disjoint(e2.f, e1.f)
      requires op == Or ==> Disjoint(e2.t, e1.t)
      requires IsCompare(op) ==> e1.t == [] && e1.f == [] && (e1.k.VNonReloc? || (e1.k.VK? && e1.k.i <= MAXINDEXRK))
      requires IsCompare(op) && e1.k.VNonReloc? && e1.k.r >= nactvar ==> nactvar < FreeExp(a, e2).freereg
      modifies this
      ensures Valid() && a == Posfix(old(a), op, e1, e2, ord).0
      ensures RepExp(code, d, Posfix(old(a), op, e1, e2, ord).1)
      ensures LinksBelow(old(a), base, old(code), code)
    {
      if IsCompare(op) {
        d := CompareExp(op, d1, d2, e1, e2, base);
        return;
      }
      ghost var a0, c0 := a, code;
      GoodParts(a, e2, base);
      d := Vars(d2);
      if op == And {
        JoinList(a, e2, base, e2.f, e2.t);
        var l := Concat(d2.f, d1.f, e2.f, e1.f);
        ListKeeps(a.code, e2.f, c0, code, d2.t, e2.t);
        ListKeeps(a.code, e2.f, c0, code, jpc, a.jpc);
        if d2.k.VJmp? { ListKeeps(a.code, e2.f, c0, code, d2.k.p, [d2.k.p]); }
        d := d.(f := l);
      } else {
        JoinList(a, e2, base, e2.t, e2.f);
        var l := Concat(d2.t, d1.t, e2.t, e1.t);
        ListKeeps(a.code, e2.t, c0, code, d2.f, e2.f);
        ListKeeps(a.code, e2.t, c0, code, jpc, a.jpc);
        if d2.k.VJmp? { ListKeeps(a.code, e2.t, c0, code, d2.k.p, [d2.k.p]); }
        d := d.(t := l);
      }
    }

    /** subexpr and simpleexp: the code of an expression. */
    method SubExpression(e: Expr) returns (d: ExpDesc)
      requires Valid() && Inv(a) && NoDup(a.jpc) && LocalsBelow(e, nactvar)
      modifies this
      ensures Valid() && a == SubExpr(old(a), e, ord).0
      ensures RepExp(code, d, SubExpr(old(a), e, ord).1)
      ensures LinksBelow(old(a), |old(code)|, old(code), code)
      decreases e, 1
    {
      ghost var a0, c0, base := a, code, |code|;
      SubExprGood(a, e, ord);
      match e {
        case ENil => d := ExpDesc(VNil, NO_JUMP, NO_JUMP);
        case ETrue => d := ExpDesc(VTrue, NO_JUMP, NO_JUMP);
        case EFalse => d := ExpDesc(VFalse, NO_JUMP, NO_JUMP);
        case ENum(n) => d := ExpDesc(VKNum(n), NO_JUMP, NO_JUMP);
        case EStr(x) =>
          var i := AddConstant(Str(x));
          d := ExpDesc(VK(i), NO_JUMP, NO_JUMP);
        case ELocal(x) => d := ExpDesc(VLocal(x), NO_JUMP, NO_JUMP);
        case EParen(e1) =>
          d := SubExpression(e1);
          d := Vars(d);
        case ENot(e1) =>
          SubExprGood(a, e1, ord);
          ghost var x1 := SubExpr(a, e1, ord).1;
          hide CodeNot, Good, RepCode;
          d := SubExpression(e1);
          ghost var a1, c1 := a, code;
          d := NegateExp(d, x1, base);
          LinksTrans(a0, base, a1, c0, c1, code);
        case EBin(op, l, r) => d := BinExpression(op, l, r);
      }
    }

    /** The first operand of a binary operator. */
    method FirstOperand(op: BinOp, l: Expr) returns (d: ExpDesc)
      requires Valid() && Inv(a) && NoDup(a.jpc) && LocalsBelow(l, nactvar)
      modifies this
      ensures Valid()
      ensures var (s1, xl) := SubExpr(old(a), l, ord);
        var (s2, xl') := Infix(s1, op, xl, ord);
        a == s2 && RepLists(code, d, xl')
      ensures LinksBelow(old(a), |old(code)|, old(code), code)
      decreases l, 2
    {
      ghost var a0, c0, base := a, code, |code|;
      SubExprGood(a, l, ord);
      ghost var xl := SubExpr(a, l, ord).1;
      hide Infix, Good, RepCode, SubExpr;
      d := SubExpression(l);
      ghost var a1, c1 := a, code;
      d := BeforeOperand(op, d, xl, base);
      LinksTrans(a0, base, a1, c0, c1, code);
    }

    method BinExpression(op: BinOp, l: Expr, r: Expr) returns (d: ExpDesc)
      requires Valid() && Inv(a) && NoDup(a.jpc) && LocalsBelow(l, nactvar) && LocalsBelow(r, nactvar)
      modifies this
      ensures Valid() && a == SubExpr(old(a), EBin(op, l, r), ord).0
      ensures RepExp(code, d, SubExpr(old(a), EBin(op, l, r), ord).1)
      ensures LinksBelow(old(a), |old(code)|, old(code), code)
      decreases EBin(op, l, r), 0
    {
      hide Infix, Posfix, Good, SubExpr, Step, Compiled, OpenGood, Operand, Inv, IsList, LinksBelow;
      ghost var a0, c0, base := a, code, |code|;
      BinParts(a, op, l, r, ord);
      ghost var (a1, xl) := SubExpr(a, l, ord);
      ghost var (a2, xl') := Infix(a1, op, xl, ord);
      ghost var (a3, xr) := SubExpr(a2, r, ord);
      var dl := FirstOperand(op, l);
      ghost var c2 := code;
      var dr := SubExpression(r);
      ghost var c3 := code;
      OperandLists(a1, op, xl, base, a2, xl', a3, xr, c2, c3, dl);
      d := AfterOperand(op, dl, dr, xl', xr, |c2|);
      BinLinks(a0, base, a2, a3, c0, c2, c3, code);
    }

    // ------------------------------------------------------------ statements

    /** `local x = e`: the value goes to the next register, now a local. */
    method DeclareLocal(e: Expr)
      requires Valid() && Ready(a) && freereg == nactvar && LocalsBelow(e, nactvar)
      modifies this
      ensures Valid() && a == CompileStmt(old(a), Local(e), ord)
      ensures LinksKept(old(a), [], old(code), code)
    {
      SubExprGood(a, e, ord);
      ghost var a0, c0, base, x := a, code, |code|, SubExpr(a, e, ord).1;
      hide SubExpr, Exp2NextReg, RepCode, Good, Step;
      var d := SubExpression(e);
      ghost var a1, c1 := a, code;
      d := ExpToNextReg(d, x, base);
      LinksTrans(a0, base, a1, c0, c1, code);
      nactvar := nactvar + 1;
      a := a.(nactvar := a.nactvar + 1);
    }

    /** `x = e` for a local x. */
    method AssignTo(r: nat, e: Expr)
      requires Valid() && Ready(a) && freereg == nactvar && LocalsBelow(e, nactvar) && r < nactvar
      modifies this
      ensures Valid() && a == CompileStmt(old(a), Assign(r, e), ord)
      ensures LinksKept(old(a), [], old(code), code)
    {
      SubExprGood(a, e, ord);
      ghost var a0, c0, base, x := a, code, |code|, SubExpr(a, e, ord).1;
      ghost var s1 := SubExpr(a, e, ord).0;
      assert FreeExp(s1, x) == s1;
      hide SubExpr, Exp2Reg, RepCode, Good, Step;
      var d := SubExpression(e);
      ghost var a1, c1 := a, code;
      FreeExpReg(d, x);
      d := ExpToReg(d, r, x, base);
      LinksTrans(a0, base, a1, c0, c1, code);
    }

    /** The condition of an `if`; the result is its list of false exits. */
    method TestCondition(c: Expr) returns (jf: int)
      requires Valid() && Ready(a) && LocalsBelow(c, nactvar)
      modifies this
      ensures Valid() && a == TestOf(old(a), c, ord).0 && IsList(code, jf, TestOf(old(a), c, ord).1)
      ensures LinksKept(old(a), [], old(code), code)
    {
      SubExprGood(a, c, ord);
      ghost var a0, c0, base, x := a, code, |code|, SubExpr(a, c, ord).1;
      hide SubExpr, GoIfTrue, RepCode, Good, Step;
      var d := SubExpression(c);
      ghost var a1, c1 := a, code;
      d := GoTrue(d, x, base);
      LinksTrans(a0, base, a1, c0, c1, code);
      jf := d.f;
    }

    /** leaveblock. */
    method LeaveBlock(n: nat)
      requires Valid()
      modifies this`nactvar, this`freereg, this`a
      ensures Valid() && a == Leave(old(a), n)
    {
      nactvar := n;
      freereg := nactvar;
      a := Leave(a, n);
    }

    /** The jump to the end of the `if`, when more of it follows. */
    method JumpOver(rest: Arms, escape: int, ghost xs: seq<nat>) returns (escape': int)
      requires Valid() && Ready(a) && Held(a, xs) && IsList(code, escape, xs)
      modifies this
      ensures Valid() && a == EscapeJump(old(a), rest, xs).0 && IsList(code, escape', EscapeJump(old(a), rest, xs).1)
      ensures SameLinks(old(a).code, xs, old(code), code)
    {
      if rest.End? { return escape; }
      ghost var a0, c0, ys := a, code, Jump(a).1;
      JumpGood(a, xs);
      forall p | p in xs ensures p < |code| && p !in ys { assert Pend(a.code, p); }
      hide RepCode;
      var j := NewJump();
      ghost var c1 := code;
      ListKeeps(a0.code, [], c0, c1, escape, xs);
      ListEmpty(c1, jpc, []);
      escape' := Concat(escape, j, xs, ys);
      assert SameLinks(a.code, xs, c1, code);
      forall p: nat | Pend(a0.code, p) && p !in xs && p < |c0| ensures p < |code| && code[p] == c0[p] {
        assert Pend(a.code, p);
      }
    }

    /** test_then_block: one condition with its block. */
    method TestThenBlock(arm: Arms, escape: int, ghost xs: seq<nat>) returns (escape': int)
      requires Valid() && Ready(a) && freereg == nactvar >= 0 && arm.Arm? && ArmsOk(arm, nactvar)
      requires Held(a, xs) && IsList(code, escape, xs)
      modifies this
      ensures Valid() && var (s', ys) := CompileArm(old(a), arm, xs, ord); a == s' && IsList(code, escape', ys)
      ensures LinksKept(old(a), xs, old(code), code)
      decreases arm, 0
    {
      var n := nactvar;
      ghost var a0, c0 := a, code;
      ArmGood(a, arm.c, arm.body, arm.rest, xs, ord);
      ghost var (a1, xf) := TestOf(a, arm.c, ord);
      ghost var a2 := Leave(CompileBlock(a1, arm.body, ord), nactvar);
      ghost var (a3, ys) := EscapeJump(a2, arm.rest, xs);
      hide TestOf, CompileBlock, EscapeJump, Ready, RepCode, IsList, SameLinks;
      var jf := TestCondition(arm.c);
      ListHeld(a0, c0, code, escape, xs);
      ghost var c1 := code;
      Block(arm.body);
      LeaveBlock(n);
      ghost var c2 := code;
      ListHeld(a1, c1, c2, escape, xs);
      ListHeld(a1, c1, c2, jf, xf);
      escape' := JumpOver(arm.rest, escape, xs);
      ghost var c3 := code;
      ListKeeps(a2.code, xs, c2, c3, jf, xf);
      PatchListToHere(jf, xf);
      ListKeeps(a3.code, a3.jpc, c3, code, escape', ys);
      ArmLinks(a0, a1, a2, a3, xs, c0, c1, c2, c3, code);
    }

    /** ifstat: the finished arms jump to the end, which is patched last. */
    method IfStat(arms: Arms)
      requires Valid() && Ready(a) && freereg == nactvar >= 0 && arms.Arm? && ArmsOk(arms, nactvar)
      modifies this
      ensures Valid() && a == CompileArms(old(a), arms, [], ord)
      ensures LinksKept(old(a), [], old(code), code)
      decreases arms, 1
    {
      var escape, rest, n := NO_JUMP, arms, nactvar;
      ghost var xs: seq<nat> := [];
      while rest.Arm?
        invariant Valid() && Ready(a) && freereg == nactvar == n && ArmsOk(rest, n)
        invariant Held(a, xs) && IsList(code, escape, xs) && (rest == arms || rest < arms)
        invariant CompileArms(a, rest, xs, ord) == CompileArms(old(a), arms, [], ord)
        invariant Grown(old(a), [], a) && LinksKept(old(a), [], old(code), code)
        invariant forall p | p in xs :: p >= |old(a).code| || p in old(a).jpc
        decreases rest
      {
        hide Ready, RepCode, IsList, LinksKept, CompileArm, Held, Grown;
        ghost var a1, c1, list := a, code, xs;
        ArmStep(a, rest, xs, ord);
        escape := TestThenBlock(rest, escape, xs);
        xs := CompileArm(a1, rest, xs, ord).1;
        GrownTrans(old(a), [], a1, list, a);
        KeptTrans(old(a), a1, list, old(code), c1, code);
        rest := rest.rest;
      }
      ghost var a2, c2 := a, code;
      EndIf(rest, escape, xs);
      KeptTrans(old(a), a2, xs, old(code), c2, code);
    }

    /** The `else` block, if any, and the end. */
    method EndIf(last: Arms, escape: int, ghost xs: seq<nat>)
      requires Valid() && Ready(a) && freereg == nactvar >= 0 && !last.Arm? && ArmsOk(last, nactvar)
      requires Held(a, xs) && IsList(code, escape, xs)
      modifies this
      ensures Valid() && a == CompileArms(old(a), last, xs, ord)
      ensures LinksKept(old(a), xs, old(code), code)
      decreases last
    {
      ghost var a0, c0 := a, code;
      assert |c0| == |a0.code|;
      hide IsList, RepCode;
      if last.Else? {
        var n := nactvar;
        BlockGood(a, last.last, ord);
        LeaveGood(a, CompileBlock(a, last.last, ord));
        Block(last.last);
        LeaveBlock(n);
        HeldStays(a0, a, xs);
        ListHeld(a0, c0, code, escape, xs);
      }
      ghost var a1, c1 := a, code;
      PatchListToHere(escape, xs);
      if last.Else? { KeptTrans(a0, a1, [], c0, c1, code); }
    }

    method Statement(st: Stmt)
      requires Valid() && Ready(a) && freereg == nactvar >= 0 && StmtOk(st, nactvar)
      modifies this
      ensures Valid() && a == CompileStmt(old(a), st, ord)
      ensures LinksKept(old(a), [], old(code), code)
      decreases st
    {
      match st {
        case Local(e) => DeclareLocal(e);
        case Assign(r, e) => AssignTo(r, e);
        case If(arms) => hide CompileArms; IfStat(arms);
      }
    }

    method Block(b: seq<Stmt>)
      requires Valid() && Ready(a) && freereg == nactvar >= 0 && BlockOk(b, nactvar)
      modifies this
      ensures Valid() && a == CompileBlock(old(a), b, ord) && Ready(a)
      ensures LinksKept(old(a), [], old(code), code)
      decreases b
    {
      var i := 0;
      while i < |b|
        invariant 0 <= i <= |b| && Valid() && Ready(a) && freereg == nactvar >= 0 && BlockOk(b[i..], nactvar)
        invariant CompileBlock(a, b[i..], ord) == CompileBlock(old(a), b, ord)
        invariant Grown(old(a), [], a) && LinksKept(old(a), [], old(code), code)
      {
        hide CompileStmt, Ready, RepCode, IsList;
        assert b[i..][0] == b[i] && b[i..][1..] == b[i + 1..];
        ghost var a1, c1 := a, code;
        StmtGood(a, b[i], ord);
        Statement(b[i]);
        GrownTrans(old(a), [], a1, [], a);
        KeptTrans(old(a), a1, [], old(code), c1, code);
        i := i + 1;
      }
    }
  }

  // ------------------------------------------------- what the words execute

  /** The instruction that the machine sees at position p. */
  function Decode(w: Word, p: nat): Instr {
    match w
    case Op(i) => i
    case JmpTo(sbx) => if p + 1 + sbx >= 0 then Jmp(Dest(p + 1 + sbx)) else Jmp(Pending)
  }

  function DecodeAll(words: seq<Word>): (code: seq<Instr>)
    ensures |code| == |words|
    ensures forall p | 0 <= p < |words| :: code[p] == Decode(words[p], p)
  {
    seq(|words|, p requires 0 <= p < |words| => Decode(words[p], p))
  }

  /** The links left in pending jumps do not matter: a run that never leaves
      through one is a run of the words themselves. */
  lemma {:induction false} RunWords(words: seq<Word>, code: seq<Instr>, k: seq<Value>, ord: Order, pc: nat, r: Regs)
    requires RepCode(words, code)
    requires Run(code, k, ord, pc, r).Fall? || Run(code, k, ord, pc, r).Error?
    ensures Run(DecodeAll(words), k, ord, pc, r) == Run(code, k, ord, pc, r)
    decreases |code| - pc
  {
    var seen := DecodeAll(words);
    if pc < |code| {
      assert Rep(words[pc], code[pc], pc) && seen[pc] == Decode(words[pc], pc);
      if code[pc].Jmp? {
        RunWords(words, code, k, ord, code[pc].to.d, r);
      } else if IsTest(code[pc]) {
        var c := CheckTest(code[pc], k, ord, r);
        if c.Cond? {
          assert Rep(words[pc + 1], code[pc + 1], pc + 1) && seen[pc + 1] == Decode(words[pc + 1], pc + 1);
          if c.taken { RunWords(words, code, k, ord, code[pc + 1].to.d, Taken(code[pc], r)); }
          else { RunWords(words, code, k, ord, pc + 2, r); }
        }
      } else if code[pc].LoadKX? {
        assert Rep(words[pc + 1], code[pc + 1], pc + 1) && seen[pc + 1] == Decode(words[pc + 1], pc + 1);
        RunWords(words, code, k, ord, pc + 2, r[code[pc].a := k[code[pc + 1].ax]]);
      } else {
        var r1 := Effect(code[pc], k, r).value;
        RunWords(words, code, k, ord, if code[pc].LoadBool? && code[pc].skip then pc + 2 else pc + 1, r1);
      }
    }
  }

  /** Running the words does what the block means, from any registers. */
  ghost predicate Executes(words: seq<Word>, k: seq<Value>, locals: int, b: seq<Stmt>, ord: Order, n: nat, start: Regs) {
    var o := Run(DecodeAll(words), k, ord, 0, start);
    match Exec(b, ord, n, start)
    case None => o == Error
    case Some(m) => o.Fall? && Agree(m, o.r, locals)
  }

  lemma FinishedCorrect(b: seq<Stmt>, ord: Order, n: nat, start: Regs, words: seq<Word>)
    requires BlockOk(b, n) && Ready(CompileBlock(Start(n), b, ord))
    requires RepCode(words, Discharge(CompileBlock(Start(n), b, ord)).code)
    ensures var s := CompileBlock(Start(n), b, ord); Executes(words, s.k, s.nactvar, b, ord, n, start)
  {
    hide Run, Discharge, CompileBlock, RepCode;
    var s := CompileBlock(Start(n), b, ord);
    FunctionCorrect(b, n, ord, start);
    DischargeOut(s, ord, start);
    RunWords(words, Discharge(s).code, s.k, ord, 0, start);
  }

  /** Compiles the body of a function with n parameters. The last step is what
      luaK_code does first for the final RETURN: it patches the jumps to here. */
  method CompileFunction(b: seq<Stmt>, n: nat, ord: Order) returns (words: seq<Word>, k: seq<Value>, locals: int)
    requires BlockOk(b, n)
    ensures locals == n + Declared(b)
    ensures forall start: Regs :: Executes(words, k, locals, b, ord, n, start)
  {
    var fs := new FuncState(ord, n);
    StartReady(n, ord, map[]);
    fs.Block(b);
    ghost var s := fs.a;
    fs.DischargeJpc();
    words, k, locals := fs.code, fs.k, fs.nactvar;
    FunctionCorrect(b, n, ord, map[]);
    forall start: Regs ensures Executes(words, k, locals, b, ord, n, start) {
      FinishedCorrect(b, ord, n, start, words);
    }
  }

  function StripWords(words: seq<Word>, p: nat): seq<Word> {
    if TestBefore(words, p) then words[p - 1 := Op(PatchTest(words[p - 1].i, None))] else words
  }

  lemma StripStep(code: seq<Instr>, xs: seq<nat>, i: nat, words: seq<Word>)
    requires i < |xs| && AllPend(code, xs) && RepCode(words, RemoveValues(code, xs[..i]))
    ensures RepCode(StripWords(words, xs[i]), RemoveValues(code, xs[..i + 1]))
    ensures SameLinks(code, [], words, StripWords(words, xs[i]))
  {
    var p := xs[i];
    var c := RemoveValues(code, xs[..i]);
    var c' := RemoveValues(code, xs[..i + 1]);
    assert xs[..i + 1] == xs[..i] + [p] && p in xs && Pend(code, p);
    if p >= 1 { assert c[p - 1] == RemoveAt(code, xs[..i], p - 1) && c'[p - 1] == RemoveAt(code, xs[..i + 1], p - 1); }
    forall j: nat | j < |code| && j + 1 != p ensures c'[j] == c[j] {
      assert j + 1 in xs[..i + 1] <==> j + 1 in xs[..i];
    }
  }

  /** The links of the pending jumps outside `touched` are the same. */
  ghost predicate SameLinks(code: seq<Instr>, touched: seq<nat>, before: seq<Word>, after: seq<Word>) {
    forall p: nat | Pend(code, p) && p !in touched && p < |before| :: p < |after| && after[p] == before[p]
  }

  lemma ListKeeps(code: seq<Instr>, touched: seq<nat>, before: seq<Word>, after: seq<Word>, head: int, xs: seq<nat>)
    requires SameLinks(code, touched, before, after) && IsList(before, head, xs) && |before| == |code|
    requires AllPend(code, xs) && Disjoint(xs, touched)
    ensures IsList(after, head, xs)
  {
    forall p | p in xs ensures p < |after| && after[p] == before[p] { assert Pend(code, p); }
    ListFrame(before, after, head, xs);
  }

  /** Linking the last jump of a list to the head of another one. */
  lemma {:induction false} ListAppend(words: seq<Word>, head: int, xs: seq<nat>, head2: int, ys: seq<nat>)
    requires IsList(words, head, xs) && IsList(words, head2, ys) && xs != [] && ys != []
    requires NoDup(xs) && Disjoint(xs, ys)
    ensures xs[|xs| - 1] < |words|
    ensures IsList(words[xs[|xs| - 1] := JmpTo(head2 - (xs[|xs| - 1] + 1))], head, xs + ys)
    decreases |xs|
  {
    LastInRange(words, head, xs);
    var last := xs[|xs| - 1];
    var words' := words[last := JmpTo(head2 - (last + 1))];
    if |xs| == 1 {
      assert last in xs && ys[0] in ys;
      assert (xs + ys)[1..] == ys;
      forall p | p in ys ensures p < |words'| && (p < |words| ==> words'[p] == words[p]) {
        InRange(words, head2, ys, p);
      }
      ListFrame(words, words', head2, ys);
    } else {
      var rest := xs[1..];
      assert forall p | p in rest :: p in xs;
      assert rest[|rest| - 1] == last && xs[0] != last;
      ListAppend(words, Next(words[xs[0]], xs[0]), rest, head2, ys);
      assert (xs + ys)[1..] == rest + ys;
    }
  }

  lemma {:induction false} InRange(words: seq<Word>, head: int, xs: seq<nat>, p: nat)
    requires IsList(words, head, xs) && p in xs
    ensures p < |words|
    decreases |xs|
  {
    if p != xs[0] { InRange(words, Next(words[xs[0]], xs[0]), xs[1..], p); }
  }

  lemma LastInRange(words: seq<Word>, head: int, xs: seq<nat>)
    requires IsList(words, head, xs) && xs != []
    ensures xs[|xs| - 1] < |words|
  {
    InRange(words, head, xs, xs[|xs| - 1]);
  }

  /** The links below `base` of the pending jumps that are not to here. */
  ghost predicate LinksBelow(s: FS, base: nat, before: seq<Word>, after: seq<Word>) {
    forall p: nat | Pend(s.code, p) && p < base && p !in s.jpc && p < |before| :: p < |after| && after[p] == before[p]
  }

  lemma LinksTrans(s: FS, base: nat, s1: FS, w0: seq<Word>, w1: seq<Word>, w2: seq<Word>)
    requires LinksBelow(s, base, w0, w1) && Step(s, base, s1) && LinksBelow(s1, base, w1, w2)
    ensures LinksBelow(s, base, w0, w2)
  {
    forall p: nat | Pend(s.code, p) && p < base && p !in s.jpc && p < |w0| ensures p < |w2| && w2[p] == w0[p] {
      assert SameExit(s.code, s1.code, p);
    }
  }

  /** The links of the pending jumps that are neither to here nor in `taken`. */
  ghost predicate LinksKept(s: FS, taken: seq<nat>, before: seq<Word>, after: seq<Word>) {
    forall p: nat | Pend(s.code, p) && p !in s.jpc && p !in taken && p < |before| :: p < |after| && after[p] == before[p]
  }

  lemma KeptTrans(s: FS, s1: FS, list: seq<nat>, w0: seq<Word>, w1: seq<Word>, w2: seq<Word>)
    requires Grown(s, [], s1) && LinksKept(s, [], w0, w1) && LinksKept(s1, list, w1, w2)
    requires forall p | p in list :: p >= |s.code| || p in s.jpc
    ensures LinksKept(s, [], w0, w2)
  {
    forall p: nat | Pend(s.code, p) && p !in s.jpc && p < |w0| ensures p < |w2| && w2[p] == w0[p] {
      assert SameExit(s.code, s1.code, p);
    }
  }

  lemma ListHeld(s: FS, w0: seq<Word>, w1: seq<Word>, head: int, xs: seq<nat>)
    requires Held(s, xs) && LinksKept(s, [], w0, w1) && IsList(w0, head, xs) && |w0| == |s.code|
    ensures IsList(w1, head, xs)
  {
    forall p | p in xs ensures p < |w1| && w1[p] == w0[p] { assert Pend(s.code, p); }
    ListFrame(w0, w1, head, xs);
  }

  /** The links through the four steps of an arm. */
  lemma ArmLinks(s: FS, s1: FS, s2: FS, s3: FS, xs: seq<nat>,
                 w0: seq<Word>, w1: seq<Word>, w2: seq<Word>, w3: seq<Word>, w4: seq<Word>)
    requires Grown(s, [], s1) && Grown(s, [], s2) && Grown(s2, [], s3)
    requires LinksKept(s, [], w0, w1) && LinksKept(s1, [], w1, w2)
    requires SameLinks(s2.code, xs, w2, w3) && SameLinks(s3.code, s3.jpc, w3, w4)
    ensures LinksKept(s, xs, w0, w4)
  {
    forall p: nat | Pend(s.code, p) && p !in s.jpc && p !in xs && p < |w0| ensures p < |w4| && w4[p] == w0[p] {
      assert SameExit(s.code, s1.code, p);
      assert SameExit(s.code, s2.code, p);
      assert SameExit(s2.code, s3.code, p);
    }
  }

  function PairOf(s: FS, reg: int): FS {
    Emit(GetLabel(Emit(GetLabel(s), LoadBool(reg, false, true))), LoadBool(reg, true, false))
  }

  lemma PairShape(s: FS, reg: int)
    requires s.jpc == []
    ensures PairOf(s, reg).code == s.code + [LoadBool(reg, false, true), LoadBool(reg, true, false)]
    ensures Emit(GetLabel(s), LoadBool(reg, false, true)).code == s.code + [LoadBool(reg, false, true)]
    ensures PairOf(s, reg).jpc == [] && Emit(GetLabel(s), LoadBool(reg, false, true)).jpc == []
  {
    PatchNone(s.code, |s.code|, None, |s.code|);
    var s1 := Emit(GetLabel(s), LoadBool(reg, false, true));
    assert s1.code == s.code + [LoadBool(reg, false, true)];
    PatchNone(s1.code, |s1.code|, None, |s1.code|);
  }

  lemma SameTrans(c0: seq<Instr>, w0: seq<Word>, c1: seq<Instr>, w1: seq<Word>, w2: seq<Word>)
    requires SameLinks(c0, [], w0, w1) && SameLinks(c1, [], w1, w2) && c0 <= c1
    ensures SameLinks(c0, [], w0, w2)
  {
    forall p: nat | Pend(c0, p) && p < |w0| ensures p < |w2| && w2[p] == w0[p] { assert Pend(c1, p); }
  }

  lemma TwoPatches(c: seq<Instr>, c1: seq<Instr>, xf: seq<nat>, xt: seq<nat>,
                   w0: seq<Word>, w1: seq<Word>, w2: seq<Word>)
    requires Keeps(c, xf, c1) && SameLinks(c, xf, w0, w1) && SameLinks(c1, xt, w1, w2)
    ensures SameLinks(c, xt + xf, w0, w2)
  {
    forall p: nat | Pend(c, p) && p !in xt + xf && p < |w0| ensures p < |w2| && w2[p] == w0[p] {
      assert SameExit(c, c1, p);
    }
  }

  lemma CloseLinks(s: FS, s1: FS, e: Exp, base: nat, w0: seq<Word>, w1: seq<Word>, w2: seq<Word>)
    requires CloseGood(s, e, base) && Keeps(s.code, [], s1.code)
    requires SameLinks(s.code, [], w0, w1) && SameLinks(s1.code, e.t + e.f, w1, w2)
    ensures LinksBelow(s, base, w0, w2)
  {
    forall p: nat | Pend(s.code, p) && p < base && p !in s.jpc && p < |w0| ensures p < |w2| && w2[p] == w0[p] {
      assert SameExit(s.code, s1.code, p);
      assert p !in e.t + e.f;
    }
  }

  /** hasjumps: two disjoint lists start at the same place only when empty. */
  lemma JumpHeads(w: seq<Word>, t: int, xt: seq<nat>, f: int, xf: seq<nat>)
    requires IsList(w, t, xt) && IsList(w, f, xf) && Disjoint(xt, xf)
    ensures t == f <==> xt == [] && xf == []
  {
    ListEmpty(w, t, xt);
    ListEmpty(w, f, xf);
    if xt != [] && xf != [] { assert xt[0] in xt && xf[0] in xf; }
  }

  lemma Discharge2RegStep(s: FS, e: Exp, base: nat, s1: FS, e1: Exp, reg: int, ord: Order)
    requires Good(s, e, base) && Writable(s, reg) && (s1, e1) == Discharge2Reg(s, e, reg, ord)
    ensures Step(s, base, s1) && Good(s1, e1, base) && (e1.k.VJmp? || e1.k == VNonReloc(reg))
  {
    hide Discharge2Reg;
    Discharge2RegGood(s, e, base, reg, ord);
    StepSelf(s, base);
  }

  /** A comparison's own jump can join its list t. */
  lemma AppendOwn(s: FS, e: Exp, base: nat)
    requires Good(s, e, base) && e.k.VJmp?
    ensures NoDup(e.t) && Disjoint(e.t, [e.k.p]) && AllPend(s.code, e.t) && s.jpc == []
    ensures AllPend(s.code, e.f) && Disjoint(e.f, e.t)
  {}

  lemma WithJmpNoDup(s: FS, e: Exp, base: nat)
    requires Good(s, e, base)
    ensures NoDup(WithJmp(e).t) && NoDup(WithJmp(e).f)
  {
    if e.k.VJmp? { NoDupAppend(e.t, [e.k.p]); }
  }

  lemma OwnLinks(s: FS, e: Exp, base: nat, w0: seq<Word>, w1: seq<Word>)
    requires Good(s, e, base) && (SameLinks(s.code, e.t, w0, w1) || w0 == w1)
    ensures LinksBelow(s, base, w0, w1)
  {}

  lemma Exp2ValGood(s: FS, e: Exp, base: nat, ord: Order)
    requires Good(s, e, base)
    ensures var (s1, e1) := Exp2Val(s, e, ord);
      && Good(s1, e1, base) && Step(s, base, s1) && !e1.k.VLocal? && !HasJumps(e1)
  {
    hide Exp2AnyReg;
    if HasJumps(e) { Exp2AnyRegGood(s, e, base, ord); }
    else { VarsOk(s, e, base); StepSelf(s, base); }
  }

  lemma ToConstantGood(s: FS, e: Exp, base: nat, ord: Order)
    requires Good(s, e, base)
    ensures var (s2, e2) := ToConstant(s, e, ord);
      && (!(e2.k.VK? && e2.k.i <= MAXINDEXRK) ==> Good(s2, e2, base))
      && s2.code == s.code && s2.jpc == s.jpc
  {
    if ConstOf(e.k).Some? { ToConstantOk(s, e, base, ord); }
  }

  lemma AnyRegStep(s: FS, e: Exp, base: nat, ord: Order)
    requires Good(s, e, base) && !e.k.VJmp? && !e.k.VLocal?
    ensures var (s1, e1) := Discharge2AnyReg(s, e, ord);
      Step(s, base, s1) && Good(s1, e1, base) && e1.k.VNonReloc? && e1.t == e.t && e1.f == e.f
  {
    hide Discharge2Reg;
    StepSelf(s, base);
    if !e.k.VNonReloc? { Discharge2RegGood(Reserve(s, 1), e, base, s.freereg, ord); }
  }

  lemma NoBranch(s: FS, e: Exp, base: nat)
    requires Good(s, e, base)
    ensures Plain(e) && !e.k.VNonReloc? ==> BranchGood(s, e, base, s, [])
    ensures e.k.VJmp? ==> BranchGood(s, e, base, s, [e.k.p])
  {
    forall p: nat | Pend(s.code, p) ensures SameExit(s.code, s.code, p) {}
  }

  lemma GoodParts(s: FS, e: Exp, base: nat)
    requires Good(s, e, base)
    ensures AllPend(s.code, s.jpc) && NoDup(s.jpc) && AllPend(s.code, e.t) && AllPend(s.code, e.f)
  {}

  lemma StripOnce(code: seq<Instr>, xs: seq<nat>)
    ensures forall p: nat | Pend(code, p) :: Pend(RemoveValues(code, xs), p)
  {
    forall p: nat | Pend(code, p) ensures Pend(RemoveValues(code, xs), p) {
      assert RemoveValues(code, xs)[p] == RemoveAt(code, xs, p);
    }
  }

  lemma NotGood(s: FS, e: Exp, base: nat, ord: Order)
    requires Good(s, e, base) && (e.k.VReloc? || e.k.VNonReloc?)
    ensures var (d1, e2) := NotOf(s, e, ord); Good(d1, e2, base) && Step(s, base, d1)
  {
    hide Discharge2AnyReg;
    AnyRegStep(s, e, base, ord);
    var (d, e1) := Discharge2AnyReg(s, e, ord);
    EmitNotOk(d, e1, base);
    StepTrans(s, d, NotOf(s, e, ord).0, base);
  }

  /** What codenot does before it exchanges the lists. */
  ghost predicate Negated(s: FS, e: Exp, ord: Order, s1: FS, e1: Exp) {
    match e.k
    case VNil | VFalse => s1 == s && e1 == e.(k := VTrue)
    case VK(_) | VKNum(_) | VTrue => s1 == s && e1 == e.(k := VFalse)
    case VJmp(p) => s1 == InvertJump(s, p) && e1 == e
    case _ => (s1, e1) == NotOf(s, e, ord)
  }

  lemma NotState(s: FS, e: Exp, base: nat, ord: Order, s1: FS, e1: Exp)
    requires Good(s, e, base) && !e.k.VLocal? && Negated(s, e, ord, s1, e1)
    ensures Good(s1, e1, base) && Step(s, base, s1)
    ensures AllPend(s1.code, s1.jpc) && AllPend(s1.code, e1.t) && AllPend(s1.code, e1.f)
    ensures e1.k.VJmp? ==> Pend(s1.code, e1.k.p)
  {
    hide NotOf;
    StepSelf(s, base);
    if e.k.VJmp? { InvertOk(s, e, base); }
    if e.k.VReloc? || e.k.VNonReloc? { NotGood(s, e, base, ord); }
  }

  lemma NotShape(s: FS, e0: Exp, base: nat, ord: Order, s1: FS, e1: Exp)
    requires Good(s, e0, base) && Negated(s, DischargeVars(e0), ord, s1, e1)
    ensures CodeNot(s, e0, ord) == (Strip(s1, e1), Exp(e1.k, e1.f, e1.t))
  {
    hide Discharge2Reg, Emit, RemoveValues;
    var e := DischargeVars(e0);
    VarsOk(s, e0, base);
    if e.k.VReloc? || e.k.VNonReloc? { AnyRegStep(s, e, base, ord); }
  }

  lemma LinksSame(s: FS, base: nat, s1: FS, w0: seq<Word>, w1: seq<Word>, w2: seq<Word>)
    requires LinksBelow(s, base, w0, w1) && Step(s, base, s1) && SameLinks(s1.code, [], w1, w2)
    ensures LinksBelow(s, base, w0, w2)
  {
    LinksTrans(s, base, s1, w0, w1, w2);
  }

  /** The jump of a conditional jump is a list of its own. */
  lemma JumpAlone(s: FS, i: Instr)
    ensures CondJump(s, i).1 == [|s.code| + 1]
  {}

  lemma OperandsFreed(s: FS, e2: Exp, base: nat, e1: Exp, ord: Order)
    requires Good(s, e2, base) && (e1.k.VNonReloc? && e1.k.r >= s.nactvar ==> s.nactvar < FreeExp(s, e2).freereg)
    ensures var (s4, x2, rk2) := Exp2RK(s, e2, ord);
      && Inv(s4) && NoDup(s4.jpc) && Step(s, base, s4) && Inv(FreeExp(FreeExp(s4, x2), e1))
      && x2.t == [] && x2.f == []
  {
    hide Exp2RK;
    Exp2RKGood(s, e2, base, ord);
    var (s4, x2, rk2) := Exp2RK(s, e2, ord);
    var s5 := FreeExp(FreeExp(s4, x2), e1);
    assert s5 == s4.(freereg := s5.freereg);
  }

  lemma BinLinks(s: FS, base: nat, s2: FS, s3: FS, w0: seq<Word>, w2: seq<Word>, w3: seq<Word>, w4: seq<Word>)
    requires Step(s, base, s2) && Step(s2, base, s3) && base <= |w2|
    requires LinksBelow(s, base, w0, w2) && LinksBelow(s2, base, w2, w3) && LinksBelow(s3, |w2|, w3, w4)
    ensures LinksBelow(s, base, w0, w4)
  {
    LinksTrans(s, base, s2, w0, w2, w3);
    StepTrans(s, s2, s3, base);
    LinksTrans(s, base, s3, w0, w3, w4);
  }

  /** The states between the parts of a binary expression. */
  lemma BinParts(s: FS, op: BinOp, l: Expr, r: Expr, ord: Order)
    requires Inv(s) && NoDup(s.jpc) && LocalsBelow(l, s.nactvar) && LocalsBelow(r, s.nactvar)
    ensures var base := |s.code|;
      var (s1, xl) := SubExpr(s, l, ord);
      var (s2, xl') := Infix(s1, op, xl, ord);
      var (s3, xr) := SubExpr(s2, r, ord);
      && SubExpr(s, EBin(op, l, r), ord) == Posfix(s3, op, xl', xr, ord)
      && Inv(s2) && NoDup(s2.jpc) && Step(s, base, s1) && Step(s1, base, s2) && Step(s, base, s2)
      && Compiled(s2, s3, xr) && Good(s3, xr, |s2.code|) && s2.nactvar == s.nactvar == s3.nactvar
      && (op == And ==> OpenGood(s1, xl, base, s2, xl'.f) && xl'.t == [])
      && (op == Or ==> OpenGood(s1, xl, base, s2, xl'.t) && xl'.f == [])
      && (IsCompare(op) ==> Operand(s1, xl, base, s2, xl', AsRK(xl'.k)))
      && (IsCompare(op) && xl'.k.VNonReloc? && xl'.k.r >= s3.nactvar ==> s3.nactvar < FreeExp(s3, xr).freereg)
  {
    hide Infix, Posfix;
    SubExprGood(s, l, ord);
    var (s1, xl) := SubExpr(s, l, ord);
    InfixGood(s1, op, xl, |s.code|, ord);
    var (s2, xl') := Infix(s1, op, xl, ord);
    SubExprGood(s2, r, ord);
    StepTrans(s, s1, s2, |s.code|);
  }

  /** What appending to a descriptor's list needs. */
  lemma JoinList(s: FS, e: Exp, base: nat, xs: seq<nat>, other: seq<nat>)
    requires Good(s, e, base) && ((xs == e.t && other == e.f) || (xs == e.f && other == e.t))
    ensures NoDup(xs) && AllPend(s.code, xs) && Disjoint(other, xs) && Disjoint(s.jpc, xs)
    ensures e.k.VJmp? ==> Pend(s.code, e.k.p) && e.k.p !in xs
    ensures forall p | p in xs :: p >= base
  {}

  /** The lists of the first operand survive the code of the second. */
  lemma OperandLists(s1: FS, op: BinOp, xa: Exp, base: nat, s2: FS, e1: Exp, s3: FS, xb: Exp,
                     w2: seq<Word>, w3: seq<Word>, d: ExpDesc)
    requires Inv(s2) && NoDup(s2.jpc) && Step(s1, base, s2) && Compiled(s2, s3, xb) && |w2| == |s2.code|
    requires op == And ==> OpenGood(s1, xa, base, s2, e1.f) && e1.t == []
    requires op == Or ==> OpenGood(s1, xa, base, s2, e1.t) && e1.f == []
    requires IsCompare(op) ==> Operand(s1, xa, base, s2, e1, AsRK(e1.k))
    requires RepLists(w2, d, e1) && LinksBelow(s2, |w2|, w2, w3)
    ensures RepLists(w3, d, e1) && Step(s2, base, s3)
    ensures op == And ==> Disjoint(xb.f, e1.f)
    ensures op == Or ==> Disjoint(xb.t, e1.t)
    ensures LinksBelow(s2, base, w2, w3) && |w2| >= base
    ensures IsCompare(op) ==> e1.t == [] && e1.f == [] && (e1.k.VNonReloc? || (e1.k.VK? && e1.k.i <= MAXINDEXRK))
  {
    StepLower(s2, s3, |s2.code|, base);
    forall p | p in e1.t || p in e1.f ensures p < |w3| && w3[p] == w2[p] {
      assert Pend(s2.code, p);
    }
    ListFrame(w2, w3, d.t, e1.t);
    ListFrame(w2, w3, d.f, e1.f);
  }

  lemma LinksThen(s: FS, base: nat, s1: FS, e: Exp, none: seq<nat>, w0: seq<Word>, w1: seq<Word>, w2: seq<Word>, d: ExpDesc)
    requires Good(s, e, base) && e.k.VReloc? && s1 == DropLast(s) && |w0| == |s.code|
    requires SameLinks(s.code, [], w0, w1) && SameLinks(s1.code, s1.jpc, w1, w2) && RepLists(w0, d, e)
    ensures LinksBelow(s, base, w0, w2) && RepLists(w2, d, e)
  {
    forall p: nat | Pend(s.code, p) && p < |w0| ensures p < |w2| && w2[p] == w0[p] { assert Pend(s1.code, p); }
    ListKeeps(s.code, [], w0, w2, d.t, e.t);
    ListKeeps(s.code, [], w0, w2, d.f, e.f);
  }

  lemma LinksThen2(s: FS, base: nat, s1: FS, e1: Exp, w0: seq<Word>, w1: seq<Word>, w2: seq<Word>, d: ExpDesc)
    requires LinksBelow(s, base, w0, w1) && Step(s, base, s1) && Good(s1, e1, base) && |w1| == |s1.code|
    requires SameLinks(s1.code, s1.jpc, w1, w2) && RepLists(w1, d, e1)
    ensures LinksBelow(s, base, w0, w2) && RepLists(w2, d, e1)
  {
    LinksTrans(s, base, s1, w0, w1, w2);
    ListKeeps(s1.code, s1.jpc, w1, w2, d.t, e1.t);
    ListKeeps(s1.code, s1.jpc, w1, w2, d.f, e1.f);
  }

  lemma LinksTrans2(s: FS, base: nat, s1: FS, e: Exp, list: seq<nat>, w0: seq<Word>, w1: seq<Word>, w2: seq<Word>)
    requires LinksBelow(s, base, w0, w1) && BranchGood(s, e, base, s1, list)
    requires forall p: nat | Pend(s1.code, p) && p < base && p !in s.jpc && p < |w1| :: p < |w2| && w2[p] == w1[p]
    ensures LinksBelow(s, base, w0, w2)
  {
    forall p: nat | Pend(s.code, p) && p < base && p !in s.jpc && p < |w0| ensures p < |w2| && w2[p] == w0[p] {
      assert SameExit(s.code, s1.code, p);
    }
  }

  /** The lists of an operand whose truth value has been branched on. */
  lemma BranchLists(s: FS, e: Exp, base: nat, s1: FS, list: seq<nat>, stay: seq<nat>, go: seq<nat>)
    requires Good(s, e, base) && BranchGood(s, e, base, s1, list)
    requires (stay == e.t && go == e.f) || (stay == e.f && go == e.t)
    ensures NoDup(stay) && Disjoint(stay, list) && AllPend(s1.code, stay) && AllPend(s1.code, go)
    ensures Disjoint(go, stay) && Disjoint(s1.jpc, stay) && Disjoint(s1.jpc, go) && NoDup(s1.jpc)
    ensures AllPend(s1.code, s1.jpc) && AllPend(s1.code, stay + list) && Disjoint(stay + list, s1.jpc)
    ensures forall p | p in stay || p in list :: p >= base
    ensures forall p | p in s1.jpc :: p in s.jpc
  {
    forall p | p in e.t || p in e.f ensures Pend(s1.code, p) { assert SameExit(s.code, s1.code, p); }
    assert forall p | p in stay + list :: p in stay || p in list;
  }

  lemma SameMore(c: seq<Instr>, touched: seq<nat>, w0: seq<Word>, w1: seq<Word>)
    requires SameLinks(c, [], w0, w1)
    ensures SameLinks(c, touched, w0, w1)
  {}

  lemma SameSame(c: seq<Instr>, touched: seq<nat>, w: seq<Word>)
    ensures SameLinks(c, touched, w, w)
  {}

  lemma RestDiffers(xs: seq<nat>, i: nat)
    requires i < |xs| && NoDup(xs)
    ensures forall p | p in xs[i + 1..] :: p in xs && p != xs[i]
  {
    assert forall j | i + 1 <= j < |xs| :: xs[j] in xs && xs[j] != xs[i];
  }

  /** The rest of a list is untouched while its head is fixed. */
  lemma RestOfList(code: seq<Instr>, before: seq<Word>, after: seq<Word>, next: int, xs: seq<nat>, i: nat)
    requires i < |xs| && NoDup(xs) && AllPend(code, xs) && |before| == |after| == |code|
    requires IsList(before, next, xs[i..][1..])
    requires SameLinks(code, [xs[i]], before, after)
    ensures IsList(after, next, xs[i + 1..])
  {
    assert xs[i..][1..] == xs[i + 1..];
    RestDiffers(xs, i);
    ListKeeps(code, [xs[i]], before, after, next, xs[i + 1..]);
  }

  predicate TestBefore(words: seq<Word>, p: nat) { 1 <= p <= |words| && words[p - 1].Op? && words[p - 1].i.TestSet? }

  /** One turn of patchlistaux. */
  function FixOne(words: seq<Word>, p: nat, vt: nat, reg: Option<int>, dt: nat): seq<Word>
    requires p < |words|
  {
    var w := if TestBefore(words, p) then words[p - 1 := Op(PatchTest(words[p - 1].i, reg))] else words;
    w[p := JmpTo((if TestBefore(words, p) then vt else dt) - (p + 1))]
  }

  /** Fixing one more jump of a list. */
  lemma PatchStep(code: seq<Instr>, xs: seq<nat>, i: nat, vt: nat, reg: Option<int>, dt: nat, words: seq<Word>)
    requires i < |xs| && NoDup(xs) && AllPend(code, xs) && |words| == |code|
    requires xs[i] < |code| && RepCode(words, Patch(code, xs[..i], vt, reg, dt))
    ensures RepCode(FixOne(words, xs[i], vt, reg, dt), Patch(code, xs[..i + 1], vt, reg, dt))
    ensures forall q: nat | Pend(code, q) && q != xs[i] :: FixOne(words, xs[i], vt, reg, dt)[q] == words[q]
  {
    var p := xs[i];
    var c := Patch(code, xs[..i], vt, reg, dt);
    var c' := Patch(code, xs[..i + 1], vt, reg, dt);
    assert xs[..i + 1] == xs[..i] + [p];
    assert p !in xs[..i] && p in xs && Pend(code, p);
    assert forall q | q in xs[..i] :: q in xs;
    if p >= 1 {
      assert c[p - 1] == PatchAt(code, xs[..i], vt, reg, dt, p - 1);
      assert p - 1 in xs[..i] ==> Pend(code, p - 1);
    }
    forall j: nat | j < |code| && j != p && j + 1 != p ensures c'[j] == c[j] {
      assert j in xs[..i + 1] <==> j in xs[..i];
      assert j + 1 in xs[..i + 1] <==> j + 1 in xs[..i];
    }
  }
}
