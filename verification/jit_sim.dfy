/** Each translation does to the processor what the interpreter's step does to the BPF machine. */
module JitSim {
  import opened Words
  import opened Memory
  import opened BpfInsn
  import opened BpfVerifier
  import opened BpfMachine
  import opened X86
  import opened X86Machine
  import opened JitTranslate
  import opened JitExec
  import opened JitArith
  import opened JitMemory

  // ---- the relation ---------------------------------------------------------

  /** The registers in `s` hold the same on both sides. */
  ghost predicate Agree(s: set<nat>, m: Machine, c: Cpu) {
    forall r :: r in s && r < REG_CNT ==> c.regs[JitReg(r)] == m.regs[r]
  }

  /** The caller's processor and the address its call returns to. */
  datatype Caller = Caller(c: Cpu, ret: u64)

  /**
   * The processor is where the BPF machine is: shared memory and helper calls are the same, the caller's state is safe.
   */
  ghost predicate Rel(z: Around, w: Caller, s: set<nat>, m: Machine, c: Cpu) {
    && Roomy(z) && Agree(s, m, c) && c.log == m.log
    && Visible(z, m.mem) == Visible(z, c.mem)
    && c.regs[RSP] == z.fp - 544 && c.regs[12] == w.c.regs[12]
    && WordsSaved(z, w.c, w.ret, c.mem)
  }

  /** `xs` at `off` take `c` to `c'`. */
  ghost predicate Ran(ex: Executor, enc: Encoder, xs: seq<X>, off: nat, c: Cpu, c': Cpu) {
    ExecAll(ex, enc, xs, off, c) == Some(c')
  }

  lemma RanOne(ex: Executor, enc: Encoder, x: X, off: nat, c: Cpu, c': Cpu)
    requires ex(x, off + |enc(x)|, c) == Some(c')
    ensures Ran(ex, enc, [x], off, c, c')
  {
    assert [x][1..] == [];
  }

  lemma RanMore(ex: Executor, enc: Encoder, xs: seq<X>, ys: seq<X>, off: nat, c: Cpu, c1: Cpu, c2: Cpu)
    requires Ran(ex, enc, xs, off, c, c1) && Ran(ex, enc, ys, off + |EncodeAll(enc, xs)|, c1, c2)
    ensures Ran(ex, enc, xs + ys, off, c, c2)
  {
    ExecSplit(ex, enc, xs, ys, off, c);
  }

  lemma JitRegApart(r: nat, r': nat)
    requires r < REG_CNT && r' < REG_CNT
    ensures JitReg(r) != RSP && JitReg(r) != 12
    ensures r != r' ==> JitReg(r) != JitReg(r')
  {
  }

  /** Writing the same value to a register on both sides. */
  lemma RegWritten(z: Around, w: Caller, s: set<nat>, m: Machine, c: Cpu, r: nat, v: u64, m': Machine, c': Cpu)
    requires r < REG_CNT && Rel(z, w, s, m, c)
    requires m'.regs == m.regs[r := v] && m'.mem == m.mem && m'.log == m.log
    requires c'.regs == c.regs[JitReg(r) := v] && c'.mem == c.mem && c'.log == c.log
    ensures Rel(z, w, s + {r}, m', c')
  {
    forall r' | r' in s + {r} && r' < REG_CNT
      ensures c'.regs[JitReg(r')] == m'.regs[r']
    {
      JitRegApart(r, r');
    }
    JitRegApart(r, r);
  }

  // ---- arithmetic -----------------------------------------------------------

  /** Exec puts `v` in register `d` and goes on. */
  ghost predicate Puts(ex: Executor, x: X, off: nat, c: Cpu, d: reg, v: u64) {
    && ex(x, off, c).Some?
    && var c' := ex(x, off, c).value;
    && c'.regs == c.regs[d := v] && c'.mem == c.mem && c'.log == c.log && c'.rip == In(off)
  }

  lemma RrPuts(ex: Executor, z: Around, k: Kernel, rr: RrOp, w: bool, d: reg, s: reg, off: nat, c: Cpu)
    requires Faithful(ex, z, k)
    ensures Puts(ex, Rr(rr, w, d, s), off, c, d, RrResult(rr, w, c.regs[d], c.regs[s]))
  {
    assert ex(Rr(rr, w, d, s), off, c) == Exec(z, k, Rr(rr, w, d, s), off, c);
  }

  lemma RiPuts(ex: Executor, z: Around, k: Kernel, ri: RiOp, w: bool, d: reg, imm: u32, off: nat, c: Cpu)
    requires Faithful(ex, z, k)
    ensures Puts(ex, Ri(ri, w, d, imm), off, c, d, RrResult(RiAs(ri), w, c.regs[d], ImmAt(w, imm)))
  {
    assert ex(Ri(ri, w, d, imm), off, c) == Exec(z, k, Ri(ri, w, d, imm), off, c);
  }

  /** One of the five two-operand operations. */
  lemma BinaryMeans(ex: Executor, z: Around, k: Kernel, rr: RrOp, ri: RiOp, w: bool, i: Insn, op: AluOp, off: nat,
                    c: Cpu, b: u64)
    requires Faithful(ex, z, k)
    requires i.dst < REG_CNT && i.src < REG_CNT && Same(rr, op) && RiAs(ri) == rr
    requires b == if SrcIsReg(i.code) then c.regs[JitReg(i.src)] else Wrap64(i.imm)
    ensures |Binary(rr, ri, w, i)| == 1 && AluRun(op, !w, c.regs[JitReg(i.dst)], b).Some?
    ensures Puts(ex, Binary(rr, ri, w, i)[0], off, c, JitReg(i.dst), AluRun(op, !w, c.regs[JitReg(i.dst)], b).value)
  {
    var d := JitReg(i.dst);
    if SrcIsReg(i.code) {
      RrPuts(ex, z, k, rr, w, d, JitReg(i.src), off, c);
      RrMeans(rr, op, w, c.regs[d], b);
    } else {
      RiPuts(ex, z, k, ri, w, d, Low32(i.imm), off, c);
      ImmMeans(w, i.imm);
      RrMeans(rr, op, w, c.regs[d], ImmAt(w, Low32(i.imm)));
      if !w { RunTruncates(op, c.regs[d], b); }
    }
  }

  lemma MovMeans(ex: Executor, z: Around, k: Kernel, w: bool, i: Insn, off: nat, c: Cpu, b: u64)
    requires Faithful(ex, z, k)
    requires i.dst < REG_CNT && i.src < REG_CNT
    requires b == if SrcIsReg(i.code) then c.regs[JitReg(i.src)] else Wrap64(i.imm)
    ensures AluRun(MOV, !w, c.regs[JitReg(i.dst)], b).Some?
    ensures Puts(ex, if SrcIsReg(i.code) then Rr(MovRr, w, JitReg(i.dst), JitReg(i.src))
                 else MovImm(w, JitReg(i.dst), Low32(i.imm)),
                 off, c, JitReg(i.dst), AluRun(MOV, !w, c.regs[JitReg(i.dst)], b).value)
  {
    if SrcIsReg(i.code) {
      RrPuts(ex, z, k, MovRr, w, JitReg(i.dst), JitReg(i.src), off, c);
    } else {
      assert ex(MovImm(w, JitReg(i.dst), Low32(i.imm)), off, c)
             == Exec(z, k, MovImm(w, JitReg(i.dst), Low32(i.imm)), off, c);
    }
    RrMeans(MovRr, MOV, w, c.regs[JitReg(i.dst)], b);
    if !SrcIsReg(i.code) {
      ImmMeans(w, i.imm);
      if w { WrapSmall(b); }
    }
  }

  lemma MulMeansX(ex: Executor, z: Around, k: Kernel, w: bool, i: Insn, off: nat, c: Cpu, b: u64)
    requires Faithful(ex, z, k)
    requires i.dst < REG_CNT && i.src < REG_CNT
    requires b == if SrcIsReg(i.code) then c.regs[JitReg(i.src)] else Wrap64(i.imm)
    ensures AluRun(MUL, !w, c.regs[JitReg(i.dst)], b).Some?
    ensures Puts(ex, if SrcIsReg(i.code) then ImulRr(w, JitReg(i.dst), JitReg(i.src))
                 else ImulRi(w, JitReg(i.dst), Low32(i.imm)),
                 off, c, JitReg(i.dst), AluRun(MUL, !w, c.regs[JitReg(i.dst)], b).value)
  {
    var x := if SrcIsReg(i.code) then ImulRr(w, JitReg(i.dst), JitReg(i.src))
        else ImulRi(w, JitReg(i.dst), Low32(i.imm));
    assert ex(x, off, c) == Exec(z, k, x, off, c);
    MulMeans(w, c.regs[JitReg(i.dst)], b);
    if !SrcIsReg(i.code) {
      ImmMeans(w, i.imm);
      if w { WrapSmall(b); }
    }
  }

  lemma NegMeansX(ex: Executor, z: Around, k: Kernel, w: bool, d: reg, off: nat, c: Cpu, b: u64)
    requires Faithful(ex, z, k)
    ensures AluRun(NEG, !w, c.regs[d], b).Some?
    ensures Puts(ex, Neg(w, d), off, c, d, AluRun(NEG, !w, c.regs[d], b).value)
  {
    assert ex(Neg(w, d), off, c) == Exec(z, k, Neg(w, d), off, c);
    NegMeans(w, c.regs[d], b);
  }

  lemma ShiftImmMeans(ex: Executor, z: Around, k: Kernel, sh: ShiftOp, op: AluOp, w: bool, d: reg, imm: i32, off: nat,
                      c: Cpu)
    requires Faithful(ex, z, k)
    requires SameShift(sh, op)
    ensures AluRun(op, !w, c.regs[d], Wrap64(imm)).Some?
    ensures Puts(ex, ShiftImm(sh, w, d, imm % (if w then 64 else 32)), off, c, d,
                 AluRun(op, !w, c.regs[d], Wrap64(imm)).value)
  {
    var x := ShiftImm(sh, w, d, imm % (if w then 64 else 32));
    assert ex(x, off, c) == Exec(z, k, x, off, c);
    ImmCounts(w, imm);
    ShiftMeans(sh, op, w, c.regs[d], Wrap64(imm), imm % (if w then 64 else 32));
  }

  lemma ShiftClMeans(ex: Executor, z: Around, k: Kernel, sh: ShiftOp, op: AluOp, w: bool, d: reg, off: nat, c: Cpu)
    requires Faithful(ex, z, k)
    requires SameShift(sh, op)
    ensures AluRun(op, !w, c.regs[d], c.regs[RCX]).Some?
    ensures Puts(ex, ShiftCl(sh, w, d), off, c, d, AluRun(op, !w, c.regs[d], c.regs[RCX]).value)
  {
    assert ex(ShiftCl(sh, w, d), off, c) == Exec(z, k, ShiftCl(sh, w, d), off, c);
    ClCounts(w, c.regs[RCX]);
    ShiftMeans(sh, op, w, c.regs[d], c.regs[RCX], c.regs[RCX] % 256);
  }

  lemma Popping(ex: Executor, z: Around, k: Kernel, d: reg, off: nat, c: Cpu, sp: int)
    requires Faithful(ex, z, k)
    requires c.regs[RSP] == sp && 0 <= sp && sp + 8 < M64 && d != RSP
    ensures ex(Pop(d), off, c).Some?
    ensures var c' := ex(Pop(d), off, c).value;
            c'.regs == c.regs[RSP := sp + 8][d := Word(c.mem, sp)] && c'.mem == c.mem && c'.log == c.log
  {
    assert ex(Pop(d), off, c) == Exec(z, k, Pop(d), off, c);
    WrapSmall(sp);
    WrapSmall(sp + 8);
  }

  lemma Pushing(ex: Executor, z: Around, k: Kernel, r: reg, off: nat, c: Cpu, sp: int)
    requires Faithful(ex, z, k)
    requires c.regs[RSP] == sp && 8 <= sp
    ensures ex(Push(r), off, c).Some?
    ensures var c' := ex(Push(r), off, c).value;
            c'.regs == c.regs[RSP := sp - 8] && c'.mem == Store(c.mem, sp - 8, 8, c.regs[r]) && c'.log == c.log
  {
    assert ex(Push(r), off, c) == Exec(z, k, Push(r), off, c);
    WrapSmall(sp - 8);
  }

  lemma PushedWord(m: Mem, a: int, v: u64)
    requires 0 <= a < M64
    ensures Word(Store(m, a, 8, v), a) == v
  {
    Pow256Values();
    WrapSmall(a);
    LoadStored(m, a, 8, v);
    WrapSmall(v);
  }

  /** rcx saved, loaded, used and restored. */
  lemma RoundRcx(ex: Executor, z: Around, k: Kernel, sh: ShiftOp, op: AluOp, w: bool, d: reg, s: reg, o1: nat, o2: nat,
                 o3: nat, o4: nat, c: Cpu, sp: int)
    returns (c1: Cpu, c2: Cpu, c3: Cpu, c4: Cpu)
    requires Faithful(ex, z, k)
    requires SameShift(sh, op) && d != RCX && d != RSP && s != RCX && s != RSP
    requires c.regs[RSP] == sp && 8 <= sp
    ensures ex(Push(RCX), o1, c) == Some(c1) && ex(Rr(MovRr, true, RCX, s), o2, c1) == Some(c2)
    ensures ex(ShiftCl(sh, w, d), o3, c2) == Some(c3) && ex(Pop(RCX), o4, c3) == Some(c4)
    ensures AluRun(op, !w, c.regs[d], c.regs[s]).Some?
    ensures c4.regs == c.regs[d := AluRun(op, !w, c.regs[d], c.regs[s]).value]
    ensures c4.mem == Store(c.mem, sp - 8, 8, c.regs[RCX]) && c4.log == c.log
  {
    Pushing(ex, z, k, RCX, o1, c, sp);
    c1 := ex(Push(RCX), o1, c).value;
    RrPuts(ex, z, k, MovRr, true, RCX, s, o2, c1);
    c2 := ex(Rr(MovRr, true, RCX, s), o2, c1).value;
    WrapSmall(c.regs[s]);
    ShiftClMeans(ex, z, k, sh, op, w, d, o3, c2);
    c3 := ex(ShiftCl(sh, w, d), o3, c2).value;
    Popping(ex, z, k, RCX, o4, c3, sp - 8);
    PushedWord(c.mem, sp - 8, c.regs[RCX]);
    c4 := ex(Pop(RCX), o4, c3).value;
  }

  /** The count goes through rcx and rcx comes back. */
  lemma ShiftRoundRcx(ex: Executor, z: Around, k: Kernel, enc: Encoder, sh: ShiftOp, op: AluOp, w: bool, d: reg, s: reg,
                      off: nat, c: Cpu, sp: int)
    returns (c': Cpu)
    requires Faithful(ex, z, k)
    requires SameShift(sh, op) && d != RCX && d != RSP && s != RCX && s != RSP
    requires c.regs[RSP] == sp && 8 <= sp
    ensures Ran(ex, enc, [Push(RCX), Rr(MovRr, true, RCX, s), ShiftCl(sh, w, d), Pop(RCX)], off, c, c')
    ensures AluRun(op, !w, c.regs[d], c.regs[s]).Some?
    ensures c'.regs == c.regs[d := AluRun(op, !w, c.regs[d], c.regs[s]).value]
    ensures c'.mem == Store(c.mem, sp - 8, 8, c.regs[RCX]) && c'.log == c.log
  {
    var x1, x2, x3, x4 := Push(RCX), Rr(MovRr, true, RCX, s), ShiftCl(sh, w, d), Pop(RCX);
    var o1 := off + |enc(x1)|;
    var o2 := o1 + |enc(x2)|;
    var o3 := o2 + |enc(x3)|;
    var o4 := o3 + |enc(x4)|;
    var c1, c2, c3, c4 := RoundRcx(ex, z, k, sh, op, w, d, s, o1, o2, o3, o4, c, sp);
    FourRun(ex, enc, x1, x2, x3, x4, off, c, c1, c2, c3, c4);
    c' := c4;
  }

  /** One instruction that writes a register as the interpreter does. */
  lemma PutsRel(ex: Executor, enc: Encoder, z: Around, w: Caller, s: set<nat>, r: nat, x: X, v: u64, m: Machine,
                m': Machine, off: nat, c: Cpu)
    returns (c': Cpu)
    requires r < REG_CNT && Rel(z, w, s, m, c) && Puts(ex, x, off + |enc(x)|, c, JitReg(r), v)
    requires m'.regs == m.regs[r := v] && m'.mem == m.mem && m'.log == m.log
    ensures Ran(ex, enc, [x], off, c, c') && Rel(z, w, s + {r}, m', c')
  {
    c' := ex(x, off + |enc(x)|, c).value;
    RanOne(ex, enc, x, off, c, c');
    RegWritten(z, w, s, m, c, r, v, m', c');
  }

  /** What an ALU instruction's translation puts in its destination, when it is one instruction. */
  lemma AluPuts(ex: Executor, z: Around, k: Kernel, i: Insn, off: nat, c: Cpu, b: u64) returns (x: X)
    requires Faithful(ex, z, k) && i.dst < REG_CNT && i.src < REG_CNT && ClassOf(i.code) in {ALU, ALU64}
    requires XlateAlu(i).Some? && |XlateAlu(i).value| == 1
    requires b == if SrcIsReg(i.code) then c.regs[JitReg(i.src)] else Wrap64(i.imm)
    ensures XlateAlu(i).value == [x]
    ensures AluRun(AluOpOf(i.code), ClassOf(i.code) == ALU, c.regs[JitReg(i.dst)], b).Some?
    ensures Puts(ex, x, off, c, JitReg(i.dst), AluRun(AluOpOf(i.code), ClassOf(i.code) == ALU, c.regs[JitReg(i.dst)],
                                                      b).value)
  {
    x := XlateAlu(i).value[0];
    var w, d, op := ClassOf(i.code) == ALU64, JitReg(i.dst), AluOpOf(i.code);
    match op
    case ADD => BinaryMeans(ex, z, k, AddRr, AddRi, w, i, op, off, c, b);
    case SUB => BinaryMeans(ex, z, k, SubRr, SubRi, w, i, op, off, c, b);
    case OR => BinaryMeans(ex, z, k, OrRr, OrRi, w, i, op, off, c, b);
    case AND => BinaryMeans(ex, z, k, AndRr, AndRi, w, i, op, off, c, b);
    case XOR => BinaryMeans(ex, z, k, XorRr, XorRi, w, i, op, off, c, b);
    case MUL => MulMeansX(ex, z, k, w, i, off, c, b);
    case MOV => MovMeans(ex, z, k, w, i, off, c, b);
    case NEG => NegMeansX(ex, z, k, w, d, off, c, b);
    case LSH => ShiftPuts(ex, z, k, Shl, op, w, i, off, c, b);
    case RSH => ShiftPuts(ex, z, k, ShrL, op, w, i, off, c, b);
    case ARSH => ShiftPuts(ex, z, k, SarL, op, w, i, off, c, b);
  }

  lemma ShiftPuts(ex: Executor, z: Around, k: Kernel, sh: ShiftOp, op: AluOp, w: bool, i: Insn, off: nat, c: Cpu,
                  b: u64)
    requires Faithful(ex, z, k) && i.dst < REG_CNT && i.src < REG_CNT && SameShift(sh, op)
    requires Shift(sh, w, i).Some? && |Shift(sh, w, i).value| == 1
    requires b == if SrcIsReg(i.code) then c.regs[JitReg(i.src)] else Wrap64(i.imm)
    ensures AluRun(op, !w, c.regs[JitReg(i.dst)], b).Some?
    ensures Puts(ex, Shift(sh, w, i).value[0], off, c, JitReg(i.dst), AluRun(op, !w, c.regs[JitReg(i.dst)], b).value)
  {
    if SrcIsReg(i.code) {
      ShiftClMeans(ex, z, k, sh, op, w, JitReg(i.dst), off, c);
    } else {
      ShiftImmMeans(ex, z, k, sh, op, w, JitReg(i.dst), i.imm, off, c);
    }
  }

  /** The registers an ALU instruction reads. */
  predicate AluReads(s: set<nat>, i: Insn) {
    && (AluOpOf(i.code) != MOV ==> i.dst in s)
    && (SrcIsReg(i.code) ==> i.src in s)
  }

  lemma RunAgrees(op: AluOp, is32: bool, a: u64, a': u64, b: u64)
    requires op != MOV ==> a == a'
    ensures AluRun(op, is32, a, b) == AluRun(op, is32, a', b)
  {
  }

  lemma AluSim(ex: Executor, enc: Encoder, z: Around, k: Kernel, w: Caller, s: set<nat>, i: Insn, m: Machine, off: nat,
               c: Cpu)
    returns (c': Cpu)
    requires Faithful(ex, z, k) && Rel(z, w, s, m, c) && i.dst < REG_CNT && i.src < REG_CNT
    requires ClassOf(i.code) in {ALU, ALU64} && XlateAlu(i).Some? && AluReads(s, i)
    ensures StepAlu(i, m).Next? && Ran(ex, enc, XlateAlu(i).value, off, c, c')
    ensures Rel(z, w, s + {i.dst}, StepAlu(i, m).m, c')
  {
    var op, is32 := AluOpOf(i.code), ClassOf(i.code) == ALU;
    var b := BpfMachine.Operand(i, m);
    RunAgrees(op, is32, m.regs[i.dst], c.regs[JitReg(i.dst)], b);
    if |XlateAlu(i).value| == 1 {
      var at := off + |enc(XlateAlu(i).value[0])|;
      var x := AluPuts(ex, z, k, i, at, c, b);
      c' := PutsRel(ex, enc, z, w, s, i.dst, x, AluRun(op, is32, m.regs[i.dst], b).value, m, StepAlu(i, m).m, off, c);
    } else {
      LongIsShift(i);
      c' := AluRoundRcx(ex, enc, z, k, w, s, ShiftFor(op), op, !is32, i.dst, i.src,
                        AluRun(op, is32, m.regs[i.dst], b).value,
                        m, StepAlu(i, m).m, off, c);
    }
  }

  predicate IsShift(op: AluOp) { op in {LSH, RSH, ARSH} }

  function ShiftFor(op: AluOp): ShiftOp { if op == LSH then Shl else if op == RSH then ShrL else SarL }

  lemma LongIsShift(i: Insn)
    requires i.dst < REG_CNT && i.src < REG_CNT && XlateAlu(i).Some? && |XlateAlu(i).value| != 1
    ensures IsShift(AluOpOf(i.code)) && SrcIsReg(i.code) && JitReg(i.dst) != RCX && JitReg(i.src) != RCX
    ensures XlateAlu(i).value == [Push(RCX), Rr(MovRr, true, RCX, JitReg(i.src)),
                                  ShiftCl(ShiftFor(AluOpOf(i.code)), ClassOf(i.code) == ALU64, JitReg(i.dst)), Pop(RCX)]
  {
  }

  lemma AluRoundRcx(ex: Executor, enc: Encoder, z: Around, k: Kernel, w: Caller, s: set<nat>, sh: ShiftOp, op: AluOp,
                    wide: bool,
                    dst: nat, src: nat, v: u64, m: Machine, m': Machine, off: nat, c: Cpu)
    returns (c': Cpu)
    requires Faithful(ex, z, k) && Rel(z, w, s, m, c) && dst < REG_CNT && src < REG_CNT && SameShift(sh, op)
    requires JitReg(dst) != RCX && JitReg(src) != RCX
    requires AluRun(op, !wide, c.regs[JitReg(dst)], c.regs[JitReg(src)]) == Some(v)
    requires m'.regs == m.regs[dst := v] && m'.mem == m.mem && m'.log == m.log
    ensures Ran(ex, enc, [Push(RCX), Rr(MovRr, true, RCX, JitReg(src)), ShiftCl(sh, wide, JitReg(dst)), Pop(RCX)], off,
                c, c')
    ensures Rel(z, w, s + {dst}, m', c')
  {
    JitRegApart(dst, src);
    JitRegApart(src, dst);
    c' := ShiftRoundRcx(ex, z, k, enc, sh, op, wide, JitReg(dst), JitReg(src), off, c, z.fp - 544);
    var c1: Cpu := c'.(mem := c.mem);
    RegWritten(z, w, s, m, c, dst, v, m', c1);
    OwnPush(z, w, s + {dst}, m', c1, c', z.fp - 552, c.regs[RCX]);
  }

  /** A word pushed below the saved ones is nobody else's business. */
  lemma OwnPush(z: Around, w: Caller, s: set<nat>, m: Machine, c: Cpu, c': Cpu, a: int, v: u64)
    requires Rel(z, w, s, m, c) && a == z.fp - 552 && 0 <= a < M64
    requires c'.regs == c.regs && c'.log == c.log && c'.mem == Store(c.mem, a, 8, v)
    ensures Rel(z, w, s, m, c')
  {
    forall x: u64 | InSpan(x, a, 8)
      ensures Private(z, x)
    {
      InSpanBetween(x, a, 8);
    }
    StoreHidden(z, c.mem, a, 8, v);
    StoreKeeps(z, c.mem, a, 8, v);
    WordsKept(z, w.c, w.ret, c.mem, c'.mem);
  }
}
