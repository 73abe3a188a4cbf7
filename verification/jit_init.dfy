/**
 * What acceptance says about initialised registers: everything an instruction reads was written, and a call forgets r1
 * to r5.
 */
module JitInit {
  import opened Words
  import opened BpfInsn
  import opened BpfVerifier
  import opened BpfWellFormed
  import opened X86
  import opened JitTranslate
  import opened JitSim
  import opened JitFrames

  /** The registers `st` says hold something. */
  ghost function Inited(st: VState): set<nat> { set r | 0 <= r < REG_CNT && !st.regs[r].NotInit? }

  lemma AluInit(i: Insn, is64: bool, st: VState)
    requires i.dst < REG_CNT && i.src < REG_CNT && VerifyAlu(i, is64, st).Some? && AluOpOf(i.code) != END
    ensures AluReads(Inited(st), i) && Inited(VerifyAlu(i, is64, st).value) <= Inited(st) + {i.dst}
  {
  }

  lemma LoadInit(b: Bounds, i: Insn, st: VState)
    requires i.dst < REG_CNT && i.src < REG_CNT && VerifyLoad(b, i, st).Some?
    ensures i.src in Inited(st) && Inited(VerifyLoad(b, i, st).value) <= Inited(st) + {i.dst}
  {
  }

  lemma StoreInit(b: Bounds, i: Insn, st: VState)
    requires i.dst < REG_CNT && i.src < REG_CNT && VerifyStore(b, i, st).Some? && ModeOf(i.code) == ModeMem
    ensures i.dst in Inited(st) && (ClassOf(i.code) == STX ==> i.src in Inited(st))
    ensures Inited(VerifyStore(b, i, st).value) <= Inited(st)
  {
  }

  lemma WideInit(p: Prog, pc: nat, i: Insn, st: VState)
    requires i.dst < REG_CNT && VerifyWide(p, pc, i, st).Some?
    ensures Inited(VerifyWide(p, pc, i, st).value) <= Inited(st) + {i.dst}
  {
  }

  lemma CondInit(p: Prog, pc: nat, i: Insn, st: VState, pc': nat, st': VState)
    requires i.dst < REG_CNT && i.src < REG_CNT && Continues(VerifyCond(p, pc, i, st), pc', st')
    ensures i.dst in Inited(st) && (SrcIsReg(i.code) ==> i.src in Inited(st)) && Inited(st') <= Inited(st)
  {
  }

  /** The argument loop looks at registers and leaves them alone. */
  lemma ArgInit(b: Bounds, proto: Proto, a: nat, s: Scan)
    requires a < |proto.args| <= 5 && CheckArg(b, proto, a, s).Some?
    ensures 1 + a in Inited(s.st) && CheckArg(b, proto, a, s).value.st.regs == s.st.regs
  {
  }

  lemma {:induction false} ArgsInit(b: Bounds, proto: Proto, a: nat, s: Scan)
    requires a <= |proto.args| <= 5 && CheckArgs(b, proto, a, s).Some?
    ensures forall r :: 1 + a <= r <= |proto.args| ==> r in Inited(s.st)
    ensures CheckArgs(b, proto, a, s).value.st.regs == s.st.regs
    decreases |proto.args| - a
  {
    if a < |proto.args| {
      ArgInit(b, proto, a, s);
      ArgsInit(b, proto, a + 1, CheckArg(b, proto, a, s).value);
      assert Inited(CheckArg(b, proto, a, s).value.st) == Inited(s.st);
    }
  }

  lemma ReleasedInit(s: Scan)
    ensures Inited(Released(s)) <= Inited(s.st)
  {
  }

  lemma AfterCallInit(st: VState, r0: Reg)
    ensures Inited(AfterCall(st, r0)) <= AfterCallSet(Inited(st))
  {
  }

  lemma FinishInit(b: Bounds, pc: nat, ret: RetType, s: Scan)
    requires FinishCall(b, pc, ret, s).Some?
    ensures Inited(FinishCall(b, pc, ret, s).value) <= AfterCallSet(Inited(s.st))
  {
    ReleasedInit(s);
    match ret
    case RetScalar => AfterCallInit(Released(s), Unknown);
    case RetMapValueOrNull => AfterCallInit(Released(s), PtrMapValue(s.argMap.value));
    case RetMemOrNull => AfterCallInit(Released(s), PtrMem(RefName(pc), s.st.regs[2].val));
  }

  lemma CallInit(b: Bounds, pc: nat, i: Insn, st: VState)
    requires VerifyCall(b, pc, i, st).Some?
    ensures CallReads(Inited(st), Low32(i.imm)) && Inited(VerifyCall(b, pc, i, st).value) <= AfterCallSet(Inited(st))
  {
    var proto := HelperOf(Low32(i.imm)).value;
    ArgsInit(b, proto, 0, Scan(st, None, None));
    FinishInit(b, pc, proto.ret, CheckArgs(b, proto, 0, Scan(st, None, None)).value);
  }

  // ---- what is left to the interpreter --------------------------------------

  /** BPF register 4 is rcx, where shift counts go. */
  predicate ShiftsInto4(i: Insn) { AluOpOf(i.code) in {LSH, RSH, ARSH} && SrcIsReg(i.code) && i.dst == 4 && i.src != 4 }

  /**
   * What the translator leaves to the interpreter: division, byte orders, a shift of register 4 by another, atomics,
   * jumps off the end.
   */
  predicate Interpreted(p: Prog, pc: nat)
    requires pc < |p.insns|
  {
    var i := p.insns[pc];
    match ClassOf(i.code)
    case ALU => AluOpOf(i.code) in {DIV, MOD, END} || ShiftsInto4(i)
    case ALU64 => AluOpOf(i.code) in {DIV, MOD} || ShiftsInto4(i)
    case STX => ModeOf(i.code) == ModeAtomic
    case JMP => JmpOpOf(i.code) == JA && pc + 1 + i.off >= |p.insns|
    case _ => false
  }

  lemma AluTranslates(i: Insn, is64: bool, st: VState)
    requires i.dst < REG_CNT && i.src < REG_CNT && VerifyAlu(i, is64, st).Some?
    requires ClassOf(i.code) == if is64 then ALU64 else ALU
    ensures XlateAlu(i).Some? <==> !(AluOpOf(i.code) in {DIV, MOD, END} || ShiftsInto4(i))
    ensures is64 ==> AluOpOf(i.code) != END
  {
    RcxIs4(i.dst);
    RcxIs4(i.src);
  }

  lemma RcxIs4(r: nat)
    requires r < REG_CNT
    ensures JitReg(r) == RCX <==> r == 4
  {
  }

  lemma JumpTranslates(b: Bounds, q: Req, pc: nat, i: Insn, st: VState)
    requires pc < |q.p.insns| && i == q.p.insns[pc] && i.dst < REG_CNT && i.src < REG_CNT
    requires ClassOf(i.code) in {JMP, JMP32}
    requires VerifyJump(b, q.p, pc, i, st) != Reject
    ensures XlateJump(q, pc, i, 0).Some? <==>
            !(ClassOf(i.code) == JMP && JmpOpOf(i.code) == JA && pc + 1 + i.off >= |q.p.insns|)
  {
  }

  /** An accepted instruction is translated exactly unless it is one of those. */
  lemma AcceptedTranslates(b: Bounds, q: Req, pc: nat, st: VState)
    requires pc < |q.p.insns| && VerifyInsn(b, q.p, pc, st) != Reject
    ensures Xlate(q, pc, 0).Some? <==> !Interpreted(q.p, pc)
  {
    var i := q.p.insns[pc];
    match ClassOf(i.code)
    case ALU => AluTranslates(i, false, st);
    case ALU64 => AluTranslates(i, true, st);
    case JMP => JumpTranslates(b, q, pc, i, st);
    case JMP32 => JumpTranslates(b, q, pc, i, st);
    case _ =>
  }
}
