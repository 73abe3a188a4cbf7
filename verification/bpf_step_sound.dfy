/** Soundness of jumps, and of one whole instruction. */
module BpfStepSound {
  import opened Words
  import opened Memory
  import opened BpfInsn
  import opened BpfVerifier
  import opened BpfMachine
  import opened BpfWellFormed
  import opened BpfSoundness
  import opened BpfTyped
  import opened BpfInsnSound
  import opened BpfCallSound

  lemma GammaAt(e: Env, st: VState, m: Machine, pc: nat)
    requires Gamma(e, st, m)
    ensures Gamma(e, st, At(m, pc))
  {
    assert RecordsOk(e, At(m, pc));
  }

  // ---- the two arms of a NULL test ------------------------------------------

  lemma OkRegMeans(e: Env, st: VState, m: Machine, dst: nat, r: nat)
    requires Gamma(e, st, m) && dst < REG_CNT && r < REG_CNT && m.regs[dst] != 0
    ensures Means(e, m.live, OkReg(st, dst, r), m.regs[r])
  {
    var d, a := st.regs[dst], st.regs[r];
    assert Means(e, m.live, d, m.regs[dst]) && Means(e, m.live, a, m.regs[r]);
    WrapSmall(m.regs[r]);
  }

  /** Where the pointer is not NULL, it is the object it was said to be, and so is every copy of a reservation. */
  lemma OkArmSound(e: Env, st: VState, m: Machine, dst: nat)
    requires Gamma(e, st, m) && dst < REG_CNT && m.regs[dst] != 0
    ensures Gamma(e, OkArm(st, dst), m)
  {
    forall r | 0 <= r < REG_CNT
      ensures Means(e, m.live, OkArm(st, dst).regs[r], m.regs[r])
    {
      OkRegMeans(e, st, m, dst, r);
    }
  }

  lemma NullNotHeld(e: Env, st: VState, m: Machine, dst: nat)
    requires Gamma(e, st, m) && dst < REG_CNT && m.regs[dst] == 0 && st.regs[dst].PtrMem?
    ensures st.regs[dst].ref !in m.live
  {
    var ref := st.regs[dst].ref;
    assert Means(e, m.live, st.regs[dst], 0);
    assert forall r :: r in m.live ==> m.live[r].addr != 0;
  }

  lemma NullRegMeans(e: Env, st: VState, m: Machine, dst: nat, r: nat)
    requires Gamma(e, st, m) && dst < REG_CNT && r < REG_CNT && m.regs[dst] == 0
    ensures Means(e, m.live, NullReg(st, dst, r), m.regs[r])
  {
    assert Means(e, m.live, st.regs[r], m.regs[r]);
    if st.regs[dst].PtrMem? { NullNotHeld(e, st, m, dst); }
  }

  /** Where it is NULL, the reservation failed and is not held. */
  lemma NullArmSound(e: Env, st: VState, m: Machine, pc: nat, dst: nat)
    requires Gamma(e, st, m) && RefsWf(pc, st.refs) && dst < REG_CNT && m.regs[dst] == 0
    ensures Gamma(e, NullArm(st, dst), m)
  {
    forall r | 0 <= r < REG_CNT
      ensures Means(e, m.live, NullArm(st, dst).regs[r], m.regs[r])
    {
      NullRegMeans(e, st, m, dst, r);
    }
    var d := st.regs[dst];
    if d.PtrMem? && FindRef(st.refs, d.ref).Some? {
      NullNotHeld(e, st, m, dst);
      DropRefWf(pc, st.refs, FindRef(st.refs, d.ref).value);
    }
  }

  // ---- conditional jumps ----------------------------------------------------

  /** jmp_fold decides what the interpreter decides. */
  lemma JmpFoldAgrees(op: JmpOp, is64: bool, a: u64, b: u64)
    requires op !in {JA, CALL, EXIT, BadJmp}
    ensures JmpFold(op, is64, a, b).Some? && JmpRun(op, !is64, a, b) == JmpFold(op, is64, a, b)
  {
  }

  lemma NullTestSound(e: Env, st: VState, m: Machine, dst: nat)
    requires Gamma(e, st, m) && RefsWf(m.pc, st.refs) && dst < REG_CNT
    ensures m.regs[dst] == 0 ==> Gamma(e, NullArm(st, dst), m)
    ensures m.regs[dst] != 0 ==> Gamma(e, OkArm(st, dst), m)
  {
    if m.regs[dst] == 0 { NullArmSound(e, st, m, m.pc, dst); } else { OkArmSound(e, st, m, dst); }
  }

  predicate IsNullTest(i: Insn, d: Reg, sv: Reg) {
    (d.PtrMapValue? || d.PtrMem?) && ClassOf(i.code) == JMP && sv == Scalar(true, 0)
        && (JmpOpOf(i.code) == JEQ || JmpOpOf(i.code) == JNE)
  }

  function CondOperand(i: Insn, st: VState): Reg
    requires i.src < REG_CNT
  {
    if SrcIsReg(i.code) then st.regs[i.src] else Scalar(true, Wrap64(i.imm))
  }

  /** The state of the arm a conditional jump takes. */
  function CondState(p: Prog, pc: nat, i: Insn, st: VState, taken: bool): VState
    requires i.dst < REG_CNT && i.src < REG_CNT
  {
    match VerifyCond(p, pc, i, st)
    case Go(_, st1) => st1
    case Fork(_, st1, _, other) => if taken then other else st1
    case _ => st
  }

  function CondTarget(pc: nat, i: Insn, taken: bool): int { if taken then pc + 1 + i.off else pc + 1 }

  /** The machine takes the jump or does not. */
  ghost predicate Takes(i: Insn, m: Machine, taken: bool) {
    && i.dst < REG_CNT && i.src < REG_CNT
    && JmpRun(JmpOpOf(i.code), ClassOf(i.code) == JMP32, m.regs[i.dst], Operand(i, m)) == Some(taken)
  }

  /** The arm taken is one the verdict continues on: a comparison it decided itself goes the way the machine does. */
  lemma CondContinues(e: Env, p: Prog, i: Insn, st: VState, m: Machine, taken: bool)
    requires i.dst < REG_CNT && i.src < REG_CNT && Gamma(e, st, m) && VerifyCond(p, m.pc, i, st) != Reject
    requires JmpOpOf(i.code) !in {JA, CALL, EXIT, BadJmp} && ClassOf(i.code) in {JMP, JMP32}
    requires Takes(i, m, taken) && |p.insns| <= MAX_INSNS
    ensures CondTarget(m.pc, i, taken) == if taken then Low32(m.pc + 1 + i.off) else m.pc + 1
    ensures Continues(VerifyCond(p, m.pc, i, st), CondTarget(m.pc, i, taken), CondState(p, m.pc, i, st, taken))
  {
    assert Means(e, m.live, st.regs[i.dst], m.regs[i.dst]) && Means(e, m.live, CondOperand(i, st), Operand(i, m));
    JmpFoldAgrees(JmpOpOf(i.code), ClassOf(i.code) == JMP, m.regs[i.dst], Operand(i, m));
  }

  lemma CondGamma(e: Env, p: Prog, i: Insn, st: VState, m: Machine, taken: bool)
    requires i.dst < REG_CNT && i.src < REG_CNT && Gamma(e, st, m) && StateWf(e.b, p, m.pc, st)
    requires Takes(i, m, taken)
    ensures Gamma(e, CondState(p, m.pc, i, st, taken), m)
  {
    if IsNullTest(i, st.regs[i.dst], CondOperand(i, st)) {
      assert Means(e, m.live, CondOperand(i, st), Operand(i, m));
      NullTestSound(e, st, m, i.dst);
    }
  }

  /** What the verifier's verdict promises about the machine's step. */
  ghost predicate Simulates(e: Env, v: Verdict, m: Machine, o: Outcome, st': VState) {
    match o
    case Fault => false
    case Exit(_) => v.Done? && m.live == map[]
    case Next(m') => Continues(v, m'.pc, st') && Gamma(e, st', m')
  }

  lemma JumpStep(i: Insn, m: Machine, h: HelperEffect) returns (taken: bool)
    requires i.dst < REG_CNT && i.src < REG_CNT && ClassOf(i.code) in {JMP, JMP32}
    requires JmpOpOf(i.code) !in {JA, CALL, EXIT, BadJmp}
    ensures Takes(i, m, taken) && StepJump(i, m, h) == Next(At(m, if taken then Low32(m.pc + 1 + i.off) else m.pc + 1))
  {
    JmpFoldAgrees(JmpOpOf(i.code), ClassOf(i.code) == JMP, m.regs[i.dst], Operand(i, m));
    taken := JmpRun(JmpOpOf(i.code), ClassOf(i.code) == JMP32, m.regs[i.dst], Operand(i, m)).value;
  }

  /** Which way a conditional jump goes, and the state the verifier carries there. */
  lemma CondTaken(e: Env, p: Prog, i: Insn, st: VState, m: Machine, h: HelperEffect) returns (pc': nat, st': VState)
    requires i.dst < REG_CNT && i.src < REG_CNT && m.pc < |p.insns| <= MAX_INSNS && Gamma(e, st, m)
    requires StateWf(e.b, p, m.pc, st)
    requires ClassOf(i.code) in {JMP, JMP32} && JmpOpOf(i.code) !in {JA, CALL, EXIT, BadJmp}
    requires VerifyCond(p, m.pc, i, st) != Reject
    ensures StepJump(i, m, h) == Next(At(m, pc'))
    ensures Continues(VerifyCond(p, m.pc, i, st), pc', st') && Gamma(e, st', m)
  {
    var taken := JumpStep(i, m, h);
    CondContinues(e, p, i, st, m, taken);
    CondGamma(e, p, i, st, m, taken);
    pc', st' := CondTarget(m.pc, i, taken), CondState(p, m.pc, i, st, taken);
  }

  lemma CondSound(e: Env, p: Prog, i: Insn, st: VState, m: Machine, h: HelperEffect) returns (st': VState)
    requires i.dst < REG_CNT && i.src < REG_CNT && m.pc < |p.insns| <= MAX_INSNS && Gamma(e, st, m)
    requires StateWf(e.b, p, m.pc, st)
    requires ClassOf(i.code) in {JMP, JMP32} && JmpOpOf(i.code) !in {JA, CALL, EXIT, BadJmp}
    requires VerifyCond(p, m.pc, i, st) != Reject
    ensures Simulates(e, VerifyCond(p, m.pc, i, st), m, StepJump(i, m, h), st')
  {
    var pc';
    pc', st' := CondTaken(e, p, i, st, m, h);
    GammaAt(e, st', m, pc');
  }

  // ---- one instruction ------------------------------------------------------

  lemma JumpSound(e: Env, p: Prog, i: Insn, st: VState, m: Machine, h: HelperEffect) returns (st': VState)
    requires ValidEnv(e) && i.dst < REG_CNT && i.src < REG_CNT && m.pc < |p.insns| <= MAX_INSNS && Gamma(e, st, m)
    requires StateWf(e.b, p, m.pc, st)
    requires ClassOf(i.code) in {JMP, JMP32} && VerifyJump(e.b, p, m.pc, i, st) != Reject && HelperOk(e, p, i, m, h)
    ensures JmpOpOf(i.code) == CALL ==> CallSafe(e, p, i, m)
    ensures Simulates(e, VerifyJump(e.b, p, m.pc, i, st), m, StepJump(i, m, h), st')
  {
    st' := st;
    match JmpOpOf(i.code)
    case EXIT => assert forall ref :: ref in m.live ==> ref in st.refs;
    case CALL =>
      CallSound(e, p, i, st, m, h);
      st' := VerifyCall(e.b, m.pc, i, st).value;
    case JA => GammaAt(e, st, m, m.pc + 1 + i.off);
    case BadJmp =>
    case _ => st' := CondSound(e, p, i, st, m, h);
  }

  lemma StepSimulated(e: Env, p: Prog, st: VState, m: Machine, h: HelperEffect) returns (st': VState)
    requires ValidEnv(e) && ProgWf(e.b, p) && m.pc < |p.insns| && Gamma(e, st, m) && StateWf(e.b, p, m.pc, st)
    requires VerifyInsn(e.b, p, m.pc, st) != Reject && HelperOk(e, p, p.insns[m.pc], m, h)
    ensures StepSafe(e, p, m)
    ensures Simulates(e, VerifyInsn(e.b, p, m.pc, st), m, Step(e.b, p, m, h), st')
  {
    var i := p.insns[m.pc];
    st' := st;
    match ClassOf(i.code)
    case ALU => AluSound(e, i, st, m); st' := VerifyAlu(i, false, st).value;
    case ALU64 => AluSound(e, i, st, m); st' := VerifyAlu(i, true, st).value;
    case LDX =>
      LoadAddrSafe(e, p, i, st, m);
      LoadSound(e, p, i, st, m);
      st' := VerifyLoad(e.b, i, st).value;
    case ST => StoreSound(e, p, i, st, m); st' := VerifyStore(e.b, i, st).value;
    case STX => StoreSound(e, p, i, st, m); st' := VerifyStore(e.b, i, st).value;
    case LD => WideSound(e, p, i, st, m); st' := VerifyWide(p, m.pc, i, st).value;
    case JMP => st' := JumpSound(e, p, i, st, m, h);
    case JMP32 => st' := JumpSound(e, p, i, st, m, h);
  }

  /**
   * One instruction the verifier accepts: from every machine state it describes, its accesses are safe and land in the
   * objects its registers stand for, and what follows is described too.
   */
  lemma StepSound(e: Env, p: Prog, st: VState, m: Machine, h: HelperEffect) returns (st': VState)
    requires ValidEnv(e) && ProgWf(e.b, p) && m.pc < |p.insns| && Gamma(e, st, m) && StateWf(e.b, p, m.pc, st)
    requires VerifyInsn(e.b, p, m.pc, st) != Reject && HelperOk(e, p, p.insns[m.pc], m, h)
    ensures StepSafe(e, p, m) && AccessTyped(e, p, st, m)
    ensures Simulates(e, VerifyInsn(e.b, p, m.pc, st), m, Step(e.b, p, m, h), st')
  {
    st' := StepSimulated(e, p, st, m, h);
    StepTyped(e, p, st, m);
  }
}
