/** Programs with certificates: one that lets a helper fill its context, one that reserves a record and submits it. */
module BpfExamples {
  import opened Words
  import opened Memory
  import opened BpfInsn
  import opened BpfVerifier
  import opened BpfMachine
  import opened BpfWellFormed
  import opened BpfSoundness
  import opened BpfTyped
  import opened BpfSafety

  /** All that (pc, st) hands on is in `steps`. */
  ghost predicate HandsOn(b: Bounds, p: Prog, steps: set<(nat, VState)>, pc: nat, st: VState) {
    pc < |p.insns| &&
    forall pc': nat, st': VState :: Continues(VerifyInsn(b, p, pc, st), pc', st') ==> (pc', st') in steps
  }

  lemma HandedCovered(b: Bounds, p: Prog, steps: set<(nat, VState)>, pc: nat, st: VState)
    requires HandsOn(b, p, steps, pc, st)
    ensures SuccessorsCovered(b, p, steps, pc, st)
  {
    forall pc', st' | Continues(VerifyInsn(b, p, pc, st), pc', st')
      ensures Covered(steps, pc', st')
    {
      SelfCovered(steps, pc', st');
    }
  }

  lemma SelfCovered(steps: set<(nat, VState)>, pc: nat, st: VState)
    requires (pc, st) in steps
    ensures Covered(steps, pc, st)
  {
    assert StateCovers(st, st);
  }

  /** A set of states certifies when each is well formed and accepted and hands on only members. */
  lemma ClosedCertifies(b: Bounds, p: Prog, steps: set<(nat, VState)>)
    requires ProgWf(b, p) && (0, Start) in steps
    requires forall pc, st :: (pc, st) in steps ==> Stepped(b, p, pc, st) && HandsOn(b, p, steps, pc, st)
    ensures Certified(b, p, steps)
  {
    SelfCovered(steps, 0, Start);
    forall pc, st | (pc, st) in steps
      ensures SuccessorsCovered(b, p, steps, pc, st)
    {
      HandedCovered(b, p, steps, pc, st);
    }
  }

  // ---- an output buffer in the context --------------------------------------

  const GET_CURRENT_COMM: int := 16

  /** r2 = 16; get_current_comm(r1, r2); exit, with the context still in r1 */
  function CommOnContext(): Prog {
    Prog([Insn(0xb7, 2, 0, 0, 16), Insn(0x85, 0, 0, 0, GET_CURRENT_COMM), Insn(0x95, 0, 0, 0, 0)], [], 0)
  }

  const Sized: VState := State(StartRegs[2 := Scalar(true, 16)], NoSlots(), [])

  const Named: VState := AfterCall(Sized, Unknown)

  lemma CommVerdicts(b: Bounds)
    requires b.ctxSize >= 16
    ensures VerifyInsn(b, CommOnContext(), 0, Start) == Go(1, Sized)
    ensures VerifyInsn(b, CommOnContext(), 2, Named) == Done
  {
    assert SetReg(Start, 2, Scalar(true, 16)) == Sized;
  }

  lemma CommCall(b: Bounds)
    requires b.ctxSize >= 16
    ensures VerifyInsn(b, CommOnContext(), 1, Sized) == Go(2, Named)
  {
    var proto := Proto([ArgUninitMem, ArgConstSize], RetScalar, 0);
    assert HelperOf(GET_CURRENT_COMM).value == proto;
    var s := Scan(Sized, None, None);
    assert CheckArg(b, proto, 0, s) == Some(s) && CheckArg(b, proto, 1, s) == Some(s);
    assert CheckArgs(b, proto, 1, s) == Some(s) && CheckArgs(b, proto, 0, s) == Some(s);
  }

  lemma CommHalves(pc: nat)
    requires pc < 3
    ensures !Half(CommOnContext().insns, pc)
    decreases pc
  {
  }

  lemma CommCertified(b: Bounds)
    requires b.ctxSize >= 16
    ensures Certified(b, CommOnContext(), {(0, Start), (1, Sized), (2, Named)})
  {
    var p := CommOnContext();
    CommVerdicts(b);
    CommCall(b);
    StartWf(b, p);
    StepKeepsWf(b, p, 0, Start, 1, Sized);
    StepKeepsWf(b, p, 1, Sized, 2, Named);
    CommHalves(0);
    CommHalves(1);
    CommHalves(2);
    ClosedCertifies(b, p, {(0, Start), (1, Sized), (2, Named)});
  }

  /** The machine that stands at the call. */
  function AtCall(m: Machine): Machine { m.(pc := 1, regs := m.regs[2 := 16]) }

  lemma CommFirst(e: Env, m: Machine, h: HelperEffect)
    requires m.pc == 0
    ensures Step(e.b, CommOnContext(), m, h) == Next(AtCall(m))
  {
  }

  /**
   * A verified program can have a helper fill its read-only context: get_current_comm is accepted on it, and the buffer
   * it is handed at run time is memory the program may not write.
   */
  lemma ContextFilled(e: Env, m: Machine)
    requires ValidEnv(e) && e.b.ctxSize >= 16 && Initial(e, m)
    ensures exists steps :: Certified(e.b, CommOnContext(), steps)
    ensures IsRun(e, CommOnContext(), [m, AtCall(m)])
    ensures HelperOf(GET_CURRENT_COMM).value.args[0] == ArgUninitMem
    ensures AtCall(m).regs[1] == e.ctx && AtCall(m).regs[2] == 16
    ensures !CanWrite(e, CommOnContext(), AtCall(m).live, e.ctx, 16)
  {
    CommCertified(e.b);
    var h := Effect(0, m.mem);
    CommFirst(e, WithMem(m, m.mem), h);
    assert StepsTo(e, CommOnContext(), m, m.mem, h, Next(AtCall(m)));
    assert StepsNext(e, CommOnContext(), m, AtCall(m));
  }

  // ---- a reservation --------------------------------------------------------

  /**
   * r1 = ring; r2 = 8; r3 = 0; r0 = ringbuf_reserve(r1, r2, r3); if r0 == 0 goto exit; r1 = r0; r2 = 0;
   * ringbuf_submit(r1, r2); exit
   */
  function Reserver(): Prog {
    Prog([Insn(WIDE, 1, 1, 0, RESOLVED), Insn(0, 0, 0, 0, 0), Insn(0xb7, 2, 0, 0, 8), Insn(0xb7, 3, 0, 0, 0),
          Insn(0x85, 0, 0, 0, RINGBUF_RESERVE), Insn(0x15, 0, 0, 3, 0), Insn(0xbf, 1, 0, 0, 0), Insn(0xb7, 2, 0, 0, 0),
          Insn(0x85, 0, 0, 0, RINGBUF_SUBMIT), Insn(0x95, 0, 0, 0, 0)], [0], 0)
  }

  /** The kernel's first map is a ring that lets eight bytes be reserved. */
  predicate HasRing(b: Bounds) { |b.defs| > 0 && b.defs[0].typ == MAP_RINGBUF && b.defs[0].maxEntries >= 32 }

  const R2: VState := State(StartRegs[1 := PtrMap(0)], NoSlots(), [])
  const R3: VState := State(StartRegs[1 := PtrMap(0)][2 := Scalar(true, 8)], NoSlots(), [])
  const R4: VState := State(StartRegs[1 := PtrMap(0)][2 := Scalar(true, 8)][3 := Scalar(true, 0)], NoSlots(), [])

  const Clobbered: seq<Reg> :=
    [NotInit, NotInit, NotInit, NotInit, NotInit, NotInit, NotInit, NotInit, NotInit, NotInit, PtrStack(0)]

  const R5: VState := State(Clobbered[0 := PtrMem(5, 8)], NoSlots(), [5])
  const R6: VState := State(Clobbered[0 := PtrMemOk(5, 8, 0)], NoSlots(), [5])
  const R7: VState := State(Clobbered[0 := PtrMemOk(5, 8, 0)][1 := PtrMemOk(5, 8, 0)], NoSlots(), [5])
  const R8: VState :=
    State(Clobbered[0 := PtrMemOk(5, 8, 0)][1 := PtrMemOk(5, 8, 0)][2 := Scalar(true, 0)], NoSlots(), [5])
  const R9: VState := State(Clobbered[0 := Unknown], NoSlots(), [])
  const N9: VState := State(Clobbered[0 := Scalar(true, 0)], NoSlots(), [])

  lemma RingLoads(b: Bounds)
    ensures VerifyInsn(b, Reserver(), 0, Start) == Go(2, R2)
    ensures VerifyInsn(b, Reserver(), 2, R2) == Go(3, R3)
    ensures VerifyInsn(b, Reserver(), 3, R3) == Go(4, R4)
  {
    assert SetReg(Start, 1, PtrMap(0)) == R2;
    assert SetReg(R2, 2, Scalar(true, 8)) == R3;
    assert SetReg(R3, 3, Scalar(true, 0)) == R4;
  }

  lemma RingReserves(b: Bounds)
    requires HasRing(b)
    ensures VerifyInsn(b, Reserver(), 4, R4) == Go(5, R5)
  {
    var proto := Proto([ArgConstMap, ArgAny, ArgAny], RetMemOrNull, MAP_RINGBUF);
    assert HelperOf(RINGBUF_RESERVE).value == proto;
    var s0, s := Scan(R4, None, None), Scan(R4, Some(0), None);
    assert CheckArg(b, proto, 0, s0) == Some(s);
    assert CheckArg(b, proto, 1, s) == Some(s) && CheckArg(b, proto, 2, s) == Some(s);
    assert CheckArgs(b, proto, 2, s) == Some(s) && CheckArgs(b, proto, 1, s) == Some(s);
    assert CheckArgs(b, proto, 0, s0) == Some(s);
    var after := AfterCall(R4, PtrMem(5, 8));
    assert after.regs == R5.regs && after.refs + [5] == R5.refs && RefName(4) == 5;
    assert after.(refs := after.refs + [5]) == R5;
    assert ReserveOk(b, s);
  }

  lemma RingTests(b: Bounds)
    ensures VerifyInsn(b, Reserver(), 5, R5) == Fork(6, R6, 9, N9)
  {
    assert OkArm(R5, 0).regs == R6.regs;
    OnlyRef();
    assert NullArm(R5, 0).regs == N9.regs;
  }

  lemma OnlyRef()
    ensures FindRef([5], 5) == Some(0) && DropRef([5], 0) == []
  {
  }

  lemma RingMoves(b: Bounds)
    ensures VerifyInsn(b, Reserver(), 6, R6) == Go(7, R7)
    ensures VerifyInsn(b, Reserver(), 7, R7) == Go(8, R8)
    ensures VerifyInsn(b, Reserver(), 9, R9) == Done && VerifyInsn(b, Reserver(), 9, N9) == Done
  {
    assert SetReg(R6, 1, PtrMemOk(5, 8, 0)) == R7;
    assert SetReg(R7, 2, Scalar(true, 0)) == R8;
  }

  lemma RingSubmits(b: Bounds)
    ensures VerifyInsn(b, Reserver(), 8, R8) == Go(9, R9)
  {
    var proto := Proto([ArgRingMem, ArgAny], RetScalar, 0);
    assert HelperOf(RINGBUF_SUBMIT).value == proto;
    var s0, s := Scan(R8, None, None), Scan(R8, None, Some(0));
    OnlyRef();
    assert CheckArg(b, proto, 0, s0) == Some(s) && CheckArg(b, proto, 1, s) == Some(s);
    assert CheckArgs(b, proto, 1, s) == Some(s) && CheckArgs(b, proto, 0, s0) == Some(s);
    assert Release(R8, 0).slots == NoSlots();
    assert AfterCall(Release(R8, 0), Unknown).regs == R9.regs;
  }

  lemma RingHalves(pc: nat)
    requires pc < 10
    ensures Half(Reserver().insns, pc) <==> pc == 1
    decreases pc
  {
    if pc > 0 { RingHalves(pc - 1); }
  }

  function RingSteps(): set<(nat, VState)> {
    {(0, Start), (2, R2), (3, R3), (4, R4), (5, R5), (6, R6), (7, R7), (8, R8), (9, R9), (9, N9)}
  }

  lemma RingWf(b: Bounds)
    requires HasRing(b)
    ensures forall pc, st :: (pc, st) in RingSteps() ==> StateWf(b, Reserver(), pc, st)
  {
    var p := Reserver();
    RingLoads(b);
    RingReserves(b);
    RingTests(b);
    RingMoves(b);
    RingSubmits(b);
    StartWf(b, p);
    StepKeepsWf(b, p, 0, Start, 2, R2);
    StepKeepsWf(b, p, 2, R2, 3, R3);
    StepKeepsWf(b, p, 3, R3, 4, R4);
    StepKeepsWf(b, p, 4, R4, 5, R5);
    StepKeepsWf(b, p, 5, R5, 6, R6);
    StepKeepsWf(b, p, 5, R5, 9, N9);
    StepKeepsWf(b, p, 6, R6, 7, R7);
    StepKeepsWf(b, p, 7, R7, 8, R8);
    StepKeepsWf(b, p, 8, R8, 9, R9);
  }

  /** The program that reserves a record and submits it has a certificate. */
  lemma RingCertified(b: Bounds)
    requires HasRing(b)
    ensures Certified(b, Reserver(), RingSteps())
  {
    RingWf(b);
    RingLoads(b);
    RingReserves(b);
    RingTests(b);
    RingMoves(b);
    RingSubmits(b);
    forall pc, st | (pc, st) in RingSteps()
      ensures Stepped(b, Reserver(), pc, st)
    {
      RingHalves(pc);
    }
    ClosedCertifies(b, Reserver(), RingSteps());
  }
}
