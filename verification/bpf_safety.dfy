/**
 * Verifier soundness over whole runs. A certificate is what a finished walk leaves behind: a set of
 * stepped states, each accepted, each of whose successors an earlier or later stepped state covers.
 * Every run of a certified program stays safe, moves forward, and ends at EXIT holding no record.
 */
module BpfSafety {
  import opened Words
  import opened Memory
  import opened BpfInsn
  import opened BpfVerifier
  import opened BpfMachine
  import opened BpfWellFormed
  import opened BpfSoundness
  import opened BpfTyped
  import opened BpfStepSound

  // ---- certificates ---------------------------------------------------------

  ghost predicate Covered(steps: set<(nat, VState)>, pc: nat, st: VState) {
    exists o: VState :: (pc, o) in steps && StateCovers(o, st)
  }

  /** Every state the step at (pc, st) hands on is covered. */
  ghost predicate SuccessorsCovered(b: Bounds, p: Prog, steps: set<(nat, VState)>, pc: nat, st: VState)
    requires pc < |p.insns|
  {
    forall pc', st' :: Continues(VerifyInsn(b, p, pc, st), pc', st') ==> Covered(steps, pc', st')
  }

  /** A step the walk took: in range, not the second half of a wide load, well formed and accepted. */
  ghost predicate Stepped(b: Bounds, p: Prog, pc: nat, st: VState) {
    pc < |p.insns| && !Half(p.insns, pc) && StateWf(b, p, pc, st) && VerifyInsn(b, p, pc, st) != Reject
  }

  ghost predicate Certified(b: Bounds, p: Prog, steps: set<(nat, VState)>) {
    && ProgWf(b, p)
    && Covered(steps, 0, Start)
    && forall pc, st :: (pc, st) in steps ==> Stepped(b, p, pc, st) && SuccessorsCovered(b, p, steps, pc, st)
  }

  // ---- runs -----------------------------------------------------------------

  ghost predicate StepsNext(e: Env, p: Prog, m: Machine, m': Machine) {
    exists mem, h :: StepsTo(e, p, m, mem, h, Next(m'))
  }

  /** A run: from the machine bpf_run sets up, any number of steps, with memory off the frame changing at will. */
  ghost predicate IsRun(e: Env, p: Prog, tr: seq<Machine>) {
    && |tr| > 0 && Initial(e, tr[0])
    && forall k :: 0 <= k < |tr| - 1 ==> StepsNext(e, p, tr[k], tr[k + 1])
  }

  /** Some stepped state describes the machine. */
  ghost predicate Described(e: Env, steps: set<(nat, VState)>, m: Machine) {
    exists st: VState :: (m.pc, st) in steps && Gamma(e, st, m)
  }

  // ---- the start ------------------------------------------------------------

  lemma StartDescribed(e: Env, m: Machine)
    requires ValidEnv(e) && Initial(e, m)
    ensures Gamma(e, Start, m)
  {
    forall r | 0 <= r < REG_CNT
      ensures Means(e, m.live, Start.regs[r], m.regs[r])
    {
      WrapSmall(e.ctx);
      WrapSmall(e.fp);
    }
    assert |m.live| == 0;
  }

  lemma CoveredDescribed(e: Env, steps: set<(nat, VState)>, st: VState, m: Machine)
    requires Covered(steps, m.pc, st) && Gamma(e, st, m)
    ensures Described(e, steps, m)
  {
    var o: VState :| (m.pc, o) in steps && StateCovers(o, st);
    CoversIncludes(e, o, st, m);
  }

  // ---- one step of a run ----------------------------------------------------

  /** What holds of a described machine, whatever the memory around it and the helper it calls do. */
  lemma DescribedSteps(e: Env, p: Prog, steps: set<(nat, VState)>, m: Machine, mem: Mem, h: HelperEffect, o: Outcome)
    requires ValidEnv(e) && Certified(e.b, p, steps) && Described(e, steps, m) && StepsTo(e, p, m, mem, h, o)
    ensures StepSafe(e, p, m)
    ensures o != Fault
    ensures o.Exit? ==> m.live == map[] && m.reserved == m.committed
    ensures o.Next? ==> m.pc < o.m.pc && Described(e, steps, o.m)
  {
    var st: VState :| (m.pc, st) in steps && Gamma(e, st, m);
    var m1 := WithMem(m, mem);
    assert Stepped(e.b, p, m.pc, st) && SuccessorsCovered(e.b, p, steps, m.pc, st);
    SameFrameKeeps(e, st, m, mem);
    var st' := StepSimulated(e, p, st, m1, h);
    SafeWhatever(e, p, m, mem);
    if o.Next? {
      StepKeepsWf(e.b, p, m.pc, st, o.m.pc, st');
      CoveredDescribed(e, steps, st', o.m);
    }
  }

  /** Safety of a step does not depend on what memory holds. */
  lemma SafeWhatever(e: Env, p: Prog, m: Machine, mem: Mem)
    requires StepSafe(e, p, WithMem(m, mem))
    ensures StepSafe(e, p, m)
  {
    var m1 := WithMem(m, mem);
    assert m1.regs == m.regs && m1.live == m.live && m1.pc == m.pc;
    var i := p.insns[m.pc];
    if ClassOf(i.code) in {JMP, JMP32} && JmpOpOf(i.code) == CALL {
      var proto := HelperOf(Low32(i.imm)).value;
      forall a | 0 <= a < |proto.args|
        ensures ArgSafe(e, p, m, proto, a)
      {
        assert ArgSafe(e, p, m1, proto, a);
      }
    }
  }

  // ---- the theorem ----------------------------------------------------------

  lemma {:induction false} RunDescribed(e: Env, p: Prog, steps: set<(nat, VState)>, tr: seq<Machine>, k: nat)
    requires ValidEnv(e) && Certified(e.b, p, steps) && IsRun(e, p, tr) && k < |tr|
    ensures Described(e, steps, tr[k])
    ensures k <= tr[k].pc
    ensures k > 0 ==> tr[k - 1].pc < tr[k].pc
    decreases k
  {
    if k == 0 {
      StartDescribed(e, tr[0]);
      CoveredDescribed(e, steps, Start, tr[0]);
    } else {
      RunDescribed(e, p, steps, tr, k - 1);
      assert StepsNext(e, p, tr[k - 1], tr[k - 1 + 1]);
      var mem, h :| StepsTo(e, p, tr[k - 1], mem, h, Next(tr[k]));
      DescribedSteps(e, p, steps, tr[k - 1], mem, h, Next(tr[k]));
    }
  }

  /** Safety holds at a described machine even before it steps: helpers that keep their word exist. */
  lemma DescribedSafe(e: Env, p: Prog, steps: set<(nat, VState)>, m: Machine)
    requires ValidEnv(e) && Certified(e.b, p, steps) && Described(e, steps, m)
    ensures StepSafe(e, p, m)
  {
    var h := Effect(0, m.mem);
    DescribedSteps(e, p, steps, m, m.mem, h, StepOf(e, p, steps, m, h));
  }

  ghost function StepOf(e: Env, p: Prog, steps: set<(nat, VState)>, m: Machine, h: HelperEffect): Outcome
    requires Certified(e.b, p, steps) && Described(e, steps, m)
  {
    assert m.pc < |p.insns| by {
      var st: VState :| (m.pc, st) in steps && Gamma(e, st, m);
      assert Stepped(e.b, p, m.pc, st);
    }
    Step(e.b, p, WithMem(m, m.mem), h)
  }

  /** A state of the certificate describes the machine, and its next accesses land where that state's registers say. */
  ghost predicate TypedBy(e: Env, p: Prog, steps: set<(nat, VState)>, m: Machine) {
    exists st: VState :: (m.pc, st) in steps && Gamma(e, st, m) && AccessTyped(e, p, st, m)
  }

  lemma DescribedTyped(e: Env, p: Prog, steps: set<(nat, VState)>, m: Machine)
    requires ValidEnv(e) && Certified(e.b, p, steps) && Described(e, steps, m)
    ensures TypedBy(e, p, steps, m)
  {
    var st: VState :| (m.pc, st) in steps && Gamma(e, st, m);
    assert Stepped(e.b, p, m.pc, st);
    StepTyped(e, p, st, m);
  }

  /**
   * Every state of every run of a certified program: the next instruction is safe, its accesses land in the objects the
   * verifier typed them by, the program counter has moved strictly forward, and no run is longer than the program.
   */
  lemma RunsAreSafe(e: Env, p: Prog, steps: set<(nat, VState)>, tr: seq<Machine>)
    requires ValidEnv(e) && Certified(e.b, p, steps) && IsRun(e, p, tr)
    ensures forall k :: 0 <= k < |tr| ==> StepSafe(e, p, tr[k]) && TypedBy(e, p, steps, tr[k])
    ensures forall k :: 0 < k < |tr| ==> tr[k - 1].pc < tr[k].pc
    ensures |tr| <= |p.insns|
  {
    forall k | 0 <= k < |tr|
      ensures StepSafe(e, p, tr[k]) && TypedBy(e, p, steps, tr[k]) && (k > 0 ==> tr[k - 1].pc < tr[k].pc)
    {
      RunDescribed(e, p, steps, tr, k);
      DescribedSafe(e, p, steps, tr[k]);
      DescribedTyped(e, p, steps, tr[k]);
    }
    RunDescribed(e, p, steps, tr, |tr| - 1);
    assert StepSafe(e, p, tr[|tr| - 1]);
  }

  /**
   * Where a run goes from its last state: never off the end nor to an instruction the interpreter does
   * not know; either a longer run, or EXIT with every record reserved given back exactly once.
   */
  lemma RunsEndAtExit(e: Env, p: Prog, steps: set<(nat, VState)>, tr: seq<Machine>, mem: Mem, h: HelperEffect,
                      o: Outcome)
    requires ValidEnv(e) && Certified(e.b, p, steps) && IsRun(e, p, tr) && StepsTo(e, p, tr[|tr| - 1], mem, h, o)
    ensures match o
            case Fault => false
            case Next(m) => IsRun(e, p, tr + [m])
            case Exit(_) => tr[|tr| - 1].live == map[] && tr[|tr| - 1].reserved == tr[|tr| - 1].committed
  {
    var last := tr[|tr| - 1];
    RunDescribed(e, p, steps, tr, |tr| - 1);
    DescribedSteps(e, p, steps, last, mem, h, o);
    if o.Next? {
      var tr' := tr + [o.m];
      forall k | 0 <= k < |tr'| - 1
        ensures StepsNext(e, p, tr'[k], tr'[k + 1])
      {
        if k < |tr| - 1 { assert StepsNext(e, p, tr[k], tr[k + 1]); }
      }
    }
  }

  /**
   * The records a run holds are the reservations it made and has not given back, each under a name no later than the
   * instruction reached.
   */
  lemma ReservationsAccounted(e: Env, p: Prog, steps: set<(nat, VState)>, tr: seq<Machine>, k: nat)
    requires ValidEnv(e) && Certified(e.b, p, steps) && IsRun(e, p, tr) && k < |tr|
    ensures tr[k].reserved == tr[k].committed + |tr[k].live|
    ensures forall ref :: ref in tr[k].live ==> ref <= tr[k].pc
    ensures |tr[k].live| <= MAX_REFS
  {
    RunDescribed(e, p, steps, tr, k);
    var m := tr[k];
    var st: VState :| (m.pc, st) in steps && Gamma(e, st, m);
    assert Stepped(e.b, p, m.pc, st);
    SubsetSize(m.live.Keys, st.refs);
  }

  lemma {:induction false} SubsetSize(s: set<nat>, xs: seq<nat>)
    requires forall x :: x in s ==> x in xs
    ensures |s| <= |xs|
    decreases |xs|
  {
    if xs == [] {
      assert s == {};
    } else {
      SubsetSize(s - {xs[0]}, xs[1..]);
    }
  }

  // ---- certificates exist ---------------------------------------------------

  /** r0 = *(u64 *)(r1 + off); exit */
  function ContextReader(off: i16): Prog { Prog([Insn(0x79, 0, 1, off, 0), Insn(0x95, 0, 0, 0, 0)], [], 0) }

  const AfterRead: VState := State(StartRegs[0 := Unknown], NoSlots(), [])

  lemma ReadVerdict(b: Bounds, off: i16, st: VState)
    requires st.regs[1] == PtrCtx(0) || st.regs[1] == NotInit || st.regs[1].Scalar?
    ensures VerifyInsn(b, ContextReader(off), 0, st) ==
            if st.regs[1] == PtrCtx(0) && 0 <= off && off + 8 <= b.ctxSize then Go(1, SetReg(st, 0, Unknown))
                else Reject
  {
  }

  lemma ReaderCertified(b: Bounds, off: i16)
    requires 0 <= off && off + 8 <= b.ctxSize
    ensures Certified(b, ContextReader(off), {(0, Start), (1, AfterRead)})
  {
    var p, steps := ContextReader(off), {(0, Start), (1, AfterRead)};
    ReadVerdict(b, off, Start);
    assert SetReg(Start, 0, Unknown) == AfterRead;
    StartWf(b, p);
    StepKeepsWf(b, p, 0, Start, 1, AfterRead);
    assert VerifyInsn(b, p, 1, AfterRead) == Done;
    assert StateCovers(Start, Start) && StateCovers(AfterRead, AfterRead);
    assert (0, Start) in steps && (1, AfterRead) in steps;
  }

  /** The program that returns a word of its context has a certificate exactly when the word lies in the context. */
  lemma ReaderCertifiedIff(b: Bounds, off: i16)
    ensures (exists steps :: Certified(b, ContextReader(off), steps)) <==> 0 <= off && off + 8 <= b.ctxSize
  {
    if 0 <= off && off + 8 <= b.ctxSize { ReaderCertified(b, off); }
    forall steps | Certified(b, ContextReader(off), steps)
      ensures 0 <= off && off + 8 <= b.ctxSize
    {
      var o: VState :| (0, o) in steps && StateCovers(o, Start);
      assert RegCovers(o.regs[1], Start.regs[1]);
      ReadVerdict(b, off, o);
      assert Stepped(b, ContextReader(off), 0, o);
    }
  }
}
