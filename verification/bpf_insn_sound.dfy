/** Soundness of the straight-line instructions: arithmetic, loads, stores and wide loads. */
module BpfInsnSound {
  import opened Words
  import opened Memory
  import opened BpfInsn
  import opened BpfVerifier
  import opened BpfMachine
  import opened BpfWellFormed
  import opened BpfSoundness

  function At(m: Machine, pc: nat): Machine { m.(pc := pc) }

  function WithReg(m: Machine, pc: nat, r: nat, v: u64): Machine
    requires r < REG_CNT
  {
    m.(pc := pc, regs := m.regs[r := v])
  }

  lemma GammaSet(e: Env, st: VState, m: Machine, pc: nat, r: nat, reg: Reg, v: u64)
    requires Gamma(e, st, m) && r < REG_CNT && Means(e, m.live, reg, v)
    ensures Gamma(e, SetReg(st, r, reg), WithReg(m, pc, r, v))
  {
    var st', m' := SetReg(st, r, reg), WithReg(m, pc, r, v);
    forall k | 0 <= k < REG_CNT
      ensures Means(e, m'.live, st'.regs[k], m'.regs[k])
    {
      assert Means(e, m.live, st.regs[k], m.regs[k]);
    }
    assert SlotsMean(e, m'.live, st'.slots, m'.mem);
    assert RecordsOk(e, m');
  }

  // ---- arithmetic -----------------------------------------------------------

  /** The bpf_run operand, as the verifier writes it down: truncation may come first or last. */
  lemma OperandTruncates(op: AluOp, is32: bool, d: u64, imm: i32)
    ensures AluRun(op, is32, d, Wrap64(imm)) == AluRun(op, is32, d, if is32 then Low32(imm) else Wrap64(imm))
  {
    assert Low32(Wrap64(imm)) == Low32(imm) == Low32(Low32(imm));
  }

  /** alu_fold computes what the interpreter computes. */
  lemma FoldAgrees(op: AluOp, is64: bool, a: u64, b: u64)
    requires AluFold(op, is64, a, b).Some?
    ensures AluRun(op, !is64, a, b) == AluFold(op, is64, a, b)
  {
  }

  /** A wrapped address moved by `w`, where `w` and `delta` agree modulo 2^64, is the address moved by `delta`. */
  lemma MoveWrapped(base: int, off: int, w: int, delta: int)
    requires delta == w || delta == w - M64 || delta == w + M64
    ensures Wrap64(Wrap64(base + off) + w) == Wrap64(base + (off + delta))
  {
    WrapAdd(base + off, w);
    WrapShift(base + off + w);
  }

  lemma WrapShift(x: int)
    ensures Wrap64(x - M64) == Wrap64(x) == Wrap64(x + M64)
  {
  }

  lemma MovePtrMeans(e: Env, live: map<nat, Rec>, d: Reg, dv: u64, w: int, delta: int)
    requires Means(e, live, d, dv) && (d.PtrStack? || d.PtrMapValueOk? || d.PtrMemOk?)
    requires delta == w || delta == w - M64 || delta == w + M64
    ensures Means(e, live, MovePtr(d, delta), Wrap64(dv + w))
  {
    match d
    case PtrStack(o) => MoveWrapped(e.fp, o, w, delta);
    case PtrMapValueOk(k, o) =>
      var el: u64 :| el in Def(e.b, k).elems && dv == Wrap64(el + o);
      MoveWrapped(el, o, w, delta);
    case PtrMemOk(ref, sz, o) => MoveWrapped(live[ref].addr, o, w, delta);
  }

  lemma AddRuns(dv: u64, w: u64)
    ensures AluRun(ADD, false, dv, w) == Some(Wrap64(dv + w)) && AluRun(SUB, false, dv, w) == Some(Wrap64(dv - w))
  {
  }

  lemma PointerMoves(e: Env, live: map<nat, Rec>, i: Insn, op: AluOp, is64: bool, d: Reg, sv: Reg, dv: u64, w: u64)
    requires Means(e, live, d, dv) && Means(e, live, sv, w) && IsPtr(d) && op != MOV
    requires AluResult(i, op, is64, d, sv).Some?
    ensures AluRun(op, !is64, dv, w).Some?
    ensures Means(e, live, AluResult(i, op, is64, d, sv).value, AluRun(op, !is64, dv, w).value)
  {
    AddRuns(dv, w);
    if op == ADD { MovePtrMeans(e, live, d, dv, w, S64(w)); } else { MovePtrMeans(e, live, d, dv, 0 - w, 0 - S64(w)); }
  }

  lemma ScalarResult(e: Env, live: map<nat, Rec>, i: Insn, op: AluOp, is64: bool, d: Reg, sv: Reg, dv: u64, w: u64)
    requires Means(e, live, d, dv) && Means(e, live, sv, w) && op !in {NEG, END, BadAlu} && (op == MOV || d.Scalar?)
    requires AluResult(i, op, is64, d, sv).Some?
    ensures AluRun(op, !is64, dv, w).Some?
    ensures Means(e, live, AluResult(i, op, is64, d, sv).value, AluRun(op, !is64, dv, w).value)
  {
    if op != MOV && d.known && sv.Scalar? && sv.known && AluFold(op, is64, d.val, sv.val).Some? {
      FoldAgrees(op, is64, d.val, sv.val);
    }
  }

  /** The value that stands for the operand in the verifier's terms. */
  function OperandValue(i: Insn, is64: bool, m: Machine): u64
    requires i.src < REG_CNT
  {
    if SrcIsReg(i.code) then m.regs[i.src] else if is64 then Wrap64(i.imm) else Low32(i.imm)
  }

  /** The register an accepted two-operand instruction leaves is described by what the verifier says of it. */
  lemma BinarySound(e: Env, i: Insn, is64: bool, st: VState, m: Machine)
    requires i.dst < REG_CNT && i.src < REG_CNT && Gamma(e, st, m)
    requires AluOpOf(i.code) !in {NEG, END, BadAlu} && AluOperand(i, is64, st).Some?
    requires AluResult(i, AluOpOf(i.code), is64, st.regs[i.dst], AluOperand(i, is64, st).value).Some?
    ensures AluRun(AluOpOf(i.code), !is64, m.regs[i.dst], Operand(i, m)).Some?
    ensures Means(e, m.live, AluResult(i, AluOpOf(i.code), is64, st.regs[i.dst], AluOperand(i, is64, st).value).value,
                  AluRun(AluOpOf(i.code), !is64, m.regs[i.dst], Operand(i, m)).value)
  {
    var op, d, dv := AluOpOf(i.code), st.regs[i.dst], m.regs[i.dst];
    var sv, w := AluOperand(i, is64, st).value, OperandValue(i, is64, m);
    OperandTruncates(op, !is64, dv, i.imm);
    assert Means(e, m.live, d, dv) && Means(e, m.live, st.regs[i.src], m.regs[i.src]);
    if op != MOV && IsPtr(d) {
      PointerMoves(e, m.live, i, op, is64, d, sv, dv, w);
    } else {
      ScalarResult(e, m.live, i, op, is64, d, sv, dv, w);
    }
  }

  lemma NegLow(y: int)
    requires 0 <= y < M32
    ensures Low32(Wrap64(-y)) == Low32(-y) == Low32(-(y - M32))
  {
    if y > 0 { assert Wrap64(-y) == M64 - y; }
  }

  lemma NegSound(e: Env, live: map<nat, Rec>, i: Insn, is64: bool, st: VState, v: u64)
    requires i.dst < REG_CNT && i.src < REG_CNT && Means(e, live, st.regs[i.dst], v)
    requires AluOpOf(i.code) == NEG && VerifyAlu(i, is64, st).Some?
    ensures AluRun(NEG, !is64, v, Wrap64(i.imm)).Some?
    ensures Means(e, live, VerifyAlu(i, is64, st).value.regs[i.dst], AluRun(NEG, !is64, v, Wrap64(i.imm)).value)
    ensures VerifyAlu(i, is64, st).value == SetReg(st, i.dst, VerifyAlu(i, is64, st).value.regs[i.dst])
  {
    NegLow(Low32(v));
    assert st.regs == st.regs[i.dst := st.regs[i.dst]];
  }

  lemma AluSound(e: Env, i: Insn, st: VState, m: Machine)
    requires i.dst < REG_CNT && i.src < REG_CNT && Gamma(e, st, m)
    requires ClassOf(i.code) in {ALU, ALU64} && VerifyAlu(i, ClassOf(i.code) == ALU64, st).Some?
    ensures StepAlu(i, m).Next? && StepAlu(i, m).m.pc == m.pc + 1
    ensures Gamma(e, VerifyAlu(i, ClassOf(i.code) == ALU64, st).value, StepAlu(i, m).m)
  {
    var is64 := ClassOf(i.code) == ALU64;
    assert Means(e, m.live, st.regs[i.dst], m.regs[i.dst]);
    var v := AluValue(e, i, is64, st, m);
    GammaSet(e, st, m, m.pc + 1, i.dst, VerifyAlu(i, is64, st).value.regs[i.dst], v);
  }

  /** The value an accepted ALU instruction leaves in dst, and that the verifier describes it. */
  lemma AluValue(e: Env, i: Insn, is64: bool, st: VState, m: Machine) returns (v: u64)
    requires i.dst < REG_CNT && i.src < REG_CNT && Gamma(e, st, m)
    requires is64 == (ClassOf(i.code) == ALU64) && ClassOf(i.code) in {ALU, ALU64} && VerifyAlu(i, is64, st).Some?
    ensures StepAlu(i, m) == Next(WithReg(m, m.pc + 1, i.dst, v))
    ensures VerifyAlu(i, is64, st).value == SetReg(st, i.dst, VerifyAlu(i, is64, st).value.regs[i.dst])
    ensures Means(e, m.live, VerifyAlu(i, is64, st).value.regs[i.dst], v)
  {
    var op := AluOpOf(i.code);
    if op == END {
      v := EndRun(i.imm, SrcIsReg(i.code), m.regs[i.dst]);
    } else if op == NEG {
      assert Means(e, m.live, st.regs[i.dst], m.regs[i.dst]);
      NegSound(e, m.live, i, is64, st, m.regs[i.dst]);
      v := AluRun(NEG, !is64, m.regs[i.dst], Operand(i, m)).value;
    } else {
      BinarySound(e, i, is64, st, m);
      v := AluRun(op, !is64, m.regs[i.dst], Operand(i, m)).value;
    }
  }

  // ---- loads ----------------------------------------------------------------

  /** A whole slot of the frame, by its byte offset. */
  lemma WholeSlot(e: Env, at: int)
    requires STACK_SIZE < e.fp && -STACK_SIZE <= at && at + 8 <= 0 && (at + STACK_SIZE) % 8 == 0
    ensures 0 <= (at + STACK_SIZE) / 8 < SLOTS && SlotAddr(e, (at + STACK_SIZE) / 8) == e.fp + at
    ensures forall s {:trigger Touches(at + STACK_SIZE, 8, s)} :: Touches(at + STACK_SIZE, 8, s) ==>
            s == (at + STACK_SIZE) / 8
  {
  }

  /** The register state the verifier gives a load. */
  function LoadedReg(i: Insn, st: VState): Reg
    requires i.src < REG_CNT
    requires (st.regs[i.src].PtrStack? ==> -STACK_SIZE <= st.regs[i.src].off + i.off <= 0 - Bytes(i.code))
  {
    var q := st.regs[i.src];
    if q.PtrStack? && Bytes(i.code) == 8 && (q.off + i.off + STACK_SIZE) % 8 == 0
        && st.slots[(q.off + i.off + STACK_SIZE) / 8].Spill?
    then st.slots[(q.off + i.off + STACK_SIZE) / 8].reg else Unknown
  }

  lemma LoadedMeans(e: Env, i: Insn, st: VState, m: Machine)
    requires i.src < REG_CNT && Gamma(e, st, m)
    requires st.regs[i.src].PtrStack? ==> -STACK_SIZE <= st.regs[i.src].off + i.off <= 0 - Bytes(i.code)
    requires st.regs[i.src].PtrStack? ==> LoadAddr(i, m) == e.fp + st.regs[i.src].off + i.off
    requires Load(m.mem, LoadAddr(i, m), Bytes(i.code)) < M64
    ensures Means(e, m.live, LoadedReg(i, st), Load(m.mem, LoadAddr(i, m), Bytes(i.code)))
  {
    var q := st.regs[i.src];
    if q.PtrStack? && Bytes(i.code) == 8 && (q.off + i.off + STACK_SIZE) % 8 == 0 {
      WholeSlot(e, q.off + i.off);
      var s := (q.off + i.off + STACK_SIZE) / 8;
      assert SlotMeans(e, m.live, st.slots[s], SlotValue(e, m.mem, s));
    }
  }

  lemma LoadAddrSafe(e: Env, p: Prog, i: Insn, st: VState, m: Machine)
    requires ValidEnv(e) && i.dst < REG_CNT && i.src < REG_CNT
    requires Gamma(e, st, m) && StateWf(e.b, p, m.pc, st) && VerifyLoad(e.b, i, st).Some?
    ensures CanRead(e, p, m.live, LoadAddr(i, m), Bytes(i.code))
    ensures st.regs[i.src].PtrStack? ==> LoadAddr(i, m) == e.fp + st.regs[i.src].off + i.off
  {
    var q := st.regs[i.src];
    assert Means(e, m.live, q, m.regs[i.src]) && RegWf(e.b, p, m.pc, q);
    PointedReadable(e, p, m, m.pc, q, m.regs[i.src], i.off, Bytes(i.code));
    if q.PtrStack? { PointedStack(e, q.off, m.regs[i.src], i.off, Bytes(i.code)); }
  }

  lemma LoadSound(e: Env, p: Prog, i: Insn, st: VState, m: Machine)
    requires ValidEnv(e) && i.dst < REG_CNT && i.src < REG_CNT
    requires Gamma(e, st, m) && StateWf(e.b, p, m.pc, st) && VerifyLoad(e.b, i, st).Some?
    ensures StepLoad(i, m).Next? && StepLoad(i, m).m.pc == m.pc + 1
    ensures Gamma(e, VerifyLoad(e.b, i, st).value, StepLoad(i, m).m)
  {
    LoadAddrSafe(e, p, i, st, m);
    Pow256Values();
    LoadedMeans(e, i, st, m);
    GammaSet(e, st, m, m.pc + 1, i.dst, LoadedReg(i, st), Load(m.mem, LoadAddr(i, m), Bytes(i.code)));
  }

  lemma WideSound(e: Env, p: Prog, i: Insn, st: VState, m: Machine)
    requires m.pc < |p.insns| && i.dst < REG_CNT && Gamma(e, st, m) && VerifyWide(p, m.pc, i, st).Some?
    ensures StepWide(e.b, p, i, m).Next? && StepWide(e.b, p, i, m).m.pc == m.pc + 2
    ensures Gamma(e, VerifyWide(p, m.pc, i, st).value, StepWide(e.b, p, i, m).m)
  {
    GammaSet(e, st, m, m.pc + 2, i.dst, VerifyWide(p, m.pc, i, st).value.regs[i.dst],
             StepWide(e.b, p, i, m).m.regs[i.dst]);
  }

  // ---- stores ---------------------------------------------------------------

  function Stored(m: Machine, pc: nat, mem: Mem): Machine { m.(pc := pc, mem := mem) }

  /** A store on the frame: untouched slots keep their meaning, a whole aligned register becomes a spill. */
  lemma StackStoreSound(e: Env, st: VState, m: Machine, pc: nat, at: int, n: nat, v: u64, spilled: Option<Reg>)
    requires Gamma(e, st, m) && n in {1, 2, 4, 8} && -STACK_SIZE <= at && at + n <= 0
    requires spilled.Some? ==> Means(e, m.live, spilled.value, v)
    ensures Gamma(e, StackWrite(st, at, n, spilled), Stored(m, pc, Store(m.mem, e.fp + at, n, v)))
  {
    var mem' := Store(m.mem, e.fp + at, n, v);
    var st' := StackWrite(st, at, n, spilled);
    forall s | 0 <= s < SLOTS
      ensures SlotMeans(e, m.live, st'.slots[s], SlotValue(e, mem', s))
    {
      if Touches(at + STACK_SIZE, n, s) {
        StackSpillSound(e, st, m, at, n, v, spilled, s);
      } else {
        StoreOnFrame(e, m.mem, at, n, v, s);
        assert SlotMeans(e, m.live, st.slots[s], SlotValue(e, m.mem, s));
      }
    }
    assert RecordsOk(e, Stored(m, pc, mem'));
  }

  lemma StackSpillSound(e: Env, st: VState, m: Machine, at: int, n: nat, v: u64, spilled: Option<Reg>, s: nat)
    requires STACK_SIZE < e.fp && n in {1, 2, 4, 8} && -STACK_SIZE <= at && at + n <= 0
    requires spilled.Some? ==> Means(e, m.live, spilled.value, v)
    requires s < SLOTS && Touches(at + STACK_SIZE, n, s)
    ensures SlotMeans(e, m.live, StackWrite(st, at, n, spilled).slots[s],
                      SlotValue(e, Store(m.mem, e.fp + at, n, v), s))
  {
    if spilled.Some? && n == 8 && (at + STACK_SIZE) % 8 == 0 {
      WholeSlot(e, at);
      StoredWord(m.mem, e.fp + at, n, v);
    } else {
      assert StackWrite(st, at, n, spilled).slots[s] == Misc;
    }
  }

  lemma StoredWord(mem: Mem, a: u64, n: nat, v: u64)
    requires n == 8
    ensures Load(Store(mem, a, n, v), a, n) == v
  {
    LoadStored(mem, a, n, v);
    EightBytes(n);
    WrapSmall(v);
  }

  lemma EightBytes(n: nat)
    requires n == 8
    ensures Pow256(n) == M64
  {
    Pow256Values();
  }

  /** A store elsewhere leaves everything the state says alone. */
  lemma OffFrameStoreSound(e: Env, st: VState, m: Machine, pc: nat, a: u64, n: nat, v: u64)
    requires Gamma(e, st, m) && n <= 8 && a + n <= M64 && OffFrame(e, a, n)
    ensures Gamma(e, st, Stored(m, pc, Store(m.mem, a, n, v)))
  {
    StoreOffFrame(e, m.mem, a, n, v);
    SameFrameKeeps(e, st, m, Store(m.mem, a, n, v));
  }

  lemma StoreAddrSafe(e: Env, p: Prog, i: Insn, st: VState, m: Machine)
    requires ValidEnv(e) && i.dst < REG_CNT && i.src < REG_CNT
    requires Gamma(e, st, m) && StateWf(e.b, p, m.pc, st) && StoreOk(e.b, i, st)
    ensures CanWrite(e, p, m.live, StoreAddr(i, m), Bytes(i.code))
    ensures st.regs[i.dst].PtrStack? ==> StoreAddr(i, m) == e.fp + st.regs[i.dst].off + i.off
    ensures !st.regs[i.dst].PtrStack? ==>
            StoreAddr(i, m) + Bytes(i.code) <= M64 && OffFrame(e, StoreAddr(i, m), Bytes(i.code))
  {
    var q := st.regs[i.dst];
    assert Means(e, m.live, q, m.regs[i.dst]) && RegWf(e.b, p, m.pc, q);
    Pointed(e, p, m, m.pc, q, m.regs[i.dst], i.off, Bytes(i.code));
  }

  lemma StackMemorySound(e: Env, i: Insn, st: VState, m: Machine, v: u64)
    requires i.dst < REG_CNT && i.src < REG_CNT && Gamma(e, st, m) && st.regs[i.dst].PtrStack?
    requires -STACK_SIZE <= st.regs[i.dst].off + i.off && st.regs[i.dst].off + i.off + Bytes(i.code) <= 0
    requires StoreAddr(i, m) == e.fp + st.regs[i.dst].off + i.off
    requires SpilledReg(i, st).Some? ==> Means(e, m.live, SpilledReg(i, st).value, v)
    ensures Gamma(e, StackState(i, st), Stored(m, m.pc + 1, Store(m.mem, StoreAddr(i, m), Bytes(i.code), v)))
  {
    StackStoreSound(e, st, m, m.pc + 1, st.regs[i.dst].off + i.off, Bytes(i.code), v, SpilledReg(i, st));
  }

  /** Writing `v` where an accepted store points, plainly or as the result of an atomic. */
  lemma MemorySound(e: Env, p: Prog, i: Insn, st: VState, m: Machine, v: u64)
    requires ValidEnv(e) && i.dst < REG_CNT && i.src < REG_CNT
    requires Gamma(e, st, m) && StateWf(e.b, p, m.pc, st) && StoreOk(e.b, i, st)
    requires SpilledReg(i, st).Some? ==> Means(e, m.live, SpilledReg(i, st).value, v)
    ensures Gamma(e, StackState(i, st), Stored(m, m.pc + 1, Store(m.mem, StoreAddr(i, m), Bytes(i.code), v)))
  {
    StoreAddrSafe(e, p, i, st, m);
    if st.regs[i.dst].PtrStack? {
      StackMemorySound(e, i, st, m, v);
    } else {
      OffFrameStoreSound(e, st, m, m.pc + 1, StoreAddr(i, m), Bytes(i.code), v);
    }
  }

  /** The state after the memory half of a store. */
  function StackState(i: Insn, st: VState): VState
    requires i.dst < REG_CNT && i.src < REG_CNT
    requires st.regs[i.dst].PtrStack? ==>
             -STACK_SIZE <= st.regs[i.dst].off + i.off && st.regs[i.dst].off + i.off + Bytes(i.code) <= 0
  {
    if st.regs[i.dst].PtrStack? then StackWrite(st, st.regs[i.dst].off + i.off, Bytes(i.code), SpilledReg(i, st))
        else st
  }

  lemma StoreShape(b: Bounds, i: Insn, st: VState)
    requires i.dst < REG_CNT && i.src < REG_CNT && VerifyStore(b, i, st).Some?
    ensures StoreOk(b, i, st) && VerifyStore(b, i, st).value == Fetched(i, StackState(i, st))
  {
  }

  lemma PlainStoreSound(e: Env, p: Prog, i: Insn, st: VState, m: Machine)
    requires ValidEnv(e) && i.dst < REG_CNT && i.src < REG_CNT && ClassOf(i.code) in {ST, STX}
    requires Gamma(e, st, m) && StateWf(e.b, p, m.pc, st) && StoreOk(e.b, i, st) && ModeOf(i.code) == ModeMem
    ensures StepStore(i, m).Next? && StepStore(i, m).m.pc == m.pc + 1
    ensures Gamma(e, StackState(i, st), StepStore(i, m).m)
  {
    assert Means(e, m.live, st.regs[i.src], m.regs[i.src]);
    MemorySound(e, p, i, st, m, StoredValue(i, m));
  }

  /** Slots made plain data by a write that did not happen after all are still described. */
  lemma ForgetSound(e: Env, st: VState, m: Machine, pc: nat, at: int, n: nat)
    requires Gamma(e, st, m) && n > 0 && -STACK_SIZE <= at && at + n <= 0
    ensures Gamma(e, StackWrite(st, at, n, None), At(m, pc))
  {
    var st' := StackWrite(st, at, n, None);
    forall s | 0 <= s < SLOTS
      ensures SlotMeans(e, m.live, st'.slots[s], SlotValue(e, m.mem, s))
    {
      assert SlotMeans(e, m.live, st.slots[s], SlotValue(e, m.mem, s));
    }
    assert RecordsOk(e, At(m, pc));
  }

  lemma AtomicMemSound(e: Env, p: Prog, i: Insn, st: VState, m: Machine)
    requires ValidEnv(e) && i.dst < REG_CNT && i.src < REG_CNT
    requires Gamma(e, st, m) && StateWf(e.b, p, m.pc, st) && StoreOk(e.b, i, st) && ModeOf(i.code) == ModeAtomic
    ensures Gamma(e, StackState(i, st), Stored(m, m.pc + 1, AtomicMem(i, m)))
  {
    assert AtomicBytes(i.code) == Bytes(i.code);
    match AtomicNew(i, m)
    case Some(v) => MemorySound(e, p, i, st, m, v);
    case None =>
      var q := st.regs[i.dst];
      if q.PtrStack? { ForgetSound(e, st, m, m.pc + 1, q.off + i.off, Bytes(i.code)); }
      assert RecordsOk(e, At(m, m.pc + 1));
  }

  /** The register an atomic the verifier allows puts the old contents in. */
  function FetchReg(i: Insn): nat { if i.imm == CMPXCHG then 0 else i.src }

  lemma FetchesWhere(i: Insn, m: Machine)
    requires i.dst < REG_CNT && i.src < REG_CNT && AtomicOk(i.imm)
    ensures AtomicRegs(i, m) == if i.imm % 2 == 1 then m.regs[FetchReg(i) := AtomicOld(i, m)] else m.regs
  {
  }

  lemma FetchSound(e: Env, i: Insn, st: VState, m: Machine, v: u64)
    requires i.src < REG_CNT && Gamma(e, st, m) && ModeOf(i.code) == ModeAtomic
    ensures Gamma(e, Fetched(i, st), if i.imm % 2 == 1 then WithReg(m, m.pc, FetchReg(i), v) else m)
  {
    if i.imm % 2 == 1 { GammaSet(e, st, m, m.pc, FetchReg(i), Unknown, v); }
  }

  lemma AtomicSound(e: Env, p: Prog, i: Insn, st: VState, m: Machine)
    requires ValidEnv(e) && i.dst < REG_CNT && i.src < REG_CNT
    requires Gamma(e, st, m) && StateWf(e.b, p, m.pc, st) && StoreOk(e.b, i, st) && ModeOf(i.code) == ModeAtomic
    ensures StepStore(i, m).Next? && StepStore(i, m).m.pc == m.pc + 1
    ensures Gamma(e, Fetched(i, StackState(i, st)), StepStore(i, m).m)
  {
    AtomicMemSound(e, p, i, st, m);
    FetchSound(e, i, StackState(i, st), Stored(m, m.pc + 1, AtomicMem(i, m)), AtomicOld(i, m));
    FetchesWhere(i, m);
  }

  lemma StoreSound(e: Env, p: Prog, i: Insn, st: VState, m: Machine)
    requires ValidEnv(e) && i.dst < REG_CNT && i.src < REG_CNT && ClassOf(i.code) in {ST, STX}
    requires Gamma(e, st, m) && StateWf(e.b, p, m.pc, st) && VerifyStore(e.b, i, st).Some?
    ensures CanWrite(e, p, m.live, StoreAddr(i, m), Bytes(i.code))
    ensures StepStore(i, m).Next? && StepStore(i, m).m.pc == m.pc + 1
    ensures Gamma(e, VerifyStore(e.b, i, st).value, StepStore(i, m).m)
  {
    StoreShape(e.b, i, st);
    StoreAddrSafe(e, p, i, st, m);
    if ModeOf(i.code) == ModeAtomic { AtomicSound(e, p, i, st, m); } else { PlainStoreSound(e, p, i, st, m); }
  }
}
