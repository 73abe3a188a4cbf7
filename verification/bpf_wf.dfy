/**
 * What every abstract state of an accepted walk keeps: maps are the program's own, reservation
 * names are distinct and no newer than the instruction reached, offsets stay far inside 64 bits,
 * and r10 is the frame pointer. One instruction preserves it, and moves strictly forward.
 */
module BpfWellFormed {
  import opened Words
  import opened BpfInsn
  import opened BpfVerifier

  /** |off| after `pc` instructions that each move a pointer by at most MAX_MOVE. */
  predicate Reach(off: int, pc: nat) { -(MAX_MOVE * pc) <= off <= MAX_MOVE * pc }

  predicate RegWf(b: Bounds, p: Prog, pc: nat, r: Reg) {
    match r
    case PtrCtx(off) => off == 0
    case PtrStack(off) => Reach(off, pc)
    case PtrMapValue(k) => k in p.maps && k < |b.defs|
    case PtrMapValueOk(k, off) => k in p.maps && k < |b.defs| && Reach(off, pc)
    case PtrMap(k) => k in p.maps && k < |b.defs|
    case PtrMem(ref, _) => ref <= pc
    case PtrMemOk(ref, _, off) => ref <= pc && Reach(off, pc)
    case _ => true
  }

  predicate SlotWf(b: Bounds, p: Prog, pc: nat, s: Slot) {
    s.Spill? ==> !s.reg.NotInit? && RegWf(b, p, pc, s.reg)
  }

  ghost predicate RefsWf(pc: nat, refs: seq<nat>) {
    && |refs| <= MAX_REFS
    && (forall k :: 0 <= k < |refs| ==> refs[k] <= pc)
    && (forall k, l :: 0 <= k < l < |refs| ==> refs[k] != refs[l])
  }

  ghost predicate StateWf(b: Bounds, p: Prog, pc: nat, st: VState) {
    && (forall r :: 0 <= r < REG_CNT ==> RegWf(b, p, pc, st.regs[r]))
    && (forall s :: 0 <= s < SLOTS ==> SlotWf(b, p, pc, st.slots[s]))
    && RefsWf(pc, st.refs)
    && st.regs[10] == PtrStack(0)
  }

  /** A program short enough that reservation names do not repeat, holding only maps of the kernel's table. */
  ghost predicate ProgWf(b: Bounds, p: Prog) {
    && |p.insns| <= MAX_INSNS && |p.maps| <= PROG_MAX_MAPS
    && (forall k :: k in p.maps ==> k < |b.defs|)
  }

  lemma StartWf(b: Bounds, p: Prog)
    ensures StateWf(b, p, 0, Start)
  {
  }

  lemma WfLater(b: Bounds, p: Prog, pc: nat, pc': nat, st: VState)
    requires StateWf(b, p, pc, st) && pc <= pc'
    ensures StateWf(b, p, pc', st)
  {
    forall r | 0 <= r < REG_CNT
      ensures RegWf(b, p, pc', st.regs[r])
    {
      assert RegWf(b, p, pc, st.regs[r]);
    }
    forall s | 0 <= s < SLOTS
      ensures SlotWf(b, p, pc', st.slots[s])
    {
      assert SlotWf(b, p, pc, st.slots[s]);
    }
  }

  lemma SetRegWf(b: Bounds, p: Prog, pc: nat, st: VState, r: nat, v: Reg)
    requires StateWf(b, p, pc, st) && RegWf(b, p, pc, v) && r < 10
    ensures StateWf(b, p, pc, SetReg(st, r, v))
  {
  }

  lemma StackWriteWf(b: Bounds, p: Prog, pc: nat, st: VState, at: int, bytes: nat, spilled: Option<Reg>)
    requires StateWf(b, p, pc, st)
    requires -STACK_SIZE <= at && at + bytes <= 0 && bytes > 0
    requires spilled.Some? ==> !spilled.value.NotInit? && RegWf(b, p, pc, spilled.value)
    ensures StateWf(b, p, pc, StackWrite(st, at, bytes, spilled))
  {
  }

  lemma AluWf(b: Bounds, p: Prog, pc: nat, i: Insn, is64: bool, st: VState)
    requires StateWf(b, p, pc, st) && i.dst < 10 && i.src < REG_CNT
    requires VerifyAlu(i, is64, st).Some?
    ensures StateWf(b, p, pc + 1, VerifyAlu(i, is64, st).value)
  {
    WfLater(b, p, pc, pc + 1, st);
    var st' := VerifyAlu(i, is64, st).value;
    assert st' == SetReg(st, i.dst, st'.regs[i.dst]) by {
      assert st.regs == st.regs[i.dst := st.regs[i.dst]];
    }
    assert RegWf(b, p, pc, st.regs[i.dst]) && RegWf(b, p, pc, st.regs[i.src]);
    assert RegWf(b, p, pc + 1, st'.regs[i.dst]);
    SetRegWf(b, p, pc + 1, st, i.dst, st'.regs[i.dst]);
  }

  lemma LoadWf(b: Bounds, p: Prog, pc: nat, i: Insn, st: VState)
    requires StateWf(b, p, pc, st) && i.dst < 10 && i.src < REG_CNT
    requires VerifyLoad(b, i, st).Some?
    ensures StateWf(b, p, pc + 1, VerifyLoad(b, i, st).value)
  {
    WfLater(b, p, pc, pc + 1, st);
    SetRegWf(b, p, pc + 1, st, i.dst, VerifyLoad(b, i, st).value.regs[i.dst]);
  }

  lemma StoreWf(b: Bounds, p: Prog, pc: nat, i: Insn, st: VState)
    requires StateWf(b, p, pc, st) && i.dst < REG_CNT && i.src < REG_CNT
    requires VerifyStore(b, i, st).Some?
    ensures StateWf(b, p, pc + 1, VerifyStore(b, i, st).value)
  {
    WfLater(b, p, pc, pc + 1, st);
    if st.regs[i.dst].PtrStack? {
      StoreStackWf(b, p, pc + 1, i, st, st.regs[i.dst].off + i.off);
    } else {
      FetchedWf(b, p, pc + 1, i, st);
    }
  }

  lemma StoreStackWf(b: Bounds, p: Prog, pc: nat, i: Insn, st: VState, at: int)
    requires StateWf(b, p, pc, st) && i.src < REG_CNT
    requires -STACK_SIZE <= at && at + Bytes(i.code) <= 0
    requires ClassOf(i.code) == STX ==> !st.regs[i.src].NotInit?
    requires ModeOf(i.code) == ModeAtomic ==> st.regs[i.src].Scalar?
    ensures StateWf(b, p, pc, Fetched(i, StackWrite(st, at, Bytes(i.code), SpilledReg(i, st))))
  {
    assert RegWf(b, p, pc, st.regs[i.src]);
    StackWriteWf(b, p, pc, st, at, Bytes(i.code), SpilledReg(i, st));
    FetchedWf(b, p, pc, i, StackWrite(st, at, Bytes(i.code), SpilledReg(i, st)));
  }

  lemma FetchedWf(b: Bounds, p: Prog, pc: nat, i: Insn, st: VState)
    requires StateWf(b, p, pc, st) && i.src < REG_CNT
    requires ModeOf(i.code) == ModeAtomic ==> st.regs[i.src].Scalar?
    ensures StateWf(b, p, pc, Fetched(i, st))
  {
  }

  lemma WideWf(b: Bounds, p: Prog, pc: nat, i: Insn, st: VState)
    requires ProgWf(b, p) && StateWf(b, p, pc, st) && i.dst < 10
    requires VerifyWide(p, pc, i, st).Some?
    ensures StateWf(b, p, pc + 2, VerifyWide(p, pc, i, st).value)
  {
    WfLater(b, p, pc, pc + 2, st);
    SetRegWf(b, p, pc + 2, st, i.dst, VerifyWide(p, pc, i, st).value.regs[i.dst]);
  }

  // ---- calls ----------------------------------------------------------------

  /** The argument of the prototype that is a map, if one is. */
  function MapIndex(proto: Proto): nat {
    if |proto.args| > 1 && proto.args[0] != ArgConstMap then 1 else 0
  }

  /** The shape every prototype in the table has. */
  ghost predicate ProtoWf(proto: Proto) {
    && |proto.args| <= 5
    && (forall a :: 0 <= a < |proto.args| && (proto.args[a] == ArgMem || proto.args[a] == ArgUninitMem) ==>
        a + 1 < |proto.args|)
    && (proto.ret != RetScalar ==> |proto.args| > 1 && proto.args[0] == ArgConstMap)
    && (forall a :: 0 <= a < |proto.args| && proto.args[a] == ArgConstMap ==> a == MapIndex(proto))
    && (forall a :: 0 <= a < |proto.args| && proto.args[a] == ArgRingMem ==> a == 0 && proto.ret == RetScalar)
  }

  lemma ProtosWf(id: int)
    requires HelperOf(id).Some?
    ensures ProtoWf(HelperOf(id).value)
    ensures HelperOf(id).value.ret == RetMemOrNull <==> id == RINGBUF_RESERVE
    ensures ArgRingMem in HelperOf(id).value.args <==> id == RINGBUF_SUBMIT || id == RINGBUF_DISCARD
  {
    ProtoShape(id);
    ProtoRing(id);
  }

  lemma ProtoShape(id: int)
    requires HelperOf(id).Some?
    ensures ProtoWf(HelperOf(id).value) && (HelperOf(id).value.ret == RetMemOrNull <==> id == RINGBUF_RESERVE)
  {
    if id < 40 { LowProtos(id); } else { HighProtos(id); }
  }

  lemma LowProtos(id: int)
    requires HelperOf(id).Some? && id < 40
    ensures ProtoWf(HelperOf(id).value) && (HelperOf(id).value.ret == RetMemOrNull <==> id == RINGBUF_RESERVE)
  {
  }

  lemma HighProtos(id: int)
    requires HelperOf(id).Some? && id >= 40
    ensures ProtoWf(HelperOf(id).value) && (HelperOf(id).value.ret == RetMemOrNull <==> id == RINGBUF_RESERVE)
  {
  }

  lemma ProtoRing(id: int)
    requires HelperOf(id).Some?
    ensures ArgRingMem in HelperOf(id).value.args <==> id == RINGBUF_SUBMIT || id == RINGBUF_DISCARD
  {
  }

  /** The state an argument loop leaves differs from the one it got only in stack slots that became plain data. */
  ghost predicate SlotsForgotten(st: VState, st': VState) {
    && st'.regs == st.regs && st'.refs == st.refs
    && forall s :: 0 <= s < SLOTS ==> st'.slots[s] == st.slots[s] || st'.slots[s] == Misc
  }

  /** The map an argument loop has seen is one of the program's. */
  ghost predicate ScanWf(b: Bounds, p: Prog, s: Scan) {
    && (s.argMap.Some? ==> s.argMap.value in p.maps && s.argMap.value < |b.defs|)
    && (s.release.Some? ==> s.release.value < |s.st.refs|)
  }

  lemma CheckArgWf(b: Bounds, p: Prog, pc: nat, proto: Proto, a: nat, s: Scan)
    requires a < |proto.args| <= 5 && StateWf(b, p, pc, s.st) && ScanWf(b, p, s)
    requires CheckArg(b, proto, a, s).Some?
    ensures SlotsForgotten(s.st, CheckArg(b, proto, a, s).value.st)
    ensures StateWf(b, p, pc, CheckArg(b, proto, a, s).value.st)
    ensures ScanWf(b, p, CheckArg(b, proto, a, s).value)
  {
    assert RegWf(b, p, pc, s.st.regs[1 + a]);
  }

  lemma {:induction false} CheckArgsWf(b: Bounds, p: Prog, pc: nat, proto: Proto, a: nat, s: Scan)
    requires a <= |proto.args| <= 5 && StateWf(b, p, pc, s.st) && ScanWf(b, p, s)
    requires CheckArgs(b, proto, a, s).Some?
    ensures SlotsForgotten(s.st, CheckArgs(b, proto, a, s).value.st)
    ensures StateWf(b, p, pc, CheckArgs(b, proto, a, s).value.st)
    ensures ScanWf(b, p, CheckArgs(b, proto, a, s).value)
    decreases |proto.args| - a
  {
    if a < |proto.args| {
      CheckArgWf(b, p, pc, proto, a, s);
      CheckArgsWf(b, p, pc, proto, a + 1, CheckArg(b, proto, a, s).value);
    }
  }

  lemma DropRefWf(pc: nat, refs: seq<nat>, k: nat)
    requires RefsWf(pc, refs) && k < |refs|
    ensures RefsWf(pc, DropRef(refs, k))
    ensures forall x :: x in DropRef(refs, k) <==> x in refs && x != refs[k]
  {
    var r := DropRef(refs, k);
    forall x | x in refs && x != refs[k]
      ensures x in r
    {
      var j :| 0 <= j < |refs| && refs[j] == x;
      assert r[if j == |refs| - 1 then k else j] == x;
    }
  }

  lemma ReleaseWf(b: Bounds, p: Prog, pc: nat, st: VState, k: nat)
    requires StateWf(b, p, pc, st) && k < |st.refs|
    ensures StateWf(b, p, pc, Release(st, k))
  {
    DropRefWf(pc, st.refs, k);
  }

  lemma AfterCallWf(b: Bounds, p: Prog, pc: nat, st: VState, r0: Reg)
    requires StateWf(b, p, pc, st) && RegWf(b, p, pc, r0)
    ensures StateWf(b, p, pc, AfterCall(st, r0))
  {
    forall r | 0 <= r < REG_CNT
      ensures RegWf(b, p, pc, AfterCall(st, r0).regs[r])
    {
      if r >= 6 { assert AfterCall(st, r0).regs[r] == st.regs[r]; }
    }
  }

  lemma FinishCallWf(b: Bounds, p: Prog, pc: nat, ret: RetType, s: Scan)
    requires StateWf(b, p, pc, s.st) && ScanWf(b, p, s) && pc < MAX_INSNS
    requires s.release.Some? ==> ret == RetScalar
    requires FinishCall(b, pc, ret, s).Some?
    ensures StateWf(b, p, pc + 1, FinishCall(b, pc, ret, s).value)
  {
    if s.release.Some? { ReleaseWf(b, p, pc, s.st, s.release.value); }
    WfLater(b, p, pc, pc + 1, Released(s));
    match ret
    case RetScalar => AfterCallWf(b, p, pc + 1, Released(s), Unknown);
    case RetMapValueOrNull => AfterCallWf(b, p, pc + 1, Released(s), PtrMapValue(s.argMap.value));
    case RetMemOrNull => AfterCallWf(b, p, pc + 1, Released(s), PtrMem(RefName(pc), s.st.regs[2].val));
  }

  lemma CallWf(b: Bounds, p: Prog, pc: nat, proto: Proto, st: VState)
    requires ProtoWf(proto) && StateWf(b, p, pc, st) && pc < MAX_INSNS
    requires CallProto(b, pc, proto, st).Some?
    ensures StateWf(b, p, pc + 1, CallProto(b, pc, proto, st).value)
  {
    var s0 := Scan(st, None, None);
    CheckArgsWf(b, p, pc, proto, 0, s0);
    NoRelease(b, proto, 0, s0);
    FinishCallWf(b, p, pc, proto.ret, CheckArgs(b, proto, 0, s0).value);
  }

  /** Only a prototype that takes a record back releases one, and none of those returns a pointer. */
  lemma {:induction false} NoRelease(b: Bounds, proto: Proto, a: nat, s: Scan)
    requires a <= |proto.args| <= 5 && (s.release.Some? ==> proto.ret == RetScalar)
    requires ProtoWf(proto) && CheckArgs(b, proto, a, s).Some?
    ensures CheckArgs(b, proto, a, s).value.release.Some? ==> proto.ret == RetScalar
    decreases |proto.args| - a
  {
    if a < |proto.args| { NoRelease(b, proto, a + 1, CheckArg(b, proto, a, s).value); }
  }

  // ---- jumps and the whole instruction -------------------------------------

  lemma OkArmWf(b: Bounds, p: Prog, pc: nat, st: VState, dst: nat)
    requires StateWf(b, p, pc, st) && dst < REG_CNT
    ensures StateWf(b, p, pc, OkArm(st, dst))
  {
    assert RegWf(b, p, pc, st.regs[dst]);
  }

  lemma NullArmWf(b: Bounds, p: Prog, pc: nat, st: VState, dst: nat)
    requires StateWf(b, p, pc, st) && dst < REG_CNT
    ensures StateWf(b, p, pc, NullArm(st, dst))
  {
    var d := st.regs[dst];
    if d.PtrMem? && FindRef(st.refs, d.ref).Some? {
      DropRefWf(pc, st.refs, FindRef(st.refs, d.ref).value);
    }
  }

  /** Where a verdict goes on, and in which state. */
  ghost predicate Continues(v: Verdict, pc': nat, st': VState) {
    (v.Go? && pc' == v.pc && st' == v.st) ||
    (v.Fork? && ((pc' == v.pc && st' == v.st) || (pc' == v.target && st' == v.other)))
  }

  lemma JumpWf(b: Bounds, p: Prog, pc: nat, st: VState, i: Insn, pc': nat, st': VState)
    requires ProgWf(b, p) && pc < |p.insns| && StateWf(b, p, pc, st) && i.dst < REG_CNT && i.src < REG_CNT
    requires Continues(VerifyJump(b, p, pc, i, st), pc', st')
    ensures pc < pc' && StateWf(b, p, pc', st')
  {
    if JmpOpOf(i.code) == CALL {
      ProtosWf(Low32(i.imm));
      CallWf(b, p, pc, HelperOf(Low32(i.imm)).value, st);
    } else {
      OkArmWf(b, p, pc, st, i.dst);
      NullArmWf(b, p, pc, st, i.dst);
      WfLater(b, p, pc, pc', st');
    }
  }

  /** Every state an instruction hands on is well formed, at a strictly later instruction. */
  lemma StepKeepsWf(b: Bounds, p: Prog, pc: nat, st: VState, pc': nat, st': VState)
    requires ProgWf(b, p) && pc < |p.insns| && StateWf(b, p, pc, st)
    requires Continues(VerifyInsn(b, p, pc, st), pc', st')
    ensures pc < pc' && StateWf(b, p, pc', st')
  {
    var i := p.insns[pc];
    match ClassOf(i.code)
    case ALU => AluWf(b, p, pc, i, false, st);
    case ALU64 => AluWf(b, p, pc, i, true, st);
    case LDX => LoadWf(b, p, pc, i, st);
    case ST => StoreWf(b, p, pc, i, st);
    case STX => StoreWf(b, p, pc, i, st);
    case LD => WideWf(b, p, pc, i, st);
    case JMP => JumpWf(b, p, pc, st, i, pc', st');
    case JMP32 => JumpWf(b, p, pc, st, i, pc', st');
  }
}
