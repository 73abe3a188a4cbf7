/** What the verifier decides about one instruction: the abstract interpreter of kernel/bpf/bpf_core.c, on values. */
module BpfVerifier {
  import opened Words
  import opened BpfInsn

  // ---- the model of a register, a stack slot and a path ------------------

  /** A map as the verifier and the helpers know it: `addr` names it, `elems` are the addresses of its values. */
  datatype MapDef = MapDef(typ: nat, keySize: nat, valueSize: nat, maxEntries: nat, addr: u64, elems: set<u64>)

  const MAP_HASH: nat := 1
  const MAP_ARRAY: nat := 2
  const MAP_PERF_EVENT_ARRAY: nat := 4
  const MAP_PERCPU_HASH: nat := 5
  const MAP_PERCPU_ARRAY: nat := 6
  const MAP_STACK_TRACE: nat := 7
  const MAP_RINGBUF: nat := 27

  predicate IsArray(d: MapDef) { d.typ == MAP_ARRAY || d.typ == MAP_PERCPU_ARRAY }
  predicate IsHash(d: MapDef) { d.typ == MAP_HASH || d.typ == MAP_PERCPU_HASH }

  /** reg_state. A pointer that may still be NULL is never moved, so the two nullable kinds carry no offset. */
  datatype Reg =
    | NotInit
    | Scalar(known: bool, val: u64)
    | PtrCtx(off: int)
    | PtrStack(off: int)
    | PtrMapValue(m: nat)
    | PtrMapValueOk(m: nat, off: int)
    | PtrMap(m: nat)
    | PtrMem(ref: nat, size: nat)
    | PtrMemOk(ref: nat, size: nat, off: int)

  const Unknown: Reg := Scalar(false, 0)

  predicate IsPtr(r: Reg) { !r.NotInit? && !r.Scalar? }

  /** r->off: zero wherever the kind carries none. */
  function Off(r: Reg): int {
    match r
    case PtrCtx(o) => o
    case PtrStack(o) => o
    case PtrMapValueOk(_, o) => o
    case PtrMemOk(_, _, o) => o
    case _ => 0
  }

  predicate NamesRef(r: Reg, ref: nat) { (r.PtrMem? || r.PtrMemOk?) && r.ref == ref }

  datatype Slot = Invalid | Misc | Spill(reg: Reg)

  datatype RawState = State(regs: seq<Reg>, slots: seq<Slot>, refs: seq<nat>)

  /** The frame before anything was written to it. */
  function NoSlots(): (s: seq<Slot>)
    ensures |s| == SLOTS && forall k :: 0 <= k < SLOTS ==> s[k] == Invalid
  {
    seq(SLOTS, _ => Invalid)
  }

  /** The registers a program starts with: the context in r1, the top of the frame in r10. */
  const StartRegs: seq<Reg> :=
    [NotInit, PtrCtx(0), NotInit, NotInit, NotInit, NotInit, NotInit, NotInit, NotInit, NotInit, PtrStack(0)]

  /** vstate */
  type VState = st: RawState | |st.regs| == REG_CNT && |st.slots| == SLOTS witness State(StartRegs, NoSlots(), [])

  const MAX_REFS: nat := 8

  const Start: VState := State(StartRegs, NoSlots(), [])

  /** A program: its instructions, the maps it holds by index into the kernel's table, and its type. */
  datatype Prog = Prog(insns: seq<Insn>, maps: seq<nat>, ptype: nat)

  const REGS_SIZE: nat := 21 * 8

  /** bpf_ctx_size, with x86-64's pt_regs */
  function CtxSize(ptype: nat): nat {
    if ptype == 2 then REGS_SIZE else if ptype == 7 then REGS_SIZE + 16 else 32
  }

  /** What every check is made against: the kernel's map table and the context's size. */
  datatype Bounds = Bounds(defs: seq<MapDef>, ctxSize: nat)

  function Def(b: Bounds, k: nat): MapDef {
    if k < |b.defs| then b.defs[k] else MapDef(0, 0, 0, 0, 0, {})
  }

  // ---- coverage -------------------------------------------------------------

  /** reg_covers: `o` is at least as general as `n`. */
  predicate RegCovers(o: Reg, n: Reg) {
    match o
    case NotInit => true
    case Scalar(known, v) => n.Scalar? && (!known || (n.known && n.val == v))
    case _ => o == n
  }

  predicate SlotCovers(o: Slot, n: Slot) {
    if o.Spill? then n.Spill? && RegCovers(o.reg, n.reg)
    else !(n.Spill? && IsPtr(n.reg))
  }

  /** state_covers */
  predicate StateCovers(o: VState, n: VState) {
    && (forall r :: 0 <= r < REG_CNT ==> RegCovers(o.regs[r], n.regs[r]))
    && (forall s :: 0 <= s < SLOTS ==> SlotCovers(o.slots[s], n.slots[s]))
    && o.refs == n.refs
  }

  // ---- memory and stack -----------------------------------------------------

  /** check_mem: `size` bytes at offset `at` of the object `r` points into. */
  predicate CheckMem(b: Bounds, r: Reg, at: int, size: nat) {
    match r
    case PtrStack(_) => -STACK_SIZE <= at && at + size <= 0
    case PtrMapValueOk(k, _) => 0 <= at && at + size <= Def(b, k).valueSize
    case PtrMemOk(_, sz, _) => 0 <= at && at + size <= sz
    case PtrCtx(_) => 0 <= at && at + size <= b.ctxSize
    case _ => false
  }

  /** A write of `bytes` bytes at byte `lo` of the frame touches slot `s`. */
  predicate Touches(lo: int, bytes: nat, s: int) { bytes > 0 && lo < 8 * s + 8 && 8 * s < lo + bytes }

  function WriteMisc(slots: seq<Slot>, lo: int, bytes: nat): (r: seq<Slot>)
    ensures |r| == |slots|
  {
    seq(|slots|, s requires 0 <= s < |slots| => if Touches(lo, bytes, s) then Misc else slots[s])
  }

  /** stack_write */
  function StackWrite(st: VState, at: int, bytes: nat, spilled: Option<Reg>): VState
    requires -STACK_SIZE <= at && at + bytes <= 0 && bytes > 0
  {
    var lo := at + STACK_SIZE;
    if spilled.Some? && bytes == 8 && lo % 8 == 0 then
      st.(slots := st.slots[lo / 8 := Spill(spilled.value)])
    else
      st.(slots := WriteMisc(st.slots, lo, bytes))
  }

  function SetReg(st: VState, r: nat, v: Reg): VState
    requires r < REG_CNT
  {
    st.(regs := st.regs[r := v])
  }

  // ---- constant folding -----------------------------------------------------

  /** alu_fold */
  function AluFold(op: AluOp, is64: bool, a: u64, b: u64): Option<u64> {
    var x: u64 := if is64 then a else Low32(a);
    var y: u64 := if is64 then b else Low32(b);
    var r: Option<u64> :=
      match op
      case ADD => Some(Wrap64(x + y))
      case SUB => Some(Wrap64(x - y))
      case MUL => Some(Mul64(x, y))
      case DIV => Some(UDiv(x, y))
      case MOD => Some(UMod(x, y))
      case OR => Some(Or64(x, y))
      case AND => Some(And64(x, y))
      case XOR => Some(Xor64(x, y))
      case LSH => Some(Shl64(x, if is64 then y % 64 else y % 32))
      case RSH => Some(Shr(x, if is64 then y % 64 else y % 32))
      case ARSH => Some(if is64 then Wrap64(Sar(S64(x), y % 64)) else Low32(Sar(S32(x), y % 32)))
      case _ => None;
    if r.None? then None else Some(if is64 then r.value else Low32(r.value))
  }

  /** jmp_fold */
  function JmpFold(op: JmpOp, is64: bool, a: u64, b: u64): Option<bool> {
    var x: u64 := if is64 then a else Low32(a);
    var y: u64 := if is64 then b else Low32(b);
    var sx := if is64 then S64(x) else S32(x);
    var sy := if is64 then S64(y) else S32(y);
    match op
    case JEQ => Some(x == y)
    case JNE => Some(x != y)
    case JGT => Some(x > y)
    case JGE => Some(x >= y)
    case JLT => Some(x < y)
    case JLE => Some(x <= y)
    case JSET => Some(And64(x, y) != 0)
    case JSGT => Some(sx > sy)
    case JSGE => Some(sx >= sy)
    case JSLT => Some(sx < sy)
    case JSLE => Some(sx <= sy)
    case _ => None
  }

  // ---- arithmetic -----------------------------------------------------------

  const MAX_MOVE: int := 0x10_0000

  /** The operand of an ALU instruction: a register that was written, or the immediate. */
  function AluOperand(i: Insn, is64: bool, st: VState): Option<Reg>
    requires i.src < REG_CNT
  {
    if SrcIsReg(i.code) then
      if st.regs[i.src].NotInit? then None else Some(st.regs[i.src])
    else if i.src != 0 then None
    else Some(Scalar(true, if is64 then Wrap64(i.imm) else Low32(i.imm)))
  }

  /** d->off += delta */
  function MovePtr(d: Reg, delta: int): Reg {
    match d
    case PtrStack(o) => PtrStack(o + delta)
    case PtrMapValueOk(k, o) => PtrMapValueOk(k, o + delta)
    case PtrMemOk(ref, sz, o) => PtrMemOk(ref, sz, o + delta)
    case _ => d
  }

  /** What dst holds after `op` of dst and the operand `sv`; None refuses the program. */
  function AluResult(i: Insn, op: AluOp, is64: bool, d: Reg, sv: Reg): Option<Reg> {
    if op == MOV then
      if is64 then Some(sv)
      else if sv.Scalar? && sv.known then Some(Scalar(true, Low32(sv.val)))
      else Some(Unknown)
    else if d.NotInit? then None
    else if IsPtr(d) then
      if !(d.PtrStack? || d.PtrMapValueOk? || d.PtrMemOk?) || !is64 || !(op == ADD || op == SUB) ||
         !sv.Scalar? || !sv.known then None
      else
        var delta := S64(sv.val);
        if delta > MAX_MOVE || delta < -MAX_MOVE then None
        else
          Some(MovePtr(d, if op == ADD then delta else -delta))
    else if IsPtr(sv) then None
    else if (op == DIV || op == MOD) && !SrcIsReg(i.code) && i.imm == 0 then None
    else if d.known && sv.Scalar? && sv.known && AluFold(op, is64, d.val, sv.val).Some? then
      Some(Scalar(true, AluFold(op, is64, d.val, sv.val).value))
    else Some(Unknown)
  }

  function VerifyAlu(i: Insn, is64: bool, st: VState): Option<VState>
    requires i.dst < REG_CNT && i.src < REG_CNT
  {
    var op := AluOpOf(i.code);
    var d := st.regs[i.dst];
    if i.off != 0 then None
    else if op == END then
      if is64 || !(i.imm == 16 || i.imm == 32 || i.imm == 64) || !d.Scalar? then None
      else Some(SetReg(st, i.dst, Unknown))
    else if op == NEG then
      if SrcIsReg(i.code) || !d.Scalar? then None
      else if d.known then
        Some(SetReg(st, i.dst, Scalar(true, if is64 then Wrap64(-S64(d.val)) else Low32(-S32(d.val)))))
      else Some(st)
    else if op == BadAlu then None
    else
      var sv := AluOperand(i, is64, st);
      if sv.None? then None
      else
        var r := AluResult(i, op, is64, d, sv.value);
        if r.None? then None else Some(SetReg(st, i.dst, r.value))
  }

  // ---- loads and stores -----------------------------------------------------

  function VerifyLoad(b: Bounds, i: Insn, st: VState): Option<VState>
    requires i.dst < REG_CNT && i.src < REG_CNT
  {
    var p := st.regs[i.src];
    var at := Off(p) + i.off;
    var bytes := Bytes(i.code);
    if ModeOf(i.code) != ModeMem || !CheckMem(b, p, at, bytes) then None
    else if p.PtrStack? && bytes == 8 && (at + STACK_SIZE) % 8 == 0 && st.slots[(at + STACK_SIZE) / 8].Spill? then
      Some(SetReg(st, i.dst, st.slots[(at + STACK_SIZE) / 8].reg))
    else Some(SetReg(st, i.dst, Unknown))
  }

  /** atomic_op_ok */
  predicate AtomicOk(imm: i32) {
    imm in {0x00, 0x40, 0x50, 0xa0, 0x01, 0x41, 0x51, 0xa1, XCHG, CMPXCHG}
  }

  /** What a read-modify-write asks of its operands. */
  predicate AtomicArgsOk(i: Insn, st: VState)
    requires i.dst < REG_CNT && i.src < REG_CNT
  {
    && ClassOf(i.code) == STX && Bytes(i.code) >= 4 && AtomicOk(i.imm)
    && st.regs[i.src].Scalar?
    && (st.regs[i.dst].PtrStack? || st.regs[i.dst].PtrMapValueOk?)
    && (i.imm == CMPXCHG ==> st.regs[0].Scalar?)
  }

  predicate StoreOk(b: Bounds, i: Insn, st: VState)
    requires i.dst < REG_CNT && i.src < REG_CNT
  {
    var p := st.regs[i.dst];
    && (ClassOf(i.code) == STX ==> !st.regs[i.src].NotInit?)
    && (ModeOf(i.code) == ModeAtomic ==> AtomicArgsOk(i, st))
    && ModeOf(i.code) != ModeOther
    && (ClassOf(i.code) != STX ==> i.src == 0)
    && !p.PtrCtx?
    && CheckMem(b, p, Off(p) + i.off, Bytes(i.code))
  }

  /** The register state a store leaves in a whole slot, if it leaves one. */
  function SpilledReg(i: Insn, st: VState): Option<Reg>
    requires i.src < REG_CNT
  {
    if ModeOf(i.code) != ModeMem then None
    else if ClassOf(i.code) == STX then Some(st.regs[i.src])
    else if Bytes(i.code) == 8 then Some(Scalar(true, Wrap64(i.imm)))
    else None
  }

  /** An atomic that fetches puts what was in memory into r0 or src. */
  function Fetched(i: Insn, st: VState): VState
    requires i.src < REG_CNT
  {
    if ModeOf(i.code) == ModeAtomic && i.imm % 2 == 1 then SetReg(st, if i.imm == CMPXCHG then 0 else i.src, Unknown)
    else st
  }

  function VerifyStore(b: Bounds, i: Insn, st: VState): Option<VState>
    requires i.dst < REG_CNT && i.src < REG_CNT
  {
    var p := st.regs[i.dst];
    if !StoreOk(b, i, st) then None
    else if p.PtrStack? then Some(Fetched(i, StackWrite(st, p.off + i.off, Bytes(i.code), SpilledReg(i, st))))
    else Some(Fetched(i, st))
  }

  function VerifyWide(p: Prog, pc: nat, i: Insn, st: VState): Option<VState>
    requires i.dst < REG_CNT
  {
    if i.code != WIDE || pc + 1 >= |p.insns| then None
    else
      var h := p.insns[pc + 1];
      if h.code != 0 || h.dst != 0 || h.src != 0 || h.off != 0 then None
      else if i.src == 1 then
        if 0 <= i.off < |p.maps| && i.imm == RESOLVED then Some(SetReg(st, i.dst, PtrMap(p.maps[i.off]))) else None
      else if i.src == 0 then Some(SetReg(st, i.dst, Scalar(true, WideLiteral(i.imm, h.imm))))
      else None
  }

  // ---- helper calls ---------------------------------------------------------

  datatype ArgType = ArgAny | ArgConstMap | ArgMapKey | ArgMapValue | ArgMem | ArgUninitMem | ArgConstSize
                   | ArgConstSizeOr0 | ArgCtx | ArgRingMem

  datatype RetType = RetScalar | RetMapValueOrNull | RetMemOrNull

  datatype Proto = Proto(args: seq<ArgType>, ret: RetType, mapType: nat)

  const RINGBUF_RESERVE: int := 131
  const RINGBUF_SUBMIT: int := 132
  const RINGBUF_DISCARD: int := 133

  /** g_helpers and helper_of */
  function HelperOf(id: int): Option<Proto> {
    if id == 1 then Some(Proto([ArgConstMap, ArgMapKey], RetMapValueOrNull, 0))
    else if id == 2 then Some(Proto([ArgConstMap, ArgMapKey, ArgMapValue, ArgAny], RetScalar, 0))
    else if id == 3 then Some(Proto([ArgConstMap, ArgMapKey], RetScalar, 0))
    else if id in {4, 112, 113} then Some(Proto([ArgUninitMem, ArgConstSizeOr0, ArgAny], RetScalar, 0))
    else if id in {5, 8, 14, 15, 35, 125} then Some(Proto([], RetScalar, 0))
    else if id == 6 then Some(Proto([ArgMem, ArgConstSize], RetScalar, 0))
    else if id == 16 then Some(Proto([ArgUninitMem, ArgConstSize], RetScalar, 0))
    else if id == 25 then
      Some(Proto([ArgCtx, ArgConstMap, ArgAny, ArgMem, ArgConstSizeOr0], RetScalar, MAP_PERF_EVENT_ARRAY))
    else if id == 27 then Some(Proto([ArgCtx, ArgConstMap, ArgAny], RetScalar, MAP_STACK_TRACE))
    else if id in {45, 114, 115} then Some(Proto([ArgUninitMem, ArgConstSize, ArgAny], RetScalar, 0))
    else if id == 67 then Some(Proto([ArgCtx, ArgUninitMem, ArgConstSizeOr0, ArgAny], RetScalar, 0))
    else if id == 130 then Some(Proto([ArgConstMap, ArgMem, ArgConstSizeOr0, ArgAny], RetScalar, MAP_RINGBUF))
    else if id == RINGBUF_RESERVE then Some(Proto([ArgConstMap, ArgAny, ArgAny], RetMemOrNull, MAP_RINGBUF))
    else if id == RINGBUF_SUBMIT || id == RINGBUF_DISCARD then Some(Proto([ArgRingMem, ArgAny], RetScalar, 0))
    else if id == 134 then Some(Proto([ArgConstMap, ArgAny], RetScalar, MAP_RINGBUF))
    else None
  }

  predicate MapTypeOk(proto: Proto, d: MapDef) {
    if proto.mapType != 0 then d.typ == proto.mapType else IsHash(d) || IsArray(d)
  }

  const MAX_HELPER_MEM: nat := 4096

  /** What the argument loop of verify_call has learned so far. */
  datatype Scan = Scan(st: VState, argMap: Option<nat>, release: Option<nat>)

  /** The first index at which `ref` is held. */
  function FindRef(refs: seq<nat>, ref: nat): (k: Option<nat>)
    ensures k.Some? ==> k.value < |refs| && refs[k.value] == ref
    ensures k.None? ==> ref !in refs
  {
    if refs == [] then None
    else if refs[0] == ref then Some(0)
    else match FindRef(refs[1..], ref) case None => None case Some(k) => Some(k + 1)
  }

  /** One turn of the argument loop: argument `a`, in register 1 + a. */
  function CheckArg(b: Bounds, proto: Proto, a: nat, s: Scan): Option<Scan>
    requires a < |proto.args| <= 5
  {
    var r := s.st.regs[1 + a];
    var t := proto.args[a];
    if r.NotInit? then None
    else match t
    case ArgAny => if r.Scalar? || r.PtrStack? || r.PtrMapValueOk? || r.PtrCtx? then Some(s) else None
    case ArgConstMap =>
      if r.PtrMap? && MapTypeOk(proto, Def(b, r.m)) then Some(s.(argMap := Some(r.m))) else None
    case ArgMapKey =>
      if s.argMap.Some? && CheckMem(b, r, Off(r), Def(b, s.argMap.value).keySize) then Some(s) else None
    case ArgMapValue =>
      if s.argMap.Some? && CheckMem(b, r, Off(r), Def(b, s.argMap.value).valueSize) then Some(s) else None
    case ArgMem => if MemArgOk(b, proto, a, s.st) then Some(s) else None
    case ArgUninitMem =>
      if !MemArgOk(b, proto, a, s.st) then None
      else if r.PtrStack? && s.st.regs[2 + a].val != 0 then
        Some(s.(st := StackWrite(s.st, r.off, s.st.regs[2 + a].val, None)))
      else Some(s)
    case ArgConstSize => Some(s)
    case ArgConstSizeOr0 => Some(s)
    case ArgCtx => if r == PtrCtx(0) then Some(s) else None
    case ArgRingMem =>
      if !r.PtrMemOk? || r.off != 0 then None
      else match FindRef(s.st.refs, r.ref) case None => None case Some(k) => Some(s.(release := Some(k)))
  }

  /** Helper memory: the next register is a known size, and that much memory is in bounds. */
  predicate MemArgOk(b: Bounds, proto: Proto, a: nat, st: VState)
    requires a < |proto.args| <= 5
  {
    var r := st.regs[1 + a];
    var sz := st.regs[2 + a];
    && sz.Scalar? && sz.known && sz.val <= MAX_HELPER_MEM
    && a + 1 < |proto.args|
    && (sz.val == 0 ==> proto.args[a + 1] == ArgConstSizeOr0)
    && (sz.val != 0 ==> CheckMem(b, r, Off(r), sz.val))
  }

  /** The argument loop from argument `a` on. */
  function CheckArgs(b: Bounds, proto: Proto, a: nat, s: Scan): Option<Scan>
    requires a <= |proto.args| <= 5
    decreases |proto.args| - a
  {
    if a == |proto.args| then Some(s)
    else match CheckArg(b, proto, a, s) case None => None case Some(s') => CheckArgs(b, proto, a + 1, s')
  }

  /** refs[k] = refs[--nrefs] */
  function DropRef(refs: seq<nat>, k: nat): (r: seq<nat>)
    requires k < |refs|
    ensures |r| == |refs| - 1
  {
    refs[k := refs[|refs| - 1]][..|refs| - 1]
  }

  function ForgetReg(r: Reg, gone: nat): Reg { if NamesRef(r, gone) then Unknown else r }

  function ForgetSlot(s: Slot, gone: nat): Slot { if s.Spill? && NamesRef(s.reg, gone) then Misc else s }

  /** Give a reservation back: every copy of the pointer is dead. */
  function Release(st: VState, k: nat): VState
    requires k < |st.refs|
  {
    var gone := st.refs[k];
    State(seq(REG_CNT, r requires 0 <= r < REG_CNT => ForgetReg(st.regs[r], gone)),
          seq(SLOTS, s requires 0 <= s < SLOTS => ForgetSlot(st.slots[s], gone)),
          DropRef(st.refs, k))
  }

  /** The registers after a call: r1 to r5 clobbered, r0 the result. */
  function AfterCall(st: VState, r0: Reg): VState {
    st.(regs := [r0, NotInit, NotInit, NotInit, NotInit, NotInit] + st.regs[6..])
  }

  /** The name of a reservation made at `pc`: (u16)(pc + 1). */
  function RefName(pc: nat): nat { (pc + 1) % M16 }

  /** The state once a reservation the arguments named is given back. */
  function Released(s: Scan): VState {
    if s.release.Some? && s.release.value < |s.st.refs| then Release(s.st, s.release.value) else s.st
  }

  /** A reservation needs a ring, a small constant size and a free name. */
  predicate ReserveOk(b: Bounds, s: Scan) {
    var sz := s.st.regs[2];
    && s.argMap.Some? && sz.Scalar? && sz.known && sz.val != 0
    && sz.val <= Def(b, s.argMap.value).maxEntries / 4
    && |s.st.refs| < MAX_REFS
  }

  /** The rest of verify_call, once the arguments have passed. */
  function FinishCall(b: Bounds, pc: nat, ret: RetType, s: Scan): Option<VState> {
    match ret
    case RetScalar => Some(AfterCall(Released(s), Unknown))
    case RetMapValueOrNull =>
      if s.argMap.None? then None else Some(AfterCall(Released(s), PtrMapValue(s.argMap.value)))
    case RetMemOrNull =>
      if !ReserveOk(b, s) then None
      else
        var st := AfterCall(Released(s), PtrMem(RefName(pc), s.st.regs[2].val));
        Some(st.(refs := st.refs + [RefName(pc)]))
  }

  function CallProto(b: Bounds, pc: nat, proto: Proto, st: VState): Option<VState>
    requires |proto.args| <= 5
  {
    match CheckArgs(b, proto, 0, Scan(st, None, None))
    case None => None
    case Some(s) => FinishCall(b, pc, proto.ret, s)
  }

  /** verify_call */
  function VerifyCall(b: Bounds, pc: nat, i: Insn, st: VState): Option<VState> {
    if i.src != 0 || i.off != 0 || HelperOf(Low32(i.imm)).None? then None
    else CallProto(b, pc, HelperOf(Low32(i.imm)).value, st)
  }

  // ---- jumps ----------------------------------------------------------------

  datatype Verdict =
    | Reject
    | Done
    | Go(pc: nat, st: VState)
    | Fork(pc: nat, st: VState, target: nat, other: VState)

  /** What the arm on which nullable register `dst` is not NULL knows of register `r`. */
  function OkReg(st: VState, dst: nat, r: nat): Reg
    requires dst < REG_CNT && r < REG_CNT
  {
    var d, a := st.regs[dst], st.regs[r];
    if d.PtrMapValue? && r == dst then PtrMapValueOk(d.m, 0)
    else if d.PtrMem? && a.PtrMem? && a.ref == d.ref then PtrMemOk(a.ref, a.size, 0)
    else a
  }

  /** What the NULL arm knows of register `r`. */
  function NullReg(st: VState, dst: nat, r: nat): Reg
    requires dst < REG_CNT && r < REG_CNT
  {
    var d, a := st.regs[dst], st.regs[r];
    if d.PtrMapValue? && r == dst then Scalar(true, 0)
    else if d.PtrMem? && a.PtrMem? && a.ref == d.ref then Scalar(true, 0)
    else a
  }

  function OkArm(st: VState, dst: nat): VState
    requires dst < REG_CNT
  {
    st.(regs := seq(REG_CNT, r requires 0 <= r < REG_CNT => OkReg(st, dst, r)))
  }

  /** The NULL arm also no longer holds the reservation that failed. */
  function NullArm(st: VState, dst: nat): VState
    requires dst < REG_CNT
  {
    var d := st.regs[dst];
    var refs := if d.PtrMem? && FindRef(st.refs, d.ref).Some?
                then DropRef(st.refs, FindRef(st.refs, d.ref).value) else st.refs;
    State(seq(REG_CNT, r requires 0 <= r < REG_CNT => NullReg(st, dst, r)), st.slots, refs)
  }

  function VerifyCond(p: Prog, pc: nat, i: Insn, st: VState): Verdict
    requires i.dst < REG_CNT && i.src < REG_CNT
  {
    var op := JmpOpOf(i.code);
    var is64 := ClassOf(i.code) == JMP;
    var target := pc + 1 + i.off;
    var d := st.regs[i.dst];
    var sv := if SrcIsReg(i.code) then st.regs[i.src] else Scalar(true, Wrap64(i.imm));
    if i.off < 0 || target >= |p.insns| then Reject
    else if sv.NotInit? || d.NotInit? then Reject
    else if (d.PtrMapValue? || d.PtrMem?) && is64 && sv == Scalar(true, 0) && (op == JEQ || op == JNE) then
      if op == JEQ then Fork(pc + 1, OkArm(st, i.dst), target, NullArm(st, i.dst))
      else Fork(pc + 1, NullArm(st, i.dst), target, OkArm(st, i.dst))
    else if !IsPtr(d) && !IsPtr(sv) && d.known && sv.known && JmpFold(op, is64, d.val, sv.val).Some? then
      Go(if JmpFold(op, is64, d.val, sv.val).value then target else pc + 1, st)
    else Fork(pc + 1, st, target, st)
  }

  function VerifyJump(b: Bounds, p: Prog, pc: nat, i: Insn, st: VState): Verdict
    requires i.dst < REG_CNT && i.src < REG_CNT
  {
    var op := JmpOpOf(i.code);
    var is64 := ClassOf(i.code) == JMP;
    if op == EXIT then
      if is64 && st.regs[0].Scalar? && st.refs == [] then Done else Reject
    else if op == CALL then
      if !is64 then Reject else Straight(pc, VerifyCall(b, pc, i, st))
    else if op == JA then
      if !is64 || i.imm != 0 || i.dst != 0 || i.src != 0 || i.off < 0 then Reject else Go(pc + 1 + i.off, st)
    else if op == BadJmp then Reject
    else VerifyCond(p, pc, i, st)
  }

  // ---- one instruction ------------------------------------------------------

  function Straight(pc: nat, r: Option<VState>): Verdict {
    match r case None => Reject case Some(st) => Go(pc + 1, st)
  }

  /** verify_insn, on a program whose map loads at `pc` have been resolved. */
  function VerifyInsn(b: Bounds, p: Prog, pc: nat, st: VState): Verdict
    requires pc < |p.insns|
  {
    var i := p.insns[pc];
    var cls := ClassOf(i.code);
    if i.dst >= REG_CNT || i.src >= REG_CNT then Reject
    else if i.dst == 10 && (cls == ALU || cls == ALU64 || cls == LDX || cls == LD) then Reject
    else match cls
    case ALU => Straight(pc, VerifyAlu(i, false, st))
    case ALU64 => Straight(pc, VerifyAlu(i, true, st))
    case LDX => Straight(pc, VerifyLoad(b, i, st))
    case ST => Straight(pc, VerifyStore(b, i, st))
    case STX => Straight(pc, VerifyStore(b, i, st))
    case LD => (match VerifyWide(p, pc, i, st) case None => Reject case Some(st') => Go(pc + 2, st'))
    case JMP => VerifyJump(b, p, pc, i, st)
    case JMP32 => VerifyJump(b, p, pc, i, st)
  }

  /** The instruction at `pc` is the second half of a 16-byte load. */
  predicate Half(insns: seq<Insn>, pc: nat)
    requires pc < |insns|
  {
    pc > 0 && !Half(insns, pc - 1) && insns[pc - 1].code == WIDE
  }
}
