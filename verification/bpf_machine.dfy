/** The interpreter bpf_run as a machine over flat addresses, and what it means for one of its steps to be safe. */
module BpfMachine {
  import opened Words
  import opened Memory
  import opened BpfInsn
  import opened BpfVerifier
  import opened BpfWellFormed

  // ---- state ----------------------------------------------------------------

  /** A ring-buffer record: the address of its data and how much it holds. */
  datatype Rec = Rec(addr: u64, size: nat)

  /** A helper call as the helper sees it: its number and the arguments its prototype takes. */
  datatype HelperCall = HelperCall(id: u32, args: seq<u64>)

  /** The arguments a helper looks at, of the five every call carries. */
  function Taken(id: u32, args: seq<u64>): seq<u64>
    requires |args| == 5
  {
    match HelperOf(id) case None => [] case Some(proto) => if |proto.args| <= 5 then args[..|proto.args|] else []
  }

  /**
   * `live` are the records this run reserved and has not given back, by the name of the
   * reservation; `reserved` and `committed` count both kinds of event since the run began;
   * `log` is every helper call made.
   */
  datatype RawMachine =
    Machine(pc: nat, regs: seq<u64>, mem: Mem, live: map<nat, Rec>, reserved: nat, committed: nat, log: seq<HelperCall>)

  const ZeroRegs: seq<u64> := [0, 0, 0, 0, 0, 0, 0, 0, 0, 0, 0]

  type Machine = m: RawMachine | |m.regs| == REG_CNT witness Machine(0, ZeroRegs, map[], map[], 0, 0, [])

  /** Where the run finds its frame (by its top) and its context, and what the kernel's maps are. */
  datatype Env = Env(fp: u64, ctx: u64, b: Bounds)

  /** What a helper gives back, and the memory it leaves behind. */
  datatype HelperEffect = Effect(ret: u64, mem: Mem)

  datatype Outcome = Next(m: Machine) | Exit(r0: u64) | Fault

  // ---- arithmetic -----------------------------------------------------------

  function AluRun(op: AluOp, is32: bool, dst: u64, operand: u64): Option<u64> {
    var sv: u64 := if is32 then Low32(operand) else operand;
    var a: u64 := if is32 then Low32(dst) else dst;
    var r: Option<u64> :=
      match op
      case ADD => Some(Wrap64(a + sv))
      case SUB => Some(Wrap64(a - sv))
      case MUL => Some(Mul64(a, sv))
      case DIV => Some(UDiv(a, sv))
      case MOD => Some(UMod(a, sv))
      case OR => Some(Or64(a, sv))
      case AND => Some(And64(a, sv))
      case XOR => Some(Xor64(a, sv))
      case LSH => Some(Shl64(a, if is32 then sv % 32 else sv % 64))
      case RSH => Some(Shr(a, if is32 then sv % 32 else sv % 64))
      case ARSH => Some(if is32 then Low32(Sar(S32(a), sv % 32)) else Wrap64(Sar(S64(a), sv % 64)))
      case NEG => Some(Wrap64(-S64(a)))
      case MOV => Some(sv)
      case _ => None;
    if r.None? then None else Some(if is32 then Low32(r.value) else r.value)
  }

  /** The low `n` bytes of `v` in the opposite order. */
  function ByteSwap(v: nat, n: nat): (r: nat)
    ensures r < Pow256(n)
    decreases n, v
  {
    if n == 0 then 0
    else
      var hi, lo := v % 256, ByteSwap(v / 256, n - 1);
      assert hi * Pow256(n - 1) <= 255 * Pow256(n - 1) by { MulMonotone(hi, 255, Pow256(n - 1)); }
      hi * Pow256(n - 1) + lo
  }

  lemma MulMonotone(x: nat, y: nat, k: nat)
    requires x <= y
    ensures x * k <= y * k
  {
    assert y * k == x * k + (y - x) * k;
  }

  /** BPF_END: truncate to the width, and swap it for a conversion to big-endian. */
  function EndRun(imm: i32, swap: bool, v: u64): u64 {
    Pow256Values();
    if imm == 16 then (if swap then ByteSwap(v, 2) else v % M16)
    else if imm == 32 then (if swap then ByteSwap(v, 4) else v % M32)
    else if swap then ByteSwap(v, 8) else v
  }

  /** Whether a conditional jump is taken; None for an operation bpf_run does not know. */
  function JmpRun(op: JmpOp, is32: bool, dst: u64, operand: u64): Option<bool> {
    var a: u64 := if is32 then Low32(dst) else dst;
    var b: u64 := if is32 then Low32(operand) else operand;
    var sa := if is32 then S32(a) else S64(a);
    var sb := if is32 then S32(b) else S64(b);
    match op
    case JA => Some(true)
    case JEQ => Some(a == b)
    case JNE => Some(a != b)
    case JGT => Some(a > b)
    case JGE => Some(a >= b)
    case JLT => Some(a < b)
    case JLE => Some(a <= b)
    case JSET => Some(And64(a, b) != 0)
    case JSGT => Some(sa > sb)
    case JSGE => Some(sa >= sb)
    case JSLT => Some(sa < sb)
    case JSLE => Some(sa <= sb)
    case _ => None
  }

  // ---- one step -------------------------------------------------------------

  function Operand(i: Insn, m: Machine): u64
    requires i.src < REG_CNT
  {
    if SrcIsReg(i.code) then m.regs[i.src] else Wrap64(i.imm)
  }

  function Advance(m: Machine, r: nat, v: u64): Outcome
    requires r < REG_CNT
  {
    Next(m.(pc := m.pc + 1, regs := m.regs[r := v]))
  }

  function StepAlu(i: Insn, m: Machine): Outcome
    requires i.dst < REG_CNT && i.src < REG_CNT
  {
    var op := AluOpOf(i.code);
    if op == END then Advance(m, i.dst, EndRun(i.imm, SrcIsReg(i.code), m.regs[i.dst]))
    else match AluRun(op, ClassOf(i.code) == ALU, m.regs[i.dst], Operand(i, m))
         case None => Fault
         case Some(v) => Advance(m, i.dst, v)
  }

  function LoadAddr(i: Insn, m: Machine): u64
    requires i.src < REG_CNT
  {
    Wrap64(m.regs[i.src] + i.off)
  }

  function StoreAddr(i: Insn, m: Machine): u64
    requires i.dst < REG_CNT
  {
    Wrap64(m.regs[i.dst] + i.off)
  }

  function StepLoad(i: Insn, m: Machine): Outcome
    requires i.dst < REG_CNT && i.src < REG_CNT
  {
    Pow256Values();
    Advance(m, i.dst, Load(m.mem, LoadAddr(i, m), Bytes(i.code)))
  }

  /** An atomic works on 8 bytes for DW and on 4 otherwise. */
  function AtomicBytes(code: byte): nat { if Bytes(code) == 8 then 8 else 4 }

  /** What an atomic operation leaves in memory, given what was there; None leaves it alone. */
  function AtomicResult(imm: i32, was: u64, val: u64, wanted: u64): Option<u64> {
    match imm - imm % 2
    case 0x00 => Some(Wrap64(was + val))
    case 0x40 => Some(Or64(was, val))
    case 0x50 => Some(And64(was, val))
    case 0xa0 => Some(Xor64(was, val))
    case 0xe0 => Some(val)
    case 0xf0 => if was == wanted then Some(val) else None
    case _ => None
  }

  /** What an atomic finds in memory. */
  function AtomicOld(i: Insn, m: Machine): u64
    requires i.dst < REG_CNT
  {
    Pow256Values();
    Load(m.mem, StoreAddr(i, m), AtomicBytes(i.code))
  }

  /** What an atomic writes, if it writes. */
  function AtomicNew(i: Insn, m: Machine): Option<u64>
    requires i.dst < REG_CNT && i.src < REG_CNT
  {
    if AtomicBytes(i.code) == 8 then AtomicResult(i.imm, AtomicOld(i, m), StoredValue(i, m), m.regs[0])
    else AtomicResult(i.imm, AtomicOld(i, m), Low32(StoredValue(i, m)), Low32(m.regs[0]))
  }

  function AtomicMem(i: Insn, m: Machine): Mem
    requires i.dst < REG_CNT && i.src < REG_CNT
  {
    match AtomicNew(i, m)
    case None => m.mem
    case Some(v) => Store(m.mem, StoreAddr(i, m), AtomicBytes(i.code), v)
  }

  /**
   * The registers an atomic leaves: a compare-and-exchange has the old contents in r0, one that fetches has them in
   * src.
   */
  function AtomicRegs(i: Insn, m: Machine): seq<u64>
    requires i.dst < REG_CNT && i.src < REG_CNT
  {
    var op := i.imm - i.imm % 2;
    if op == 0xf0 then m.regs[0 := AtomicOld(i, m)]
    else if i.imm % 2 == 1 then m.regs[i.src := if op in {0x00, 0x40, 0x50, 0xa0, 0xe0} then AtomicOld(i, m) else 0]
    else m.regs
  }

  function StepAtomic(i: Insn, m: Machine): Outcome
    requires i.dst < REG_CNT && i.src < REG_CNT
  {
    Next(m.(pc := m.pc + 1, mem := AtomicMem(i, m), regs := AtomicRegs(i, m)))
  }

  function StoredValue(i: Insn, m: Machine): u64
    requires i.src < REG_CNT
  {
    if ClassOf(i.code) == ST then Wrap64(i.imm) else m.regs[i.src]
  }

  function StepStore(i: Insn, m: Machine): Outcome
    requires i.dst < REG_CNT && i.src < REG_CNT
  {
    if ModeOf(i.code) == ModeAtomic then StepAtomic(i, m)
    else Next(m.(pc := m.pc + 1, mem := Store(m.mem, StoreAddr(i, m), Bytes(i.code), StoredValue(i, m))))
  }

  function StepWide(b: Bounds, p: Prog, i: Insn, m: Machine): Outcome
    requires m.pc < |p.insns| && i.dst < REG_CNT
  {
    if i.code != WIDE then Fault
    else
      var v: u64 :=
        if i.src == 1 then (if 0 <= i.off < |p.maps| then Def(b, p.maps[i.off]).addr else 0)
        else WideLiteral(i.imm, if m.pc + 1 < |p.insns| then p.insns[m.pc + 1].imm else 0);
      Next(m.(pc := m.pc + 2, regs := m.regs[i.dst := v]))
  }

  /** The records left once the one at `addr` is given back. */
  function Without(live: map<nat, Rec>, addr: u64): map<nat, Rec> {
    map n | n in live && live[n].addr != addr :: live[n]
  }

  function CallOf(i: Insn, m: Machine): HelperCall { HelperCall(Low32(i.imm), Taken(Low32(i.imm), m.regs[1..6])) }

  /** The helper's effect on the machine, and the reservation it made or gave back. */
  function StepCall(i: Insn, m: Machine, h: HelperEffect): Outcome {
    var id := Low32(i.imm);
    var m1 := m.(pc := m.pc + 1, regs := m.regs[0 := h.ret], mem := h.mem, log := m.log + [CallOf(i, m)]);
    if id == RINGBUF_RESERVE && h.ret != 0 then
      Next(m1.(live := m.live[RefName(m.pc) := Rec(h.ret, m.regs[2])], reserved := m.reserved + 1))
    else if id == RINGBUF_SUBMIT || id == RINGBUF_DISCARD then
      Next(m1.(live := Without(m.live, m.regs[1]), committed := m.committed + 1))
    else Next(m1)
  }

  function StepJump(i: Insn, m: Machine, h: HelperEffect): Outcome
    requires i.dst < REG_CNT && i.src < REG_CNT
  {
    var op := JmpOpOf(i.code);
    if op == EXIT then Exit(m.regs[0])
    else if op == CALL then StepCall(i, m, h)
    else match JmpRun(op, ClassOf(i.code) == JMP32, m.regs[i.dst], Operand(i, m))
         case None => Fault
         case Some(taken) => Next(m.(pc := if taken then Low32(m.pc + 1 + i.off) else m.pc + 1))
  }

  /** One turn of bpf_run's loop; `h` is used only if the instruction is a call. */
  function Step(b: Bounds, p: Prog, m: Machine, h: HelperEffect): Outcome
    requires m.pc < |p.insns|
  {
    var i := p.insns[m.pc];
    if i.dst >= REG_CNT || i.src >= REG_CNT then Fault
    else match ClassOf(i.code)
    case ALU => StepAlu(i, m)
    case ALU64 => StepAlu(i, m)
    case LDX => StepLoad(i, m)
    case ST => StepStore(i, m)
    case STX => StepStore(i, m)
    case LD => StepWide(b, p, i, m)
    case JMP => StepJump(i, m, h)
    case JMP32 => StepJump(i, m, h)
  }

  // ---- safety ---------------------------------------------------------------

  predicate InFrame(e: Env, a: int, n: nat) { e.fp - STACK_SIZE <= a && a + n <= e.fp }

  predicate InCtx(e: Env, a: int, n: nat) { e.ctx <= a && a + n <= e.ctx + e.b.ctxSize }

  predicate WithinValue(e: Env, k: nat, el: u64, a: int, n: nat) {
    el in Def(e.b, k).elems && el <= a && a + n <= el + Def(e.b, k).valueSize
  }

  /** Inside one value of one of the maps the program holds. */
  ghost predicate InValue(e: Env, p: Prog, a: int, n: nat) {
    exists k: nat, el: u64 :: k in p.maps && WithinValue(e, k, el, a, n)
  }

  predicate WithinRecord(r: Rec, a: int, n: nat) { r.addr <= a && a + n <= r.addr + r.size }

  /** Inside a record the run still holds. */
  ghost predicate InRecord(live: map<nat, Rec>, a: int, n: nat) {
    exists ref :: ref in live && WithinRecord(live[ref], a, n)
  }

  ghost predicate CanWrite(e: Env, p: Prog, live: map<nat, Rec>, a: int, n: nat) {
    InFrame(e, a, n) || InValue(e, p, a, n) || InRecord(live, a, n)
  }

  ghost predicate CanRead(e: Env, p: Prog, live: map<nat, Rec>, a: int, n: nat) {
    CanWrite(e, p, live, a, n) || InCtx(e, a, n)
  }

  /** `v` is the map with index `k` in the kernel's table, and the program holds it. */
  predicate IsMap(e: Env, p: Prog, v: u64, k: nat) { k in p.maps && k < |e.b.defs| && e.b.defs[k].addr == v }

  /** `v` is a map of the type the helper takes. */
  ghost predicate MapHandle(e: Env, p: Prog, proto: Proto, v: u64) {
    exists k: nat :: IsMap(e, p, v, k) && MapTypeOk(proto, e.b.defs[k])
  }

  /** `v` is readable memory as long as a key of the map `mapArg` (as one of its values, if `value`). */
  ghost predicate ElementMemory(e: Env, p: Prog, live: map<nat, Rec>, mapArg: u64, v: u64, value: bool) {
    exists k: nat ::
        IsMap(e, p, mapArg, k) && CanRead(e, p, live, v, if value then e.b.defs[k].valueSize else e.b.defs[k].keySize)
  }

  /** `v` is the start of a record the run holds. */
  ghost predicate HeldRecord(live: map<nat, Rec>, v: u64) { exists ref :: ref in live && live[ref].addr == v }

  /** Argument `a` of a call is what the prototype wants, on the machine's own values. */
  ghost predicate ArgSafe(e: Env, p: Prog, m: Machine, proto: Proto, a: nat)
    requires a < |proto.args| <= 5
  {
    match proto.args[a]
    case ArgConstMap => MapHandle(e, p, proto, m.regs[1 + a])
    case ArgMapKey => ElementMemory(e, p, m.live, m.regs[1 + MapIndex(proto)], m.regs[1 + a], false)
    case ArgMapValue => ElementMemory(e, p, m.live, m.regs[1 + MapIndex(proto)], m.regs[1 + a], true)
    case ArgMem => m.regs[2 + a] == 0 || CanRead(e, p, m.live, m.regs[1 + a], m.regs[2 + a])
    case ArgUninitMem => m.regs[2 + a] == 0 || CanRead(e, p, m.live, m.regs[1 + a], m.regs[2 + a])
    case ArgCtx => m.regs[1 + a] == e.ctx
    case ArgRingMem => HeldRecord(m.live, m.regs[1 + a])
    case _ => true
  }

  ghost predicate ArgsSafe(e: Env, p: Prog, m: Machine, proto: Proto) {
    |proto.args| <= 5 && forall a :: 0 <= a < |proto.args| ==> ArgSafe(e, p, m, proto, a)
  }

  ghost predicate CallSafe(e: Env, p: Prog, i: Insn, m: Machine) {
    HelperOf(Low32(i.imm)).Some? && ArgsSafe(e, p, m, HelperOf(Low32(i.imm)).value)
  }

  /** Every access the instruction at m.pc makes stays inside memory the program may touch. */
  ghost predicate StepSafe(e: Env, p: Prog, m: Machine) {
    && m.pc < |p.insns|
    && var i := p.insns[m.pc];
    && i.dst < REG_CNT && i.src < REG_CNT
    && match ClassOf(i.code)
       case LDX => CanRead(e, p, m.live, LoadAddr(i, m), Bytes(i.code))
       case ST => CanWrite(e, p, m.live, StoreAddr(i, m), Bytes(i.code))
       case STX => CanWrite(e, p, m.live, StoreAddr(i, m), Bytes(i.code))
       case JMP => JmpOpOf(i.code) == CALL ==> CallSafe(e, p, i, m)
       case JMP32 => JmpOpOf(i.code) == CALL ==> CallSafe(e, p, i, m)
       case _ => true
  }

  // ---- what helpers promise -------------------------------------------------

  predicate Between(x: int, a: int, n: int) { a <= x < a + n }

  /** A byte a helper was handed to fill: some output buffer of the call holds it. */
  ghost predicate InOutput(proto: Proto, m: Machine, x: u64)
    requires |proto.args| <= 5
  {
    exists a :: 0 <= a < |proto.args| && proto.args[a] == ArgUninitMem && Between(x, m.regs[1 + a], m.regs[2 + a])
  }

  /** A fresh record: header and data off the frame, and apart from every record still held. */
  ghost predicate FreshRecord(e: Env, live: map<nat, Rec>, a: u64, size: nat) {
    && 8 <= a && a + size < M64
    && (a + size <= e.fp - STACK_SIZE || e.fp <= a - 8)
    && forall ref :: ref in live ==> a + size <= live[ref].addr || live[ref].addr + live[ref].size <= a
  }

  /** A value of the map at `mapArg`. */
  ghost predicate ElementOf(e: Env, p: Prog, mapArg: u64, v: u64) {
    exists k: nat :: IsMap(e, p, mapArg, k) && v in e.b.defs[k].elems
  }

  ghost predicate KeepsFrame(e: Env, proto: Proto, m: Machine, mem: Mem)
    requires |proto.args| <= 5
  {
    forall x: u64 :: e.fp - STACK_SIZE <= x < e.fp && !InOutput(proto, m, x) ==> Rd(mem, x) == Rd(m.mem, x)
  }

  /** A helper keeps off the frame outside its output buffers and returns what its prototype says. */
  ghost predicate KeepsProto(e: Env, p: Prog, proto: Proto, m: Machine, h: HelperEffect)
    requires |proto.args| <= 5
  {
    && KeepsFrame(e, proto, m, h.mem)
    && (proto.ret == RetMapValueOrNull ==> h.ret == 0 || ElementOf(e, p, m.regs[1], h.ret))
    && (proto.ret == RetMemOrNull ==> h.ret == 0 || FreshRecord(e, m.live, h.ret, m.regs[2]))
  }

  /** Given arguments that suit it, the helper called keeps to its prototype; given others, anything may happen. */
  ghost predicate HelperOk(e: Env, p: Prog, i: Insn, m: Machine, h: HelperEffect) {
    CallSafe(e, p, i, m) ==> KeepsProto(e, p, HelperOf(Low32(i.imm)).value, m, h)
  }

  // ---- runs -----------------------------------------------------------------

  predicate OffFrame(e: Env, a: int, n: nat) { a + n <= e.fp - STACK_SIZE || e.fp <= a }

  /**
   * The address space the kernel sets up: real, non-null objects, none of them on the frame, and maps told apart by
   * address.
   */
  ghost predicate ValidEnv(e: Env) {
    && STACK_SIZE < e.fp
    && 0 < e.ctx && e.ctx + e.b.ctxSize < M64 && OffFrame(e, e.ctx, e.b.ctxSize)
    && (forall k, el: u64 :: 0 <= k < |e.b.defs| && el in e.b.defs[k].elems ==>
          0 < el && el + e.b.defs[k].valueSize < M64 && OffFrame(e, el, e.b.defs[k].valueSize))
    && (forall k, l :: 0 <= k < l < |e.b.defs| ==> e.b.defs[k].addr != e.b.defs[l].addr)
  }

  /** Nothing but the program and the helpers it calls writes its frame; all other memory may change under it. */
  ghost predicate SameFrame(e: Env, m: Mem, m': Mem) {
    forall x: u64 :: e.fp - STACK_SIZE <= x < e.fp ==> Rd(m, x) == Rd(m', x)
  }

  ghost predicate Initial(e: Env, m: Machine) {
    && m.pc == 0 && m.live == map[] && m.reserved == 0 && m.committed == 0 && m.log == []
    && m.regs == ZeroRegs[1 := e.ctx][10 := e.fp]
    && forall x: u64 :: e.fp - STACK_SIZE <= x < e.fp ==> Rd(m.mem, x) == 0
  }

  function WithMem(m: Machine, mem: Mem): Machine { m.(mem := mem) }

  /** Memory off the frame changes at will, then the instruction runs with a helper that keeps its word. */
  ghost predicate StepsTo(e: Env, p: Prog, m: Machine, mem: Mem, h: HelperEffect, o: Outcome) {
    && m.pc < |p.insns|
    && SameFrame(e, m.mem, mem)
    && HelperOk(e, p, p.insns[m.pc], WithMem(m, mem), h)
    && o == Step(e.b, p, WithMem(m, mem), h)
  }
}
