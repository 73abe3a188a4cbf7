/** What the emitted instructions do: a machine with sixteen registers, flags and flat memory. */
module X86Machine {
  import opened Words
  import opened Memory
  import opened BpfInsn
  import opened BpfVerifier
  import opened BpfMachine
  import opened X86

  datatype Flags = Flags(zf: bool, cf: bool, sf: bool, of: bool)

  /** Inside the code, at an offset; or gone back to the caller. */
  datatype Rip = In(off: nat) | Out(addr: u64)

  datatype RawCpu = Cpu(rip: Rip, regs: seq<u64>, mem: Mem, flags: Option<Flags>, log: seq<HelperCall>)

  const NoRegs: seq<u64> := [0, 0, 0, 0, 0, 0, 0, 0, 0, 0, 0, 0, 0, 0, 0, 0]

  type Cpu = c: RawCpu | |c.regs| == 16 witness Cpu(In(0), NoRegs, map[], None, [])

  // ---- the kernel around the code -----------------------------------------------

  /**
   * The helpers, as functions of the calls already made, the call itself and the memory they can see;
   * `junk` and `scratch` are what a call leaves in the registers and the stack it may clobber.
   */
  datatype Kernel = Kernel(
    entry: u64,
    helper: (seq<HelperCall>, HelperCall, Mem) -> HelperEffect,
    junk: (seq<HelperCall>, int) -> u64,
    scratch: seq<HelperCall> -> Mem)

  /** The kernel's own stack around a frame whose top is `fp`: from `low` to the frame, and the two words above it. */
  datatype Around = Around(low: u64, fp: u64)

  predicate Private(z: Around, a: int) { z.low <= a < z.fp + 16 && !(z.fp - STACK_SIZE <= a < z.fp) }

  function PrivateSet(z: Around): set<u64> { set a: u64 | a < z.fp + 16 && Private(z, a) }

  /** The memory a program and the helpers share. */
  function Visible(z: Around, mem: Mem): Mem { mem - PrivateSet(z) }

  // ---- arithmetic -----------------------------------------------------------

  /** A value at the operation's width. */
  function At(w: bool, v: int): u64 { if w then Wrap64(v) else Low32(v) }

  /** An immediate, sign-extended to the operation's width. */
  function ImmAt(w: bool, imm: u32): u64 { At(w, S32(imm)) }

  /** The two-operand arithmetic, at width `w`; comparisons leave the destination alone. */
  function RrResult(op: RrOp, w: bool, a: u64, b: u64): u64 {
    var x, y := At(w, a), At(w, b);
    match op
    case AddRr => At(w, x + y)
    case SubRr => At(w, x - y)
    case OrRr => At(w, Or64(x, y))
    case AndRr => At(w, And64(x, y))
    case XorRr => At(w, Xor64(x, y))
    case MovRr => y
    case CmpRr => a
    case TestRr => a
  }

  function RiAs(op: RiOp): RrOp {
    match op
    case AddRi => AddRr
    case OrRi => OrRr
    case AndRi => AndRr
    case SubRi => SubRr
    case XorRi => XorRr
    case CmpRi => CmpRr
  }

  function Signed(w: bool, v: u64): int { if w then S64(v) else S32(v) }

  function SignBit(w: bool): int { if w then 0x8000_0000_0000_0000 else 0x8000_0000 }

  /** The flags CMP sets from x - y. */
  function CmpFlags(w: bool, a: u64, b: u64): Flags {
    var x, y := At(w, a), At(w, b);
    var d := Signed(w, x) - Signed(w, y);
    Flags(x == y, x < y, At(w, x - y) >= SignBit(w), d < -SignBit(w) || d >= SignBit(w))
  }

  /** The flags TEST sets from x & y. */
  function TestFlags(w: bool, a: u64, b: u64): Flags {
    var r := And64(At(w, a), At(w, b));
    Flags(r == 0, false, r >= SignBit(w), false)
  }

  /** Arithmetic leaves flags nothing emitted here reads. */
  function RrFlags(op: RrOp, w: bool, a: u64, b: u64, before: Option<Flags>): Option<Flags> {
    match op
    case CmpRr => Some(CmpFlags(w, a, b))
    case TestRr => Some(TestFlags(w, a, b))
    case MovRr => before
    case _ => None
  }

  function Negated(w: bool, v: int): u64 { At(w, 0 - v) }

  function ShiftResult(op: ShiftOp, w: bool, a: u64, count: nat): u64 {
    var n := if w then count % 64 else count % 32;
    var x := At(w, a);
    match op
    case Shl => At(w, Shl64(x, n))
    case ShrL => Shr(x, n)
    case SarL => At(w, Sar(Signed(w, x), n))
  }

  /** Condition codes (appendix B of volume 1 of the Intel SDM). */
  function Holds(cc: nib, f: Flags): Option<bool> {
    match cc
    case 0x2 => Some(f.cf)
    case 0x3 => Some(!f.cf)
    case 0x4 => Some(f.zf)
    case 0x5 => Some(!f.zf)
    case 0x6 => Some(f.cf || f.zf)
    case 0x7 => Some(!f.cf && !f.zf)
    case 0xC => Some(f.sf != f.of)
    case 0xD => Some(f.sf == f.of)
    case 0xE => Some(f.zf || f.sf != f.of)
    case 0xF => Some(!f.zf && f.sf == f.of)
    case _ => None
  }

  // ---- one instruction ------------------------------------------------------

  function Set(c: Cpu, r: reg, v: u64): Cpu { c.(regs := c.regs[r := v]) }

  function Addr(c: Cpu, base: reg, disp: u32): u64 { Wrap64(c.regs[base] + S32(disp)) }

  /** The value a store of an immediate writes: sign-extended for eight bytes. */
  function StoredImm(size: nat, imm: u32): u64 { if size == 8 then Wrap64(S32(imm)) else imm }

  function Below(a: int, n: int): u64 { Wrap64(a - n) }

  function PushValue(c: Cpu, v: u64): Cpu {
    var sp := Below(c.regs[RSP], 8);
    c.(regs := c.regs[RSP := sp], mem := Store(c.mem, sp, 8, v))
  }

  function TopOfStack(c: Cpu): u64 {
    Pow256Values();
    Load(c.mem, c.regs[RSP], 8)
  }

  function Popped(c: Cpu): Cpu { Set(c, RSP, Below(c.regs[RSP], -8)) }

  /** The call a `call rax` makes: edi is the helper's number, the five arguments follow (System V AMD64 ABI). */
  function CallSeen(c: Cpu): HelperCall {
    HelperCall(Low32(c.regs[7]), Taken(Low32(c.regs[7]), [c.regs[6], c.regs[2], c.regs[1], c.regs[8], c.regs[9]]))
  }

  /** rax, rcx, rdx, rsi, rdi and r8 to r11 do not survive a call; everything else does. */
  function AfterCallReg(k: Kernel, c: Cpu, ret: u64, r: int): u64
    requires 0 <= r < 16
  {
    if r == 0 then ret else if r in {1, 2, 6, 7, 8, 9, 10, 11} then k.junk(c.log, r) else c.regs[r]
  }

  /** What a call leaves in the kernel's stack: anything below the stack pointer, what was there above it. */
  function AfterCallByte(k: Kernel, c: Cpu, a: u64): byte {
    if a >= c.regs[RSP] then Rd(c.mem, a) else Rd(k.scratch(c.log), a)
  }

  function AfterCallMem(z: Around, k: Kernel, c: Cpu, seen: Mem): Mem {
    (map a | a in PrivateSet(z) :: AfterCallByte(k, c, a)) + Visible(z, seen)
  }

  function CallHelper(z: Around, k: Kernel, c: Cpu): Cpu {
    var h := k.helper(c.log, CallSeen(c), Visible(z, c.mem));
    c.(regs := seq(16, r requires 0 <= r < 16 => AfterCallReg(k, c, h.ret, r)),
       mem := AfterCallMem(z, k, c, h.mem), flags := None, log := c.log + [CallSeen(c)])
  }

  /** Where a rel32 measured from `off` leads. */
  function Target(off: nat, rel: u32): int { off + S32(rel) }

  /** Execute `x`, whose successor in the code is at `off`. None: the machine is stuck. */
  function Exec(z: Around, k: Kernel, x: X, off: nat, before: Cpu): Option<Cpu> {
    var c: Cpu := before.(rip := In(off));
    match x
    case Rr(op, w, d, s) =>
      Some(Set(c, d, RrResult(op, w, c.regs[d], c.regs[s])).(flags := RrFlags(op, w, c.regs[d], c.regs[s], c.flags)))
    case Ri(op, w, d, imm) =>
      Some(Set(c, d, RrResult(RiAs(op), w, c.regs[d], ImmAt(w, imm))).(flags :=
          RrFlags(RiAs(op), w, c.regs[d], ImmAt(w, imm), c.flags)))
    case MovImm(w, d, imm) => Some(Set(c, d, ImmAt(w, imm)))
    case MovAbs(d, v) => Some(Set(c, d, v))
    case ImulRr(w, d, s) => Some(Set(c, d, At(w, Mul64(At(w, c.regs[d]), At(w, c.regs[s])))).(flags := None))
    case ImulRi(w, d, imm) => Some(Set(c, d, At(w, Mul64(At(w, c.regs[d]), ImmAt(w, imm)))).(flags := None))
    case Neg(w, d) => Some(Set(c, d, Negated(w, At(w, c.regs[d]))).(flags := None))
    case TestImm(w, d, imm) => Some(c.(flags := Some(TestFlags(w, c.regs[d], ImmAt(w, imm)))))
    case ShiftImm(op, w, d, n) => Some(Set(c, d, ShiftResult(op, w, c.regs[d], n)).(flags := None))
    case ShiftCl(op, w, d) => Some(Set(c, d, ShiftResult(op, w, c.regs[d], c.regs[RCX] % 256)).(flags := None))
    case LoadX(size, d, b, disp) =>
      Pow256Values();
      if size in {1, 2, 4, 8} then Some(Set(c, d, Load(c.mem, Addr(c, b, disp), size))) else None
    case StoreX(size, b, disp, s) => Some(c.(mem := Store(c.mem, Addr(c, b, disp), size, c.regs[s])))
    case StoreImm(size, b, disp, imm) => Some(c.(mem := Store(c.mem, Addr(c, b, disp), size, StoredImm(size, imm))))
    case Push(s) => Some(PushValue(c, c.regs[s]))
    case Pop(d) => Some(Set(Popped(c), d, TopOfStack(c)))
    case CallRax => if c.regs[RAX] == k.entry then Some(CallHelper(z, k, c)) else None
    case Jcc(cc, rel) =>
      if c.flags.None? || Holds(cc, c.flags.value).None? then None
      else if !Holds(cc, c.flags.value).value then Some(c)
      else if Target(off, rel) < 0 then None
      else Some(c.(rip := In(Target(off, rel))))
    case Jmp(rel) => if Target(off, rel) < 0 then None else Some(c.(rip := In(Target(off, rel))))
    case Ret => Some(Popped(c).(rip := Out(TopOfStack(c))))
  }

  /** How bytes are read as an instruction. */
  type Decoder = seq<byte> -> Option<Decoded>

  /** Decode and execute the instruction rip is at. */
  function StepX(z: Around, k: Kernel, dec: Decoder, code: seq<byte>, c: Cpu): Option<Cpu> {
    if c.rip.Out? || c.rip.off > |code| then None
    else match dec(code[c.rip.off..])
         case None => None
         case Some(d) => Exec(z, k, d.x, c.rip.off + d.len, c)
  }

  /** The machine running `code`. */
  function Processor(z: Around, k: Kernel, dec: Decoder, code: seq<byte>): Cpu -> Option<Cpu> {
    (c: Cpu) => StepX(z, k, dec, code, c)
  }

  /** `n` steps lead from `c` to `c'`. */
  ghost predicate Reaches(step: Cpu -> Option<Cpu>, c: Cpu, n: nat, c': Cpu)
    decreases n
  {
    if n == 0 then c == c' else step(c).Some? && Reaches(step, step(c).value, n - 1, c')
  }
}
