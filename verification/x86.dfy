/**
 * The x86-64 instructions the translator emits: their encoding, as kernel/bpf/bpf_jit_x86.c writes it, and a decoder.
 */
module X86 {
  import opened Words

  type reg = x: int | 0 <= x < 16
  type nib = x: int | 0 <= x < 16

  const RAX: reg := 0
  const RCX: reg := 1
  const RSP: reg := 4
  const RBP: reg := 5

  datatype RrOp = AddRr | SubRr | OrRr | AndRr | XorRr | MovRr | CmpRr | TestRr

  datatype RiOp = AddRi | OrRi | AndRi | SubRi | XorRi | CmpRi

  datatype ShiftOp = Shl | ShrL | SarL

  /** One instruction; `w` is the 64-bit form, displacements and immediates are the raw 32 bits. */
  datatype X =
    | Rr(rop: RrOp, w: bool, dst: reg, src: reg)
    | Ri(iop: RiOp, w: bool, dst: reg, imm: u32)
    | MovImm(w: bool, dst: reg, imm: u32)
    | MovAbs(dst: reg, abs: u64)
    | ImulRr(w: bool, dst: reg, src: reg)
    | ImulRi(w: bool, dst: reg, imm: u32)
    | Neg(w: bool, dst: reg)
    | TestImm(w: bool, dst: reg, imm: u32)
    | ShiftImm(sop: ShiftOp, w: bool, dst: reg, count: byte)
    | ShiftCl(sop: ShiftOp, w: bool, dst: reg)
    | LoadX(size: nat, dst: reg, base: reg, disp: u32)
    | StoreX(size: nat, base: reg, disp: u32, src: reg)
    | StoreImm(size: nat, base: reg, disp: u32, imm: u32)
    | Push(src: reg)
    | Pop(dst: reg)
    | CallRax
    | Jcc(cc: nib, rel: u32)
    | Jmp(rel: u32)
    | Ret

  // ---- encoding -------------------------------------------------------------

  function Le16(v: int): seq<byte> { [v % 256, (v / 256) % 256] }

  function Le32(v: u32): seq<byte> { [v % 256, (v / 256) % 256, (v / 0x1_0000) % 256, v / 0x100_0000] }

  function Le64(v: u64): seq<byte> { Le32(v % M32) + Le32(v / M32) }

  function Bit(b: bool): byte { if b then 1 else 0 }

  /** The REX prefix; `force` emits it even when it says nothing. */
  function Rex(w: bool, r: bool, b: bool, force: bool): seq<byte> {
    var v := 0x40 + 8 * Bit(w) + 4 * Bit(r) + Bit(b);
    if v != 0x40 || force then [v] else []
  }

  /** mod = 11: both operands are registers. */
  function ModRr(r: reg, rm: reg): byte { 0xC0 + 8 * (r % 8) + rm % 8 }

  /** mod = 10: [rm + disp32], with a SIB byte where rm needs one. */
  function MemOperand(r: reg, base: reg, disp: u32): seq<byte> {
    [0x80 + 8 * (r % 8) + base % 8] + (if base % 8 == 4 then [0x24] else []) + Le32(disp)
  }

  function RrCode(op: RrOp): byte {
    match op
    case AddRr => 0x01
    case OrRr => 0x09
    case AndRr => 0x21
    case SubRr => 0x29
    case XorRr => 0x31
    case CmpRr => 0x39
    case TestRr => 0x85
    case MovRr => 0x89
  }

  function RiDigit(op: RiOp): reg {
    match op
    case AddRi => 0
    case OrRi => 1
    case AndRi => 4
    case SubRi => 5
    case XorRi => 6
    case CmpRi => 7
  }

  function ShiftDigit(op: ShiftOp): reg { match op case Shl => 4 case ShrL => 5 case SarL => 7 }

  /** What goes into the prefixes: the operand-size override and the REX bits, REX forced or not. */
  datatype PrefixBits = PrefixBits(short: bool, w: bool, r: bool, b: bool, force: bool)

  function Bits(x: X): PrefixBits {
    match x
    case Rr(_, w, d, s) => PrefixBits(false, w, s >= 8, d >= 8, false)
    case Ri(_, w, d, _) => PrefixBits(false, w, false, d >= 8, false)
    case MovImm(w, d, _) => PrefixBits(false, w, false, d >= 8, false)
    case MovAbs(d, _) => PrefixBits(false, true, false, d >= 8, false)
    case ImulRr(w, d, s) => PrefixBits(false, w, d >= 8, s >= 8, false)
    case ImulRi(w, d, _) => PrefixBits(false, w, d >= 8, d >= 8, false)
    case Neg(w, d) => PrefixBits(false, w, false, d >= 8, false)
    case TestImm(w, d, _) => PrefixBits(false, w, false, d >= 8, false)
    case ShiftImm(_, w, d, _) => PrefixBits(false, w, false, d >= 8, false)
    case ShiftCl(_, w, d) => PrefixBits(false, w, false, d >= 8, false)
    case LoadX(size, d, b, _) => PrefixBits(false, size == 8, d >= 8, b >= 8, false)
    case StoreX(size, b, _, s) => PrefixBits(size == 2, size == 8, s >= 8, b >= 8, size == 1 && s >= 4)
    case StoreImm(size, b, _, _) => PrefixBits(size == 2, size == 8, false, b >= 8, false)
    case Push(s) => PrefixBits(false, false, false, s >= 8, false)
    case Pop(d) => PrefixBits(false, false, false, d >= 8, false)
    case _ => PrefixBits(false, false, false, false, false)
  }

  function Prefix(p: PrefixBits): seq<byte> { (if p.short then [0x66] else []) + Rex(p.w, p.r, p.b, p.force) }

  function LoadCode(size: nat): seq<byte> {
    if size == 8 || size == 4 then [0x8B] else if size == 2 then [0x0F, 0xB7] else [0x0F, 0xB6]
  }

  function ImmBytes(size: nat, imm: u32): seq<byte> {
    if size == 1 then [imm % 256] else if size == 2 then Le16(imm) else Le32(imm)
  }

  /** Opcode, ModRM and immediate. */
  function Tail(x: X): seq<byte> {
    match x
    case Rr(op, _, d, s) => [RrCode(op), ModRr(s, d)]
    case Ri(op, _, d, imm) => [0x81, ModRr(RiDigit(op), d)] + Le32(imm)
    case MovImm(_, d, imm) => [0xC7, ModRr(0, d)] + Le32(imm)
    case MovAbs(d, v) => [0xB8 + d % 8] + Le64(v)
    case ImulRr(_, d, s) => [0x0F, 0xAF, ModRr(d, s)]
    case ImulRi(_, d, imm) => [0x69, ModRr(d, d)] + Le32(imm)
    case Neg(_, d) => [0xF7, ModRr(3, d)]
    case TestImm(_, d, imm) => [0xF7, ModRr(0, d)] + Le32(imm)
    case ShiftImm(op, _, d, n) => [0xC1, ModRr(ShiftDigit(op), d)] + [n]
    case ShiftCl(op, _, d) => [0xD3, ModRr(ShiftDigit(op), d)]
    case LoadX(size, d, b, disp) => LoadCode(size) + MemOperand(d, b, disp)
    case StoreX(size, b, disp, s) => [if size == 1 then 0x88 else 0x89] + MemOperand(s, b, disp)
    case StoreImm(size, b, disp, imm) =>
        [if size == 1 then 0xC6 else 0xC7] + MemOperand(0, b, disp) + ImmBytes(size, imm)
    case Push(s) => [0x50 + s % 8]
    case Pop(d) => [0x58 + d % 8]
    case CallRax => [0xFF, 0xD0]
    case Jcc(cc, rel) => [0x0F, 0x80 + cc] + Le32(rel)
    case Jmp(rel) => [0xE9] + Le32(rel)
    case Ret => [0xC3]
  }

  /** The bytes an emitter appends. */
  function Encode(x: X): seq<byte> { Prefix(Bits(x)) + Tail(x) }

  /** Instructions the emitters are asked for: sizes are 1, 2, 4 or 8, and a short immediate fits its field. */
  predicate Emittable(x: X) {
    match x
    case LoadX(size, _, _, _) => size in {1, 2, 4, 8}
    case StoreX(size, _, _, _) => size in {1, 2, 4, 8}
    case StoreImm(size, _, _, imm) =>
        size in {1, 2, 4, 8} && (size == 1 ==> imm < 0x100) && (size == 2 ==> imm < 0x1_0000)
    case _ => true
  }

  // ---- decoding -------------------------------------------------------------

  /** What the prefixes say: operand-size override, and the REX bits if there is one. */
  datatype Pre = Pre(short: bool, rex: bool, w: bool, r: bool, b: bool)

  /** The REX prefix (section 2.2.1 of volume 2 of the Intel SDM) and how many bytes it took. */
  function DecodeRex(short: bool, bs: seq<byte>): (Pre, nat) {
    if |bs| > 0 && 0x40 <= bs[0] < 0x50 then
      (Pre(short, true, (bs[0] / 8) % 2 == 1, (bs[0] / 4) % 2 == 1, bs[0] % 2 == 1), 1)
    else (Pre(short, false, false, false, false), 0)
  }

  function DecodePrefixes(bs: seq<byte>): (Pre, nat) {
    if |bs| > 0 && bs[0] == 0x66 then
      var (p, n) := DecodeRex(true, bs[1..]);
      (p, n + 1)
    else DecodeRex(false, bs)
  }

  function Ext(high: bool, low: int): reg
    requires 0 <= low < 8
  {
    if high then low + 8 else low
  }

  function UnLe32(bs: seq<byte>): u32
    requires |bs| >= 4
  {
    FromBytes(bs[0], bs[1], bs[2], bs[3])
  }

  function UnLe64(bs: seq<byte>): u64
    requires |bs| >= 8
  {
    UnLe32(bs) + M32 * UnLe32(bs[4..])
  }

  function FromBytes(a: int, b: int, c: int, d: int): int { a + 0x100 * b + 0x1_0000 * c + 0x100_0000 * d }

  datatype Operand = RegOp(rm: reg) | MemOp(base: reg, disp: u32)

  /** ModRM (and SIB): the reg field, the other operand, and the bytes they took. */
  datatype ModRm = ModRm(field: int, reg: reg, rm: Operand, len: nat)

  function DecodeModRm(p: Pre, bs: seq<byte>): Option<ModRm> {
    if |bs| == 0 then None
    else
      var field, low := (bs[0] / 8) % 8, bs[0] % 8;
      if bs[0] >= 0xC0 then Some(ModRm(field, Ext(p.r, field), RegOp(Ext(p.b, low)), 1))
      else if bs[0] / 64 == 2 then
        if low == 4 then
          if |bs| >= 6 && bs[1] == 0x24 then Some(ModRm(field, Ext(p.r, field), MemOp(Ext(p.b, 4), UnLe32(bs[2..])), 6))
              else None
        else if |bs| >= 5 then Some(ModRm(field, Ext(p.r, field), MemOp(Ext(p.b, low), UnLe32(bs[1..])), 5)) else None
      else None
  }

  function RrOf(code: byte): Option<RrOp> {
    match code
    case 0x01 => Some(AddRr)
    case 0x09 => Some(OrRr)
    case 0x21 => Some(AndRr)
    case 0x29 => Some(SubRr)
    case 0x31 => Some(XorRr)
    case 0x39 => Some(CmpRr)
    case 0x85 => Some(TestRr)
    case 0x89 => Some(MovRr)
    case _ => None
  }

  function RiOf(digit: int): Option<RiOp> {
    match digit
    case 0 => Some(AddRi)
    case 1 => Some(OrRi)
    case 4 => Some(AndRi)
    case 5 => Some(SubRi)
    case 6 => Some(XorRi)
    case 7 => Some(CmpRi)
    case _ => None
  }

  function ShiftOf(digit: int): Option<ShiftOp> {
    match digit case 4 => Some(Shl) case 5 => Some(ShrL) case 7 => Some(SarL) case _ => None
  }

  /** An operation and how many bytes it took after the prefixes. */
  datatype Decoded = Decoded(x: X, len: nat)

  /** An opcode that takes a ModRM byte and no immediate; `m` follows `n` opcode bytes. */
  function DecodePlain(p: Pre, code: byte, n: nat, m: ModRm): Option<Decoded> {
    match m.rm
    case RegOp(rm) =>
      if p.short then None
      else if RrOf(code).Some? then Some(Decoded(Rr(RrOf(code).value, p.w, rm, m.reg), n + m.len))
      else if code == 0xF7 && m.field == 3 then Some(Decoded(Neg(p.w, rm), n + m.len))
      else if code == 0xD3 && ShiftOf(m.field).Some?
          then Some(Decoded(ShiftCl(ShiftOf(m.field).value, p.w, rm), n + m.len))
      else if code == 0xFF && m.field == 2 && rm == RAX then Some(Decoded(CallRax, n + m.len))
      else None
    case MemOp(base, disp) =>
      if code == 0x8B && !p.short then Some(Decoded(LoadX(if p.w then 8 else 4, m.reg, base, disp), n + m.len))
      else if code == 0x89
          then Some(Decoded(StoreX(if p.w then 8 else if p.short then 2 else 4, base, disp, m.reg), n + m.len))
      // Without a REX prefix, byte registers 4 to 7 are the high halves, which nothing here means.
      else if code == 0x88 && !p.short && (p.rex || m.reg < 4)
          then Some(Decoded(StoreX(1, base, disp, m.reg), n + m.len))
      else None
  }

  /** An opcode whose ModRM operand is followed by an immediate in `imm`. */
  function DecodeImm(p: Pre, code: byte, m: ModRm, imm: seq<byte>): Option<Decoded> {
    match m.rm
    case RegOp(rm) =>
      if p.short then None
      else if code == 0xC1 && |imm| >= 1 && ShiftOf(m.field).Some? then
        Some(Decoded(ShiftImm(ShiftOf(m.field).value, p.w, rm, imm[0]), 2 + m.len))
      else if |imm| < 4 then None
      else if code == 0x81 && RiOf(m.field).Some?
          then Some(Decoded(Ri(RiOf(m.field).value, p.w, rm, UnLe32(imm)), 5 + m.len))
      else if code == 0xC7 && m.field == 0 then Some(Decoded(MovImm(p.w, rm, UnLe32(imm)), 5 + m.len))
      else if code == 0xF7 && m.field == 0 then Some(Decoded(TestImm(p.w, rm, UnLe32(imm)), 5 + m.len))
      else if code == 0x69 && rm == m.reg then Some(Decoded(ImulRi(p.w, rm, UnLe32(imm)), 5 + m.len))
      else None
    case MemOp(base, disp) =>
      if m.field != 0 then None
      else if code == 0xC6 && !p.short && |imm| >= 1 then Some(Decoded(StoreImm(1, base, disp, imm[0]), 2 + m.len))
      else if code != 0xC7 then None
      else if p.short && !p.w then
        if |imm| >= 2 then Some(Decoded(StoreImm(2, base, disp, FromBytes(imm[0], imm[1], 0, 0)), 3 + m.len)) else None
      else if |imm| >= 4 then Some(Decoded(StoreImm(if p.w then 8 else 4, base, disp, UnLe32(imm)), 5 + m.len))
      else None
  }

  /** Two-byte opcodes, after 0x0F. */
  function DecodeTwoByte(p: Pre, bs: seq<byte>): Option<Decoded> {
    if |bs| == 0 || p.short then None
    else if 0x80 <= bs[0] < 0x90 then
      if |bs| >= 5 then Some(Decoded(Jcc(bs[0] - 0x80, UnLe32(bs[1..])), 6)) else None
    else match DecodeModRm(p, bs[1..])
         case None => None
         case Some(m) =>
           match m.rm
           case RegOp(rm) => if bs[0] == 0xAF then Some(Decoded(ImulRr(p.w, m.reg, rm), 2 + m.len)) else None
           case MemOp(base, disp) =>
             if bs[0] == 0xB7 && !p.w then Some(Decoded(LoadX(2, m.reg, base, disp), 2 + m.len))
             else if bs[0] == 0xB6 && !p.w then Some(Decoded(LoadX(1, m.reg, base, disp), 2 + m.len))
             else None
  }

  /** Opcodes that carry an immediate after ModRM; 0xF7 only for TEST. */
  predicate TakesImm(code: byte, field: int) {
    code in {0x81, 0xC7, 0xC6, 0x69, 0xC1} || (code == 0xF7 && field == 0)
  }

  /** The instruction once its prefixes are read. */
  function DecodeOp(p: Pre, bs: seq<byte>): Option<Decoded> {
    if |bs| == 0 then None
    else if bs[0] == 0x0F then DecodeTwoByte(p, bs[1..])
    else if bs[0] == 0xC3 then Some(Decoded(Ret, 1))
    else if bs[0] == 0xE9 then if |bs| >= 5 then Some(Decoded(Jmp(UnLe32(bs[1..])), 5)) else None
    else if 0x50 <= bs[0] < 0x58 then Some(Decoded(Push(Ext(p.b, bs[0] - 0x50)), 1))
    else if 0x58 <= bs[0] < 0x60 then Some(Decoded(Pop(Ext(p.b, bs[0] - 0x58)), 1))
    else if 0xB8 <= bs[0] < 0xC0 then
      if p.w && |bs| >= 9 then Some(Decoded(MovAbs(Ext(p.b, bs[0] - 0xB8), UnLe64(bs[1..])), 9)) else None
    else match DecodeModRm(p, bs[1..])
         case None => None
         case Some(m) =>
           if TakesImm(bs[0], m.field) then DecodeImm(p, bs[0], m, bs[1 + m.len..])
           else DecodePlain(p, bs[0], 1, m)
  }

  /** The instruction at the front of `bs`, and its length. */
  function Decode(bs: seq<byte>): Option<Decoded> {
    var (p, n) := DecodePrefixes(bs);
    if n > |bs| then None
    else match DecodeOp(p, bs[n..])
         case None => None
         case Some(d) => Some(Decoded(d.x, n + d.len))
  }
}
