/** The eBPF instruction encoding (kernel/include/b1nix/bpf_insn.h; sections 3 to 5 of RFC 9669). */
module BpfInsn {
  import opened Words

  type nibble = x: int | 0 <= x < 16

  /** One 8-byte instruction; `dst` and `src` are the two nibbles of dst_src. */
  datatype Insn = Insn(code: byte, dst: nibble, src: nibble, off: i16, imm: i32)

  const REG_CNT: nat := 11
  const STACK_SIZE: int := 512
  const SLOTS: nat := 64
  const MAX_INSNS: nat := 4096
  const MAX_STEPS: nat := 16384
  const PROG_MAX_MAPS: nat := 8

  /** BPF_LD | BPF_DW | BPF_IMM */
  const WIDE: byte := 0x18
  /** The immediate that marks a map load as resolved. */
  const RESOLVED: i32 := 0x7fff_ffff

  const XCHG: int := 0xe1
  const CMPXCHG: int := 0xf1

  datatype Class = LD | LDX | ST | STX | ALU | JMP | JMP32 | ALU64

  function ClassOf(code: byte): Class {
    match code % 8
    case 0 => LD
    case 1 => LDX
    case 2 => ST
    case 3 => STX
    case 4 => ALU
    case 5 => JMP
    case 6 => JMP32
    case _ => ALU64
  }

  datatype AluOp = ADD | SUB | MUL | DIV | OR | AND | LSH | RSH | NEG | MOD | XOR | MOV | ARSH | END | BadAlu

  function AluOpOf(code: byte): AluOp {
    match code / 16
    case 0 => ADD
    case 1 => SUB
    case 2 => MUL
    case 3 => DIV
    case 4 => OR
    case 5 => AND
    case 6 => LSH
    case 7 => RSH
    case 8 => NEG
    case 9 => MOD
    case 10 => XOR
    case 11 => MOV
    case 12 => ARSH
    case 13 => END
    case _ => BadAlu
  }

  datatype JmpOp = JA | JEQ | JGT | JGE | JSET | JNE | JSGT | JSGE | CALL | EXIT | JLT | JLE | JSLT | JSLE | BadJmp

  function JmpOpOf(code: byte): JmpOp {
    match code / 16
    case 0 => JA
    case 1 => JEQ
    case 2 => JGT
    case 3 => JGE
    case 4 => JSET
    case 5 => JNE
    case 6 => JSGT
    case 7 => JSGE
    case 8 => CALL
    case 9 => EXIT
    case 10 => JLT
    case 11 => JLE
    case 12 => JSLT
    case 13 => JSLE
    case _ => BadJmp
  }

  /** BPF_SRC(code) == BPF_X */
  predicate SrcIsReg(code: byte) { (code / 8) % 2 == 1 }

  datatype Mode = ModeMem | ModeAtomic | ModeOther

  /** code & 0xe0 */
  function ModeOf(code: byte): Mode {
    if code / 32 == 3 then ModeMem else if code / 32 == 6 then ModeAtomic else ModeOther
  }

  /** insn_bytes */
  function Bytes(code: byte): (n: nat)
    ensures n in {1, 2, 4, 8}
  {
    match (code / 8) % 4
    case 0 => 4
    case 1 => 2
    case 2 => 1
    case _ => 8
  }

  /** The 64-bit literal a wide load carries: its own immediate below, the second half's above. */
  function WideLiteral(lo: i32, hi: i32): u64 { Low32(lo) + Low32(hi) * M32 }
}
