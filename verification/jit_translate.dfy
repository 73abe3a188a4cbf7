/** What kernel/bpf/bpf_jit_x86.c emits for each BPF instruction, and where in the code it puts it. */
module JitTranslate {
  import opened Words
  import opened BpfInsn
  import opened BpfVerifier
  import opened X86

  /**
   * A request: the program and its maps, the address of the helper dispatcher, and the immediate that
   * would be read as the second half of a wide load in the program's last slot.
   */
  datatype Req = Req(p: Prog, b: Bounds, fn: u64, beyond: i32)

  const JIT_REG: seq<reg> := [0, 7, 6, 2, 1, 8, 3, 13, 14, 15, 5]

  function JitReg(r: nat): reg
    requires r < REG_CNT
  {
    JIT_REG[r]
  }

  // ---- one instruction ------------------------------------------------------

  /** The two-operand forms: from a register, or from an immediate. */
  function Binary(rr: RrOp, ri: RiOp, w: bool, i: Insn): seq<X>
    requires i.dst < REG_CNT && i.src < REG_CNT
  {
    if SrcIsReg(i.code) then [Rr(rr, w, JitReg(i.dst), JitReg(i.src))] else [Ri(ri, w, JitReg(i.dst), Low32(i.imm))]
  }

  /** A shift counts in cl: unless the count is already there, rcx is saved round it. */
  function Shift(op: ShiftOp, w: bool, i: Insn): Option<seq<X>>
    requires i.dst < REG_CNT && i.src < REG_CNT
  {
    var dst, src := JitReg(i.dst), JitReg(i.src);
    if !SrcIsReg(i.code) then Some([ShiftImm(op, w, dst, i.imm % (if w then 64 else 32))])
    else if src == RCX then Some([ShiftCl(op, w, dst)])
    else if dst == RCX then None
    else Some([Push(RCX), Rr(MovRr, true, RCX, src), ShiftCl(op, w, dst), Pop(RCX)])
  }

  function XlateAlu(i: Insn): Option<seq<X>>
    requires i.dst < REG_CNT && i.src < REG_CNT
  {
    var w := ClassOf(i.code) == ALU64;
    var dst, src := JitReg(i.dst), JitReg(i.src);
    match AluOpOf(i.code)
    case ADD => Some(Binary(AddRr, AddRi, w, i))
    case SUB => Some(Binary(SubRr, SubRi, w, i))
    case OR => Some(Binary(OrRr, OrRi, w, i))
    case AND => Some(Binary(AndRr, AndRi, w, i))
    case XOR => Some(Binary(XorRr, XorRi, w, i))
    case MUL => Some([if SrcIsReg(i.code) then ImulRr(w, dst, src) else ImulRi(w, dst, Low32(i.imm))])
    case MOV => Some([if SrcIsReg(i.code) then Rr(MovRr, w, dst, src) else MovImm(w, dst, Low32(i.imm))])
    case NEG => Some([Neg(w, dst)])
    case LSH => Shift(Shl, w, i)
    case RSH => Shift(ShrL, w, i)
    case ARSH => Shift(SarL, w, i)
    case _ => None
  }

  function XlateLoad(i: Insn): Option<seq<X>>
    requires i.dst < REG_CNT && i.src < REG_CNT
  {
    if ModeOf(i.code) != ModeMem then None
    else Some([LoadX(Bytes(i.code), JitReg(i.dst), JitReg(i.src), Low32(i.off))])
  }

  /** The immediate as the store's field holds it. */
  function ImmField(size: nat, imm: i32): u32 {
    if size == 1 then imm % 0x100 else if size == 2 then imm % 0x1_0000 else Low32(imm)
  }

  function XlateStore(i: Insn): Option<seq<X>>
    requires i.dst < REG_CNT && i.src < REG_CNT
  {
    var size, base := Bytes(i.code), JitReg(i.dst);
    if ModeOf(i.code) != ModeMem then None
    else if ClassOf(i.code) == ST then Some([StoreImm(size, base, Low32(i.off), ImmField(size, i.imm))])
    else Some([StoreX(size, base, Low32(i.off), JitReg(i.src))])
  }

  /** The 64-bit value of the wide load at `pc`. */
  function WideValue(q: Req, pc: nat): u64
    requires pc < |q.p.insns|
  {
    var i := q.p.insns[pc];
    if i.src == 1 then (if 0 <= i.off < |q.p.maps| then Def(q.b, q.p.maps[i.off]).addr else 0)
    else WideLiteral(i.imm, if pc + 1 < |q.p.insns| then q.p.insns[pc + 1].imm else q.beyond)
  }

  /** Every argument moves up one register, and the helper's number goes first. */
  function HelperCode(id: u32, fn: u64): seq<X> {
    [Rr(MovRr, true, 9, 8), Rr(MovRr, true, 8, 1), Rr(MovRr, true, 1, 2), Rr(MovRr, true, 2, 6), Rr(MovRr, true, 6, 7),
     MovImm(false, 7, id), MovAbs(RAX, fn), CallRax]
  }

  /** jit_cc */
  function Cc(op: JmpOp): Option<nib> {
    match op
    case JEQ => Some(0x4)
    case JNE => Some(0x5)
    case JGT => Some(0x7)
    case JGE => Some(0x3)
    case JLT => Some(0x2)
    case JLE => Some(0x6)
    case JSGT => Some(0xF)
    case JSGE => Some(0xD)
    case JSLT => Some(0xC)
    case JSLE => Some(0xE)
    case JSET => Some(0x5)
    case _ => None
  }

  /** The instruction that sets the flags a conditional jump reads. */
  function Compare(i: Insn): X
    requires i.dst < REG_CNT && i.src < REG_CNT
  {
    var w := ClassOf(i.code) == JMP;
    var dst, src := JitReg(i.dst), JitReg(i.src);
    if JmpOpOf(i.code) == JSET then
      if SrcIsReg(i.code) then Rr(TestRr, w, dst, src) else TestImm(w, dst, Low32(i.imm))
    else if SrcIsReg(i.code) then Rr(CmpRr, w, dst, src)
    else Ri(CmpRi, w, dst, Low32(i.imm))
  }

  function XlateJump(q: Req, pc: nat, i: Insn, rel: u32): Option<seq<X>>
    requires i.dst < REG_CNT && i.src < REG_CNT
  {
    var op := JmpOpOf(i.code);
    var target := pc + 1 + i.off;
    if op == EXIT then Some(Epilogue)
    else if op == CALL then Some(HelperCode(Low32(i.imm), q.fn))
    else if target < 0 || target >= |q.p.insns| then None
    else if op == JA then Some([Jmp(rel)])
    else if Cc(op).None? then None
    else Some([Compare(i), Jcc(Cc(op).value, rel)])
  }

  /**
   * The translation of the instruction at `pc`, its jump (if it is one) displaced by `rel`; None where the translator
   * gives up.
   */
  function Xlate(q: Req, pc: nat, rel: u32): Option<seq<X>>
    requires pc < |q.p.insns|
  {
    var i := q.p.insns[pc];
    if i.dst >= REG_CNT || i.src >= REG_CNT then None
    else match ClassOf(i.code)
    case ALU => XlateAlu(i)
    case ALU64 => XlateAlu(i)
    case LDX => XlateLoad(i)
    case ST => XlateStore(i)
    case STX => XlateStore(i)
    case LD => if i.code == WIDE then Some([MovAbs(JitReg(i.dst), WideValue(q, pc))]) else None
    case JMP => XlateJump(q, pc, i, rel)
    case JMP32 => XlateJump(q, pc, i, rel)
  }

  // ---- prologue and epilogue ------------------------------------------------

  /** Zero word `j` of the frame, counting down from its top. */
  function ZeroWord(j: nat): X { StoreImm(8, RBP, Low32(0 - 8 * (j + 1)), 0) }

  function ZeroFrame(): seq<X> { seq(SLOTS, (j: nat) => ZeroWord(j)) }

  const Entry: seq<X> := [Push(RBP), Rr(MovRr, true, RBP, RSP), Ri(SubRi, true, RSP, 512)]

  const Saves: seq<X> := [Push(3), Push(13), Push(14), Push(15)]

  function Prologue(): seq<X> { Entry + ZeroFrame() + Saves }

  const Epilogue: seq<X> := [Pop(15), Pop(14), Pop(13), Pop(3), Ri(AddRi, true, RSP, 512), Pop(RBP), Ret]

  // ---- layout ---------------------------------------------------------------

  /** How instructions become bytes. */
  type Encoder = X -> seq<byte>

  function EncodeAll(enc: Encoder, xs: seq<X>): seq<byte> {
    if xs == [] then [] else enc(xs[0]) + EncodeAll(enc, xs[1..])
  }

  /** How many bytes the instruction at `pc` becomes; none for the second half of a wide load. */
  function Length(enc: Encoder, q: Req, pc: nat): nat {
    if pc >= |q.p.insns| || Half(q.p.insns, pc) || Xlate(q, pc, 0).None? then 0
        else |EncodeAll(enc, Xlate(q, pc, 0).value)|
  }

  function Lengths(enc: Encoder, q: Req): nat -> nat { (pc: nat) => Length(enc, q, pc) }

  function Total(first: nat, len: nat -> nat, n: nat): nat {
    if n == 0 then first else Total(first, len, n - 1) + len(n - 1)
  }

  /** Where the code of the instructions before `pc` ends. */
  function End(enc: Encoder, q: Req, pc: nat): nat { Total(|EncodeAll(enc, Prologue())|, Lengths(enc, q), pc) }

  /** offs[pc]; a second half has the offset of the load it belongs to. */
  function OffsetOf(enc: Encoder, q: Req, pc: nat): nat
    requires pc < |q.p.insns|
  {
    if Half(q.p.insns, pc) then End(enc, q, pc - 1) else End(enc, q, pc)
  }

  /** Where the jump at `pc` goes in the program; itself if it is not a jump. */
  function TargetPc(q: Req, pc: nat): nat
    requires pc < |q.p.insns|
  {
    var t := pc + 1 + q.p.insns[pc].off;
    if 0 <= t < |q.p.insns| then t else pc
  }

  function Displacement(here: nat, there: nat): u32 { Low32(there - here) }

  /** The displacement from the end of the instruction at `pc` to its target. */
  function JumpRel(enc: Encoder, q: Req, pc: nat): u32
    requires pc < |q.p.insns|
  {
    Displacement(End(enc, q, pc + 1), OffsetOf(enc, q, TargetPc(q, pc)))
  }

  /** The bytes the instruction at `pc` becomes in the final pass. */
  function Bytecode(enc: Encoder, q: Req, pc: nat): seq<byte> {
    if pc >= |q.p.insns| || Half(q.p.insns, pc) || Xlate(q, pc, JumpRel(enc, q, pc)).None? then []
        else EncodeAll(enc, Xlate(q, pc, JumpRel(enc, q, pc)).value)
  }

  function Pieces(enc: Encoder, q: Req): nat -> seq<byte> { (pc: nat) => Bytecode(enc, q, pc) }

  /** `first`, then the first `n` pieces. */
  function Joined(first: seq<byte>, piece: nat -> seq<byte>, n: nat): seq<byte> {
    if n == 0 then first else Joined(first, piece, n - 1) + piece(n - 1)
  }

  /** The code before the instruction at `pc`. */
  function CodeTo(enc: Encoder, q: Req, pc: nat): seq<byte> { Joined(EncodeAll(enc, Prologue()), Pieces(enc, q), pc) }

  function Code(enc: Encoder, q: Req): seq<byte> { CodeTo(enc, q, |q.p.insns|) + EncodeAll(enc, Epilogue) }

  /** Every instruction the pass comes to has a translation. */
  predicate Translates(q: Req) {
    forall pc :: 0 <= pc < |q.p.insns| && !Half(q.p.insns, pc) ==> Xlate(q, pc, 0).Some?
  }

  // ---- the two passes agree -------------------------------------------------

  lemma {:induction false} EncodeAllSplit(enc: Encoder, xs: seq<X>, ys: seq<X>)
    ensures EncodeAll(enc, xs + ys) == EncodeAll(enc, xs) + EncodeAll(enc, ys)
    decreases |xs|
  {
    if xs == [] {
      assert xs + ys == ys;
    } else {
      EncodeAllSplit(enc, xs[1..], ys);
      assert (xs + ys)[1..] == xs[1..] + ys;
    }
  }

  lemma EncodeOne(enc: Encoder, x: X)
    ensures EncodeAll(enc, [x]) == enc(x)
  {
    assert [x][1..] == [];
  }

  lemma EncodePair(enc: Encoder, x: X, y: X)
    ensures EncodeAll(enc, [x, y]) == enc(x) + enc(y)
  {
    assert [x, y][1..] == [y];
    EncodeOne(enc, y);
  }

  /** The encodings of jumps are of fixed length: the displacement does not matter. */
  ghost predicate FixedJumps(enc: Encoder) {
    (forall rel :: |enc(Jmp(rel))| == |enc(Jmp(0))|) && (forall cc, rel :: |enc(Jcc(cc, rel))| == |enc(Jcc(cc, 0))|)
  }

  /** The displacement changes neither whether nor how long an instruction translates. */
  lemma SameLength(enc: Encoder, q: Req, pc: nat, rel: u32)
    requires pc < |q.p.insns| && FixedJumps(enc)
    ensures Xlate(q, pc, rel).Some? == Xlate(q, pc, 0).Some?
    ensures Xlate(q, pc, rel).Some? ==>
            |EncodeAll(enc, Xlate(q, pc, rel).value)| == |EncodeAll(enc, Xlate(q, pc, 0).value)|
  {
    var i := q.p.insns[pc];
    if i.dst < REG_CNT && i.src < REG_CNT && Xlate(q, pc, rel).Some? && ClassOf(i.code) in {JMP, JMP32} {
      JumpSameLength(enc, q, pc, i, rel);
    }
  }

  lemma JumpSameLength(enc: Encoder, q: Req, pc: nat, i: Insn, rel: u32)
    requires i.dst < REG_CNT && i.src < REG_CNT && XlateJump(q, pc, i, rel).Some? && FixedJumps(enc)
    ensures XlateJump(q, pc, i, 0).Some?
    ensures |EncodeAll(enc, XlateJump(q, pc, i, rel).value)| == |EncodeAll(enc, XlateJump(q, pc, i, 0).value)|
  {
    var op := JmpOpOf(i.code);
    if op == JA {
      EncodeOne(enc, Jmp(rel));
      EncodeOne(enc, Jmp(0));
    } else if op != EXIT && op != CALL {
      EncodePair(enc, Compare(i), Jcc(Cc(op).value, rel));
      EncodePair(enc, Compare(i), Jcc(Cc(op).value, 0));
    }
  }

  lemma {:induction false} JoinedTotal(first: seq<byte>, piece: nat -> seq<byte>, len: nat -> nat, n: nat)
    requires forall k: nat :: k < n ==> |piece(k)| == len(k)
    ensures |Joined(first, piece, n)| == Total(|first|, len, n)
  {
    if n > 0 { JoinedTotal(first, piece, len, n - 1); }
  }

  /** Both passes lay the code out alike: what the second writes before `pc` ends where the first said it would. */
  lemma LayoutStable(enc: Encoder, q: Req, pc: nat)
    requires pc <= |q.p.insns| && FixedJumps(enc)
    ensures |CodeTo(enc, q, pc)| == End(enc, q, pc)
  {
    forall k: nat | k < pc
      ensures |Pieces(enc, q)(k)| == Lengths(enc, q)(k)
    {
      SameLength(enc, q, k, JumpRel(enc, q, k));
    }
    JoinedTotal(EncodeAll(enc, Prologue()), Pieces(enc, q), Lengths(enc, q), pc);
  }

  lemma {:induction false} JoinedGrows(first: seq<byte>, piece: nat -> seq<byte>, n: nat, n': nat)
    requires n <= n'
    ensures Joined(first, piece, n) <= Joined(first, piece, n')
    decreases n'
  {
    if n < n' { JoinedGrows(first, piece, n, n' - 1); }
  }

  lemma JoinedAt(first: seq<byte>, piece: nat -> seq<byte>, k: nat, n: nat, rest: seq<byte>)
    requires k < n
    ensures |Joined(first, piece, k)| + |piece(k)| == |Joined(first, piece, k + 1)| <= |Joined(first, piece, n) + rest|
    ensures (Joined(first, piece, n) + rest)[|Joined(first, piece, k)|..|Joined(first, piece, k + 1)|] == piece(k)
  {
    JoinedGrows(first, piece, k + 1, n);
    var all, whole := Joined(first, piece, n) + rest, Joined(first, piece, k + 1);
    assert all[..|whole|] == whole;
    assert all[|Joined(first, piece, k)|..|whole|] == whole[|Joined(first, piece, k)|..];
  }

  /** The bytes at an instruction's offset are its translation. */
  lemma CodeAt(enc: Encoder, q: Req, pc: nat)
    requires pc < |q.p.insns| && !Half(q.p.insns, pc) && FixedJumps(enc)
    ensures OffsetOf(enc, q, pc) + |Bytecode(enc, q, pc)| == End(enc, q, pc + 1) <= |Code(enc, q)|
    ensures Code(enc, q)[OffsetOf(enc, q, pc)..End(enc, q, pc + 1)] == Bytecode(enc, q, pc)
  {
    LayoutStable(enc, q, pc);
    LayoutStable(enc, q, pc + 1);
    JoinedAt(EncodeAll(enc, Prologue()), Pieces(enc, q), pc, |q.p.insns|, EncodeAll(enc, Epilogue));
  }

  /** A displacement leads to the target's first byte. */
  lemma RelLands(enc: Encoder, q: Req, pc: nat)
    requires pc < |q.p.insns| && |Code(enc, q)| < 0x8000_0000 && FixedJumps(enc)
    ensures End(enc, q, pc + 1) + S32(JumpRel(enc, q, pc)) == OffsetOf(enc, q, TargetPc(q, pc))
  {
    EndBounded(enc, q, pc + 1);
    OffBounded(enc, q, TargetPc(q, pc));
    Displaced(End(enc, q, pc + 1), OffsetOf(enc, q, TargetPc(q, pc)));
  }

  lemma OffBounded(enc: Encoder, q: Req, pc: nat)
    requires pc < |q.p.insns| && FixedJumps(enc)
    ensures OffsetOf(enc, q, pc) <= |Code(enc, q)|
  {
    EndBounded(enc, q, if Half(q.p.insns, pc) then pc - 1 else pc);
  }

  lemma Displaced(here: nat, there: nat)
    requires here < 0x8000_0000 && there < 0x8000_0000
    ensures here + S32(Displacement(here, there)) == there
  {
    SignOfLow(there - here);
  }

  lemma SignOfLow(d: int)
    requires -0x8000_0000 <= d < 0x8000_0000
    ensures S32(Low32(d)) == d
  {
    if d < 0 { assert Low32(d) == d + M32; }
  }

  lemma EndBounded(enc: Encoder, q: Req, pc: nat)
    requires pc <= |q.p.insns| && FixedJumps(enc)
    ensures End(enc, q, pc) <= |Code(enc, q)|
  {
    LayoutStable(enc, q, pc);
    JoinedGrows(EncodeAll(enc, Prologue()), Pieces(enc, q), pc, |q.p.insns|);
  }
}
