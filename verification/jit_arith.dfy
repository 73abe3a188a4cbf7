/** The processor's arithmetic and condition codes compute what the interpreter's do. */
module JitArith {
  import opened Words
  import opened BpfInsn
  import opened BpfMachine
  import opened X86
  import opened X86Machine
  import opened JitTranslate

  lemma LowOfWrap(x: int)
    ensures Low32(Wrap64(x)) == Low32(x)
  {
    var q := x / M64;
    assert x == q * M64 + Wrap64(x);
    assert q * M64 == (q * M32) * M32;
    ModMultiple(Wrap64(x), q * M32);
  }

  lemma ModMultiple(x: int, k: int)
    ensures (k * M32 + x) % M32 == x % M32
  {
  }

  lemma LowLow(x: int)
    ensures Low32(Low32(x)) == Low32(x)
  {
  }

  /** An immediate is one value, however wide it is taken. */
  lemma ImmMeans(w: bool, imm: i32)
    ensures ImmAt(w, Low32(imm)) == if w then Wrap64(imm) else Low32(Wrap64(imm))
  {
    SignOfLow(imm);
    LowOfWrap(imm);
  }

  /** The interpreter's operation an x86 one stands for. */
  predicate Same(rr: RrOp, op: AluOp) {
    match op
    case ADD => rr == AddRr
    case SUB => rr == SubRr
    case OR => rr == OrRr
    case AND => rr == AndRr
    case XOR => rr == XorRr
    case MOV => rr == MovRr
    case _ => false
  }

  lemma RrMeans(rr: RrOp, op: AluOp, w: bool, a: u64, b: u64)
    requires Same(rr, op)
    ensures AluRun(op, !w, a, b) == Some(RrResult(rr, w, a, b))
  {
    if w {
      WrapSmall(a);
      WrapSmall(b);
      if op == OR { WrapSmall(Or64(a, b)); }
      if op == AND { WrapSmall(And64(a, b)); }
      if op == XOR { WrapSmall(Xor64(a, b)); }
    } else {
      LowLow(b);
      if op == ADD { LowOfWrap(Low32(a) + Low32(b)); }
      if op == SUB { LowOfWrap(Low32(a) - Low32(b)); }
    }
  }

  /** The operand may have been truncated to the width already. */
  lemma RunTruncates(op: AluOp, a: u64, b: u64)
    ensures AluRun(op, true, a, Low32(b)) == AluRun(op, true, a, b)
  {
    LowLow(b);
  }

  lemma MulMeans(w: bool, a: u64, b: u64)
    ensures AluRun(MUL, !w, a, b) == Some(At(w, Mul64(At(w, a), At(w, b))))
  {
    if w {
      WrapSmall(a);
      WrapSmall(b);
      WrapSmall(Mul64(a, b));
    }
  }

  lemma NegMeans(w: bool, a: u64, b: u64)
    ensures AluRun(NEG, !w, a, b) == Some(Negated(w, At(w, a)))
  {
    if w {
      WrapSmall(a);
      NegatedSigned(a);
    } else {
      NegatedSigned(Low32(a));
      LowOfWrap(0 - Low32(a));
    }
  }

  lemma NegatedSigned(a: u64)
    ensures Wrap64(-S64(a)) == Wrap64(0 - a)
  {
    if a >= 0x8000_0000_0000_0000 { WrapOnce(0 - a); }
  }

  lemma WrapOnce(x: int)
    ensures Wrap64(x + M64) == Wrap64(x)
  {
  }

  predicate SameShift(sh: ShiftOp, op: AluOp) {
    match op case LSH => sh == Shl case RSH => sh == ShrL case ARSH => sh == SarL case _ => false
  }

  /** A count is taken modulo the width. */
  predicate Counts(w: bool, n: nat, b: u64) { if w then n % 64 == b % 64 else n % 32 == Low32(b) % 32 }

  lemma ShiftMeans(sh: ShiftOp, op: AluOp, w: bool, a: u64, b: u64, n: nat)
    requires SameShift(sh, op) && Counts(w, n, b)
    ensures AluRun(op, !w, a, b) == Some(ShiftResult(sh, w, a, n))
  {
    if w {
      WrapSmall(a);
      if op == LSH { WrapSmall(Shl64(a, b % 64)); }
    } else if op == RSH {
      SmallLow(Shr(Low32(a), Low32(b) % 32));
    } else if op == ARSH {
      LowLow(Sar(S32(Low32(a)), Low32(b) % 32));
    }
  }

  lemma SmallLow(x: nat)
    requires x < M32
    ensures Low32(x) == x
  {
  }

  lemma ImmCounts(w: bool, imm: i32)
    ensures Counts(w, imm % (if w then 64 else 32), Wrap64(imm))
  {
    if w { WrapMod64(imm); } else { LowOfWrap(imm); LowMod32(imm); }
  }

  lemma WrapMod64(x: int)
    ensures Wrap64(x) % 64 == x % 64
  {
    var q := x / M64;
    assert x == q * M64 + Wrap64(x);
    Mod64Multiple(Wrap64(x), q * 0x400_0000_0000_0000);
  }

  lemma Mod64Multiple(x: int, k: int)
    ensures (64 * k + x) % 64 == x % 64
  {
  }

  lemma LowMod32(x: int)
    ensures Low32(x) % 32 == x % 32
  {
    var q := x / M32;
    assert x == q * M32 + Low32(x);
    Mod32Multiple(Low32(x), q * 0x800_0000);
  }

  lemma Mod32Multiple(x: int, k: int)
    ensures (32 * k + x) % 32 == x % 32
  {
  }

  lemma ClCounts(w: bool, b: u64)
    ensures Counts(w, b % 256, b)
  {
    if w { Nested(b, 64); } else { Nested(b, 32); LowMod32(b); }
  }

  lemma Nested(b: nat, n: nat)
    requires n == 64 || n == 32
    ensures (b % 256) % n == b % n
  {
    var q := b / 256;
    if n == 64 { Mod64Multiple(b % 256, 4 * q); } else { Mod32Multiple(b % 256, 8 * q); }
  }

  // ---- condition codes ------------------------------------------------------

  /** CMP's overflow and sign flags together say which signed value is less. */
  lemma SignedLess(w: bool, a: u64, b: u64)
    ensures (CmpFlags(w, a, b).sf != CmpFlags(w, a, b).of) == (Signed(w, At(w, a)) < Signed(w, At(w, b)))
  {
    var x, y := At(w, a), At(w, b);
    Difference(w, x, y);
  }

  lemma Difference(w: bool, x: u64, y: u64)
    requires !w ==> x < M32 && y < M32
    ensures At(w, x - y) == if x >= y then x - y else if w then x - y + M64 else x - y + M32
  {
  }

  /** After a comparison, every condition the translator uses decides its jump. */
  lemma CmpMeans(op: JmpOp, w: bool, a: u64, b: u64)
    requires Cc(op).Some? && op != JSET
    ensures JmpRun(op, !w, a, b).Some?
    ensures Holds(Cc(op).value, CmpFlags(w, a, b)) == JmpRun(op, !w, a, b)
  {
    WrapSmall(a);
    WrapSmall(b);
    SignedLess(w, a, b);
    SignedApart(w, At(w, a), At(w, b));
  }

  lemma SignedApart(w: bool, x: u64, y: u64)
    requires !w ==> x < M32 && y < M32
    ensures (Signed(w, x) == Signed(w, y)) == (x == y)
  {
  }

  lemma TestMeans(w: bool, a: u64, b: u64)
    ensures Holds(0x5, TestFlags(w, a, b)) == JmpRun(JSET, !w, a, b) && JmpRun(JSET, !w, a, b).Some?
  {
    WrapSmall(a);
    WrapSmall(b);
  }

  /** The 32-bit comparison sees only the low half of its operand. */
  lemma JmpTruncates(op: JmpOp, a: u64, b: u64)
    ensures JmpRun(op, true, a, Low32(b)) == JmpRun(op, true, a, b)
  {
    LowLow(b);
  }
}
