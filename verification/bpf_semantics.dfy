/** What the interpreter's arithmetic, byte orders and atomics mean, as sections 4 and 5.3 of RFC 9669 have them. */
module BpfSemantics {
  import opened Words
  import opened Memory
  import opened BpfInsn
  import opened BpfVerifier
  import opened BpfMachine

  // ---- division and shifts --------------------------------------------------

  function Width(is32: bool, v: u64): u64 { if is32 then Low32(v) else v }

  lemma DivRuns(is32: bool, a: u64, b: u64)
    ensures AluRun(DIV, is32, a, b) == Some(UDiv(Width(is32, a), Width(is32, b)))
  {
  }

  lemma ModRuns(is32: bool, a: u64, b: u64)
    ensures AluRun(MOD, is32, a, b) == Some(UMod(Width(is32, a), Width(is32, b)))
  {
  }

  /** DIV and MOD divide, unsigned and in the width; by zero they give zero and the dividend. */
  lemma DivisionMeans(is32: bool, a: u64, b: u64)
    ensures AluRun(DIV, is32, a, b).Some? && AluRun(MOD, is32, a, b).Some?
    ensures var q, r, x, y := AluRun(DIV, is32, a, b).value, AluRun(MOD, is32, a, b).value, Width(is32, a),
            Width(is32, b);
            if y == 0 then q == 0 && r == x else x == y * q + r && r < y
  {
    DivRuns(is32, a, b);
    ModRuns(is32, a, b);
    if Width(is32, b) > 0 { DivisionDivides(Width(is32, a), Width(is32, b)); }
  }

  /** MUL multiplies, in the width. */
  lemma MultiplicationMeans(is32: bool, a: u64, b: u64)
    ensures AluRun(MUL, is32, a, b) == Some(Width(is32, (Width(is32, a) * Width(is32, b)) % M64))
  {
    Mul64Multiplies(Width(is32, a), Width(is32, b));
  }

  lemma {:induction false} ShlMultiplies(a: u64, k: nat)
    ensures Shl64(a, k) == (a * Pow2(k)) % M64
    decreases k
  {
    if k > 0 {
      ShlMultiplies(Wrap64(2 * a), k - 1);
      WrapFactor(2 * a, Pow2(k - 1));
      assert (2 * a) * Pow2(k - 1) == a * Pow2(k);
    }
  }

  lemma {:induction false} ShrDivides(a: nat, k: nat)
    ensures Shr(a, k) == a / Pow2(k)
    decreases k
  {
    if k > 0 {
      ShrDivides(a / 2, k - 1);
      HalveThenDivide(a, Pow2(k - 1));
    }
  }

  lemma {:induction false} SarDivides(s: int, k: nat)
    ensures Sar(s, k) == s / Pow2(k)
    decreases k
  {
    if k > 0 {
      SarDivides(s / 2, k - 1);
      HalveThenDivide(s, Pow2(k - 1));
    }
  }

  lemma HalveThenDivide(s: int, p: nat)
    requires p > 0
    ensures (s / 2) / p == s / (2 * p)
  {
    var h := s / 2;
    var q := h / p;
    assert s == 2 * h + s % 2 && h == p * q + h % p;
    var r := s % 2 + 2 * (h % p);
    assert s == (2 * p) * q + r by { assert 2 * (p * q) == (2 * p) * q; }
    DivModUnique(s, 2 * p, q, r);
  }

  /** Shifts multiply and divide by a power of two, the count taken modulo the width; the arithmetic one rounds down. */
  lemma ShiftsMean(a: u64, b: u64)
    ensures AluRun(LSH, false, a, b) == Some((a * Pow2(b % 64)) % M64)
    ensures AluRun(RSH, false, a, b) == Some(a / Pow2(b % 64))
    ensures AluRun(ARSH, false, a, b) == Some(Wrap64(S64(a) / Pow2(b % 64)))
  {
    ShlMultiplies(a, b % 64);
    ShrDivides(a, b % 64);
    SarDivides(S64(a), b % 64);
  }

  lemma ShiftsMean32(a: u64, b: u64)
    ensures AluRun(LSH, true, a, b) == Some(((Low32(a) * Pow2(Low32(b) % 32)) % M64) % M32)
    ensures AluRun(RSH, true, a, b) == Some((Low32(a) / Pow2(Low32(b) % 32)) % M32)
    ensures AluRun(ARSH, true, a, b) == Some((S32(a) / Pow2(Low32(b) % 32)) % M32)
  {
    var x, k := Low32(a), Low32(b) % 32;
    LshRuns(a, b);
    ShlMultiplies(x, k);
    RshRuns(a, b);
    ShrDivides(x, k);
    ArshRuns(a, b);
    SarDivides(S32(a), k);
  }

  lemma LshRuns(a: u64, b: u64)
    ensures AluRun(LSH, true, a, b) == Some(Low32(Shl64(Low32(a), Low32(b) % 32)))
  {
  }

  lemma RshRuns(a: u64, b: u64)
    ensures AluRun(RSH, true, a, b) == Some(Low32(Shr(Low32(a), Low32(b) % 32)))
  {
  }

  lemma ArshRuns(a: u64, b: u64)
    ensures AluRun(ARSH, true, a, b) == Some(Low32(Sar(S32(a), Low32(b) % 32)))
  {
    assert S32(Low32(a)) == S32(a);
  }

  // ---- bits -----------------------------------------------------------------

  /** Bit `k` of a number. */
  predicate BitOf(v: nat, k: nat) { if k == 0 then v % 2 == 1 else BitOf(v / 2, k - 1) }

  /** A bitwise operation works bit by bit. */
  lemma {:induction false} BitwiseBits(op: BitOp, a: nat, b: nat, n: nat, k: nat)
    ensures BitOf(Bitwise(op, a, b, n), k) == (k < n && Bit(op, BitOf(a, k), BitOf(b, k)))
    decreases k + n
  {
    if n == 0 {
      NoBits(k);
    } else {
      var r := Bitwise(op, a / 2, b / 2, n - 1);
      if k > 0 {
        BitwiseBits(op, a / 2, b / 2, n - 1, k - 1);
        assert Bitwise(op, a, b, n) / 2 == r;
      }
    }
  }

  lemma {:induction false} NoBits(k: nat)
    ensures !BitOf(0, k)
    decreases k
  {
    if k > 0 { NoBits(k - 1); }
  }

  // ---- byte order -----------------------------------------------------------

  /** A byte in front comes out last. */
  lemma {:induction false} SwapHigh(d: nat, x: nat, n: nat)
    requires d < 256 && n > 0 && x < Pow256(n - 1)
    ensures ByteSwap(d * Pow256(n - 1) + x, n) == 256 * ByteSwap(x, n - 1) + d
    decreases n
  {
    if n == 1 {
      assert ByteSwap(d, 1) == (d % 256) * Pow256(0) + ByteSwap(d / 256, 0);
    } else {
      var p := Pow256(n - 2);
      FrontSplit(d, x, p);
      QuotientBelow(x, p);
      SwapHigh(d, x / 256, n - 1);
      SwapStep(d * (256 * p) + x, n, x % 256, d * p + x / 256);
      SwapStep(x, n - 1, x % 256, x / 256);
      Rearranged(x % 256, p, ByteSwap(x / 256, n - 2), d);
    }
  }

  lemma SwapStep(y: nat, n: nat, lo: nat, hi: nat)
    requires n > 0 && lo == y % 256 && hi == y / 256
    ensures ByteSwap(y, n) == lo * Pow256(n - 1) + ByteSwap(hi, n - 1)
  {
  }

  lemma Rearranged(b: nat, p: nat, rest: nat, d: nat)
    ensures b * (256 * p) + (256 * rest + d) == 256 * (b * p + rest) + d
  {
    assert b * (256 * p) == 256 * (b * p);
  }

  lemma FrontSplit(d: nat, x: nat, p: nat)
    ensures (d * (256 * p) + x) % 256 == x % 256 && (d * (256 * p) + x) / 256 == d * p + x / 256
  {
    assert d * (256 * p) == 256 * (d * p);
    DivModUnique(d * (256 * p) + x, 256, d * p + x / 256, x % 256);
  }

  lemma QuotientBelow(x: nat, p: nat)
    requires x < 256 * p
    ensures x / 256 < p
  {
  }

  /** Swapping twice gives the bytes back. */
  lemma {:induction false} SwapTwice(v: nat, n: nat)
    ensures ByteSwap(ByteSwap(v, n), n) == v % Pow256(n)
    decreases n
  {
    if n > 0 {
      SwapTwice(v / 256, n - 1);
      SwapHigh(v % 256, ByteSwap(v / 256, n - 1), n);
      ModSplit(v, Pow256(n - 1));
    }
  }

  /** Converting to big-endian twice is converting to little-endian once: a truncation to the width. */
  lemma EndTwice(imm: i32, v: u64)
    requires imm in {16, 32, 64}
    ensures EndRun(imm, true, EndRun(imm, true, v)) == EndRun(imm, false, v)
  {
    Pow256Values();
    SwapTwice(v, if imm == 16 then 2 else if imm == 32 then 4 else 8);
  }

  // ---- memory ---------------------------------------------------------------

  /** A store followed by a load of the same place and size gives the value back, to the size. */
  lemma StoreThenLoad(s: Insn, l: Insn, m: Machine, m1: Machine)
    requires s.dst < REG_CNT && s.src < REG_CNT && l.dst < REG_CNT && l.src < REG_CNT && ModeOf(s.code) != ModeAtomic
    requires StepStore(s, m) == Next(m1) && Bytes(l.code) == Bytes(s.code) && LoadAddr(l, m1) == StoreAddr(s, m)
    ensures StepLoad(l, m1).Next? && StepLoad(l, m1).m.regs[l.dst] == StoredValue(s, m) % Pow256(Bytes(s.code))
  {
    LoadStored(m.mem, StoreAddr(s, m), Bytes(s.code), StoredValue(s, m));
  }

  /** What an atomic leaves where it found `was`, on `n` bytes, with `val` to apply and `wanted` to compare. */
  ghost predicate Leaves(imm: i32, n: nat, was: u64, val: u64, wanted: u64, now: nat) {
    match imm - imm % 2
    case 0x00 => now == (was + val) % Pow256(n)
    case 0x40 => forall k :: 0 <= k < 8 * n ==> BitOf(now, k) == (BitOf(was, k) || BitOf(val, k))
    case 0x50 => forall k :: 0 <= k < 8 * n ==> BitOf(now, k) == (BitOf(was, k) && BitOf(val, k))
    case 0xa0 => forall k :: 0 <= k < 8 * n ==> BitOf(now, k) == (BitOf(was, k) != BitOf(val, k))
    case 0xe0 => now == val % Pow256(n)
    case 0xf0 => now == if was == wanted % Pow256(n) then val % Pow256(n) else was
    case _ => false
  }

  lemma LowSum(was: nat, val: nat)
    ensures ((was + val % M32) % M64) % M32 == (was + val) % M32
  {
    var q := val / M32;
    assert val == M32 * q + val % M32;
    var s := was + val % M32;
    assert s == M64 * (s / M64) + s % M64;
    assert was + val == M32 * q + s;
  }

  /** The bits of a bitwise operation on four or eight bytes. */
  lemma BitsLeft(op: BitOp, n: nat, was: u64, val: u64, k: nat)
    requires n in {4, 8} && k < 8 * n
    ensures var v := Bitwise(op, was, if n == 8 then val else Low32(val), 64);
            BitOf(v % Pow256(n), k) == Bit(op, BitOf(was, k), BitOf(val, k))
  {
    if n == 8 {
      BitwiseBits(op, was, val, 64, k);
      Whole(Bitwise(op, was, val, 64), n);
    } else {
      BitwiseBits(op, was, Low32(val), 64, k);
      LowHalf(Bitwise(op, was, Low32(val), 64), n, k);
      LowHalf(val, n, k);
    }
  }

  lemma Whole(v: nat, n: nat)
    requires n == 8 && v < Pow2(64)
    ensures v % Pow256(n) == v
  {
    Pow256Values();
    Pow2Values();
  }

  lemma LowHalf(v: nat, n: nat, k: nat)
    requires n == 4 && k < 32
    ensures v % Pow256(n) == Low32(v) && BitOf(v % Pow256(n), k) == BitOf(v, k)
  {
    Pow256Values();
    Pow2Values();
    LowBits(v, 32, k);
  }

  /** The value an atomic writes is the one it should leave, to its size. */
  lemma NewValue(imm: i32, n: nat, was: u64, val: u64, wanted: u64)
    requires AtomicOk(imm) && n in {4, 8} && was < Pow256(n)
    ensures var new_ := AtomicResult(imm, was, if n == 8 then val else Low32(val), if n == 8 then wanted
                                     else Low32(wanted));
            Leaves(imm, n, was, val, wanted, if new_.Some? then new_.value % Pow256(n) else was)
  {
    Pow256Values();
    var op := imm - imm % 2;
    if op == 0x00 {
      if n == 4 { LowSum(was, val); }
    } else if op == 0x40 {
      forall k | 0 <= k < 8 * n
        ensures BitOf(Or64(was, if n == 8 then val else Low32(val)) % Pow256(n), k) == (BitOf(was, k) || BitOf(val, k))
      {
        BitsLeft(BitOr, n, was, val, k);
      }
    } else if op == 0x50 {
      forall k | 0 <= k < 8 * n
        ensures BitOf(And64(was, if n == 8 then val else Low32(val)) % Pow256(n), k) == (BitOf(was, k) && BitOf(val, k))
      {
        BitsLeft(BitAnd, n, was, val, k);
      }
    } else if op == 0xa0 {
      forall k | 0 <= k < 8 * n
        ensures BitOf(Xor64(was, if n == 8 then val else Low32(val)) % Pow256(n), k) == (BitOf(was, k) != BitOf(val, k))
      {
        BitsLeft(BitXor, n, was, val, k);
      }
    }
  }

  /**
   * An atomic the verifier allows: its operation on the bytes it names and no others, with what was there fetched into
   * src, or into r0 by a compare-and-exchange.
   */
  lemma AtomicMeans(i: Insn, m: Machine, m1: Machine)
    requires i.dst < REG_CNT && i.src < REG_CNT && AtomicOk(i.imm) && StepAtomic(i, m) == Next(m1)
    ensures var n, a := AtomicBytes(i.code), StoreAddr(i, m);
            && Leaves(i.imm, n, AtomicOld(i, m), StoredValue(i, m), m.regs[0], Load(m1.mem, a, n))
            && forall x: u64 :: !InSpan(x, a, n) ==> Rd(m1.mem, x) == Rd(m.mem, x)
    ensures m1.regs == if i.imm == CMPXCHG then m.regs[0 := AtomicOld(i, m)]
            else if i.imm % 2 == 1 then m.regs[i.src := AtomicOld(i, m)] else m.regs
  {
    var n, a := AtomicBytes(i.code), StoreAddr(i, m);
    NewValue(i.imm, n, AtomicOld(i, m), StoredValue(i, m), m.regs[0]);
    AtomicPuts(i, m);
    OldFetched(i, m);
  }

  /** Where an atomic writes, and what is there then. */
  lemma AtomicPuts(i: Insn, m: Machine)
    requires i.dst < REG_CNT && i.src < REG_CNT
    ensures var n, a, v := AtomicBytes(i.code), StoreAddr(i, m), AtomicNew(i, m);
            && Load(AtomicMem(i, m), a, n) == (if v.Some? then v.value % Pow256(n) else AtomicOld(i, m))
            && forall x: u64 :: !InSpan(x, a, n) ==> Rd(AtomicMem(i, m), x) == Rd(m.mem, x)
  {
    var n, a, v := AtomicBytes(i.code), StoreAddr(i, m), AtomicNew(i, m);
    if v.Some? {
      LoadStored(m.mem, a, n, v.value);
      forall x: u64 | !InSpan(x, a, n)
        ensures Rd(Store(m.mem, a, n, v.value), x) == Rd(m.mem, x)
      {
        StoreElsewhere(m.mem, a, n, v.value, x);
      }
    }
  }

  lemma OldFetched(i: Insn, m: Machine)
    requires i.dst < REG_CNT && i.src < REG_CNT && AtomicOk(i.imm)
    ensures AtomicRegs(i, m) ==
            if i.imm == CMPXCHG then m.regs[0 := AtomicOld(i, m)]
                else if i.imm % 2 == 1 then m.regs[i.src := AtomicOld(i, m)] else m.regs
  {
    AllowedOps(i.imm);
  }

  lemma AllowedOps(imm: i32)
    requires AtomicOk(imm)
    ensures imm - imm % 2 in {0x00, 0x40, 0x50, 0xa0, 0xe0, 0xf0} && (imm - imm % 2 == 0xf0 <==> imm == CMPXCHG)
  {
  }

  /** The low bits of a number are its bits. */
  lemma {:induction false} LowBits(v: nat, n: nat, k: nat)
    requires k < n
    ensures BitOf(v % Pow2(n), k) == BitOf(v, k)
    decreases n
  {
    var p := Pow2(n - 1);
    HalfOfLow(v, p);
    if k > 0 { LowBits(v / 2, n - 1, k - 1); }
  }

  lemma HalfOfLow(v: nat, p: nat)
    requires p > 0
    ensures (v % (2 * p)) % 2 == v % 2 && (v % (2 * p)) / 2 == (v / 2) % p
  {
    var q := v / 2;
    var k := q / p;
    assert v == 2 * q + v % 2 && q == p * k + q % p;
    var r := v % 2 + 2 * (q % p);
    assert v == (2 * p) * k + r by { assert 2 * (p * k) == (2 * p) * k; }
    DivModUnique(v, 2 * p, k, r);
    DivModUnique(r, 2, q % p, v % 2);
  }
}
