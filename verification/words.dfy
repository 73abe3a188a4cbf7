/** Machine words as bounded integers, with C's wrap-around written out. */
module Words {

  const M16: int := 0x1_0000
  const M32: int := 0x1_0000_0000
  const M64: int := 0x1_0000_0000_0000_0000

  type byte = x: int | 0 <= x < 0x100
  type u32 = x: int | 0 <= x < 0x1_0000_0000
  type u64 = x: int | 0 <= x < 0x1_0000_0000_0000_0000
  type i16 = x: int | -0x8000 <= x < 0x8000
  type i32 = x: int | -0x8000_0000 <= x < 0x8000_0000

  datatype Option<+T> = None | Some(value: T)

  /** (u64)x */
  function Wrap64(x: int): u64 { x % M64 }

  /** (u32)x */
  function Low32(x: int): u32 { x % M32 }

  /** (i64)x */
  function S64(x: u64): int { if x < 0x8000_0000_0000_0000 then x else x - M64 }

  /** (i32)(u32)x */
  function S32(x: int): int {
    var y := x % M32;
    if y < 0x8000_0000 then y else y - M32
  }

  function Pow2(n: nat): (p: nat)
    ensures p > 0
  {
    if n == 0 then 1 else 2 * Pow2(n - 1)
  }

  datatype BitOp = BitAnd | BitOr | BitXor

  function Bit(op: BitOp, x: bool, y: bool): bool {
    match op
    case BitAnd => x && y
    case BitOr => x || y
    case BitXor => x != y
  }

  /** The low `n` bits of a bitwise operation. */
  function Bitwise(op: BitOp, a: nat, b: nat, n: nat): (r: nat)
    ensures r < Pow2(n)
  {
    if n == 0 then 0
    else 2 * Bitwise(op, a / 2, b / 2, n - 1) + (if Bit(op, a % 2 == 1, b % 2 == 1) then 1 else 0)
  }

  lemma Pow2Plus4(n: nat)
    ensures Pow2(n + 4) == 16 * Pow2(n)
  {
    assert Pow2(n + 4) == 2 * Pow2(n + 3);
    assert Pow2(n + 2) == 2 * Pow2(n + 1);
  }

  lemma Pow2Plus16(n: nat)
    ensures Pow2(n + 16) == M16 * Pow2(n)
  {
    Pow2Plus4(n);
    Pow2Plus4(n + 4);
    Pow2Plus4(n + 8);
    Pow2Plus4(n + 12);
  }

  lemma Pow2Values()
    ensures Pow2(16) == M16 && Pow2(32) == M32 && Pow2(64) == M64
  {
    Pow2Plus16(0);
    Pow2Plus16(16);
    Pow2Plus16(32);
    Pow2Plus16(48);
  }

  function And64(a: u64, b: u64): u64 { Pow2Values(); Bitwise(BitAnd, a, b, 64) }
  function Or64(a: u64, b: u64): u64 { Pow2Values(); Bitwise(BitOr, a, b, 64) }
  function Xor64(a: u64, b: u64): u64 { Pow2Values(); Bitwise(BitXor, a, b, 64) }

  /** a << k, in 64 bits */
  function Shl64(a: u64, k: nat): u64
    decreases k
  {
    if k == 0 then a else Shl64(Wrap64(2 * a), k - 1)
  }

  /** a >> k */
  function Shr(a: nat, k: nat): (r: nat)
    ensures r <= a
  {
    if k == 0 then a else Shr(a / 2, k - 1)
  }

  /** s >> k of a signed value: an arithmetic shift rounds towards minus infinity. */
  function Sar(s: int, k: nat): int
    decreases k
  {
    if k == 0 then s else Sar(s / 2, k - 1)
  }

  /** Adding after wrapping is wrapping after adding. */
  lemma WrapAdd(x: int, y: int)
    ensures Wrap64(Wrap64(x) + y) == Wrap64(x + y)
  {
    var q := x / M64;
    assert x == q * M64 + Wrap64(x);
  }

  lemma WrapSmall(x: int)
    requires 0 <= x < M64
    ensures Wrap64(x) == x
  {
  }

  /** a * b, in 64 bits, by doubling and adding. */
  function Mul64(a: u64, b: nat): u64
    decreases b
  {
    if b == 0 then 0 else Wrap64((if b % 2 == 1 then a else 0) + Mul64(Wrap64(2 * a), b / 2))
  }

  /** Unsigned quotient; BPF defines division by zero as 0 (section 4.1 of RFC 9669). */
  function UDiv(x: nat, y: nat): (q: nat)
    ensures q <= x
    decreases x
  {
    if y == 0 || x < y then 0 else 1 + UDiv(x - y, y)
  }

  /** Unsigned remainder; modulo zero leaves the dividend. */
  function UMod(x: nat, y: nat): (r: nat)
    ensures r <= x
    decreases x
  {
    if y == 0 || x < y then x else UMod(x - y, y)
  }

  /** Doubling and adding multiplies. */
  lemma {:induction false} Mul64Multiplies(a: u64, b: nat)
    ensures Mul64(a, b) == (a * b) % M64
    decreases b
  {
    if b > 0 {
      var w, c := Wrap64(2 * a), b / 2;
      Mul64Multiplies(w, c);
      DoubleHalf(a, b);
      WrapFactor(2 * a, c);
      ModAdd((2 * a) * c, if b % 2 == 1 then a else 0);
    }
  }

  lemma DoubleHalf(a: int, b: nat)
    ensures a * b == (2 * a) * (b / 2) + (if b % 2 == 1 then a else 0)
  {
    var c := b / 2;
    assert b == 2 * c + b % 2;
    assert a * b == a * (2 * c) + a * (b % 2);
    assert a * (2 * c) == (2 * a) * c;
  }

  lemma WrapFactor(x: int, c: int)
    ensures (Wrap64(x) * c) % M64 == (x * c) % M64
  {
    var k := x / M64;
    Distribute(k, Wrap64(x), c);
    ModPlusMultiple(Wrap64(x) * c, k * c);
  }

  lemma Distribute(k: int, w: int, c: int)
    ensures (M64 * k + w) * c == M64 * (k * c) + w * c
  {
  }

  lemma ModPlusMultiple(x: int, k: int)
    ensures (M64 * k + x) % M64 == x % M64
  {
  }

  lemma ModAdd(x: int, y: int)
    ensures (x + y) % M64 == (y + x % M64) % M64
  {
  }

  /** Quotient and remainder are the ones Euclidean division gives. */
  lemma {:induction false} DivisionDivides(x: nat, y: nat)
    requires y > 0
    ensures x == y * UDiv(x, y) + UMod(x, y) && UMod(x, y) < y
    decreases x
  {
    if x >= y {
      DivisionDivides(x - y, y);
      assert y * (1 + UDiv(x - y, y)) == y + y * UDiv(x - y, y);
    }
  }
}
