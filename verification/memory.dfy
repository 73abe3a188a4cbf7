/** The flat 64-bit address space: a finite map, reading zero where nothing was written. */
module Memory {
  import opened Words

  type Mem = map<u64, byte>

  function Rd(m: Mem, a: u64): byte { if a in m then m[a] else 0 }

  /** `x` is one of the `n` bytes that start at `a`, counting round the top of the address space. */
  predicate InSpan(x: u64, a: u64, n: nat) { Wrap64(x - a) < n }

  function Pow256(n: nat): (p: nat)
    ensures p > 0
  {
    if n == 0 then 1 else 256 * Pow256(n - 1)
  }

  lemma Pow256Values()
    ensures Pow256(1) == 0x100 && Pow256(2) == M16 && Pow256(4) == M32 && Pow256(8) == M64
  {
    assert Pow256(2) == 256 * Pow256(1);
    assert Pow256(4) == 256 * Pow256(3) && Pow256(3) == 256 * Pow256(2);
    assert Pow256(6) == 256 * Pow256(5) && Pow256(5) == 256 * Pow256(4);
    assert Pow256(8) == 256 * Pow256(7) && Pow256(7) == 256 * Pow256(6);
  }

  /** `n` bytes at `a`, little-endian. */
  function Load(m: Mem, a: u64, n: nat): (v: nat)
    ensures v < Pow256(n)
    decreases n, a
  {
    if n == 0 then 0 else Rd(m, a) + 256 * Load(m, Wrap64(a + 1), n - 1)
  }

  /** Put the low `n` bytes of `v` at `a`, little-endian. */
  function Store(m: Mem, a: u64, n: nat, v: nat): Mem
    decreases n, a
  {
    if n == 0 then m else Store(m[a := v % 256], Wrap64(a + 1), n - 1, v / 256)
  }

  /** A span is its first byte and the span that follows it. */
  lemma SpanStep(x: u64, a: u64, n: nat)
    requires 0 < n <= M64
    ensures InSpan(x, a, n) <==> x == a || InSpan(x, Wrap64(a + 1), n - 1)
    ensures !InSpan(a, Wrap64(a + 1), n - 1)
  {
    assert Wrap64(x - Wrap64(a + 1)) == if x == a then M64 - 1 else Wrap64(x - a) - 1;
  }

  lemma {:induction false} StoreElsewhere(m: Mem, a: u64, n: nat, v: nat, x: u64)
    requires n <= M64
    requires !InSpan(x, a, n)
    ensures Rd(Store(m, a, n, v), x) == Rd(m, x)
    decreases n
  {
    if n > 0 {
      SpanStep(x, a, n);
      StoreElsewhere(m[a := v % 256], Wrap64(a + 1), n - 1, v / 256, x);
    }
  }

  lemma {:induction false} LoadAgrees(m: Mem, m': Mem, a: u64, n: nat)
    requires n <= M64
    requires forall x: u64 :: InSpan(x, a, n) ==> Rd(m, x) == Rd(m', x)
    ensures Load(m, a, n) == Load(m', a, n)
    decreases n
  {
    if n > 0 {
      SpanStep(a, a, n);
      forall x: u64 | InSpan(x, Wrap64(a + 1), n - 1)
        ensures Rd(m, x) == Rd(m', x)
      {
        SpanStep(x, a, n);
      }
      LoadAgrees(m, m', Wrap64(a + 1), n - 1);
    }
  }

  /** What was stored is what is loaded back, to the width stored. */
  lemma {:induction false} LoadStored(m: Mem, a: u64, n: nat, v: nat)
    requires n <= M64
    ensures Load(Store(m, a, n, v), a, n) == v % Pow256(n)
    decreases n
  {
    if n > 0 {
      var m1, a1 := m[a := v % 256], Wrap64(a + 1);
      LoadStored(m1, a1, n - 1, v / 256);
      SpanStep(a, a, n);
      StoreElsewhere(m1, a1, n - 1, v / 256, a);
      ModSplit(v, Pow256(n - 1));
    }
  }

  lemma ModSplit(v: nat, p: nat)
    requires p > 0
    ensures v % (256 * p) == v % 256 + 256 * ((v / 256) % p)
  {
    var q := v / 256;
    var k := q / p;
    assert v == 256 * q + v % 256;
    assert q == p * k + q % p;
    var r := v % 256 + 256 * (q % p);
    assert v == (256 * p) * k + r by {
      assert 256 * (p * k) == (256 * p) * k;
    }
    assert 0 <= r < 256 * p;
    DivModUnique(v, 256 * p, k, r);
  }

  lemma DivModUnique(v: int, d: int, k: int, r: int)
    requires d > 0 && 0 <= r < d && v == d * k + r
    ensures v % d == r && v / d == k
  {
    var k', r' := v / d, v % d;
    QuotientUnique(d, k, r, k', r');
  }

  lemma QuotientUnique(d: int, k: int, r: int, k': int, r': int)
    requires d > 0 && 0 <= r < d && 0 <= r' < d && d * k + r == d * k' + r'
    ensures k == k' && r == r'
  {
    if k > k' { MulGrows(d, k, k'); }
    if k < k' { MulGrows(d, k', k); }
  }

  lemma {:induction false} MulGrows(d: int, x: int, y: int)
    requires d > 0 && x > y
    ensures d * x >= d * y + d
    decreases x - y
  {
    assert d * x == d * (x - 1) + d;
    if x - 1 > y { MulGrows(d, x - 1, y); }
  }
}
