/** Shared memory seen from both sides, and the words of its own the emitted code keeps on the kernel stack. */
module JitMemory {
  import opened Words
  import opened Memory
  import opened BpfInsn
  import opened BpfMachine
  import opened X86
  import opened X86Machine

  /** The `n` bytes at `a` are shared, and do not run round the end of memory. */
  ghost predicate Shared(z: Around, a: int, n: nat) {
    0 <= a && a + n <= M64 && forall x: u64 :: a <= x < a + n ==> !Private(z, x)
  }

  lemma InSpanBetween(x: u64, a: u64, n: nat)
    requires a + n <= M64
    ensures InSpan(x, a, n) <==> a <= x < a + n
  {
  }

  lemma InPrivateSet(z: Around, x: u64)
    ensures x in PrivateSet(z) <==> Private(z, x)
  {
  }

  // ---- shared memory --------------------------------------------------------

  lemma {:induction false} StoreVisible(z: Around, m: Mem, a: u64, n: nat, v: nat)
    requires forall x: u64 :: InSpan(x, a, n) ==> !Private(z, x)
    requires n <= M64
    ensures Visible(z, Store(m, a, n, v)) == Store(Visible(z, m), a, n, v)
    decreases n
  {
    if n > 0 {
      SpanStep(a, a, n);
      var m1, a1 := m[a := v % 256], Wrap64(a + 1);
      forall x: u64 | InSpan(x, a1, n - 1)
        ensures !Private(z, x)
      {
        SpanStep(x, a, n);
      }
      StoreVisible(z, m1, a1, n - 1, v / 256);
      assert Visible(z, m1) == Visible(z, m)[a := v % 256];
    }
  }

  /** The same store on both sides keeps the shared memory the same. */
  lemma StoreBoth(z: Around, m: Mem, m': Mem, a: u64, n: nat, v: nat)
    requires Visible(z, m) == Visible(z, m') && Shared(z, a, n)
    ensures Visible(z, Store(m, a, n, v)) == Visible(z, Store(m', a, n, v))
  {
    forall x: u64 | InSpan(x, a, n)
      ensures !Private(z, x)
    {
      InSpanBetween(x, a, n);
    }
    StoreVisible(z, m, a, n, v);
    StoreVisible(z, m', a, n, v);
  }

  lemma {:induction false} StoreHidden(z: Around, m: Mem, a: u64, n: nat, v: nat)
    requires forall x: u64 :: InSpan(x, a, n) ==> Private(z, x)
    requires n <= M64
    ensures Visible(z, Store(m, a, n, v)) == Visible(z, m)
    decreases n
  {
    if n > 0 {
      SpanStep(a, a, n);
      var m1, a1 := m[a := v % 256], Wrap64(a + 1);
      forall x: u64 | InSpan(x, a1, n - 1)
        ensures Private(z, x)
      {
        SpanStep(x, a, n);
      }
      StoreHidden(z, m1, a1, n - 1, v / 256);
      assert Visible(z, m1) == Visible(z, m);
    }
  }

  lemma RdVisible(z: Around, m: Mem, m': Mem, x: u64)
    requires Visible(z, m) == Visible(z, m') && !Private(z, x)
    ensures Rd(m, x) == Rd(m', x)
  {
    assert Rd(Visible(z, m), x) == Rd(m, x) && Rd(Visible(z, m'), x) == Rd(m', x);
  }

  lemma LoadBoth(z: Around, m: Mem, m': Mem, a: u64, n: nat)
    requires Visible(z, m) == Visible(z, m') && Shared(z, a, n)
    ensures Load(m, a, n) == Load(m', a, n)
  {
    forall x: u64 | InSpan(x, a, n)
      ensures Rd(m, x) == Rd(m', x)
    {
      InSpanBetween(x, a, n);
      RdVisible(z, m, m', x);
    }
    LoadAgrees(m, m', a, n);
  }

  /** Only the low bytes of a value are stored. */
  lemma {:induction false} StoreLow(m: Mem, a: u64, n: nat, v: nat)
    ensures Store(m, a, n, v) == Store(m, a, n, v % Pow256(n))
    decreases n
  {
    if n > 0 {
      var p := Pow256(n - 1);
      ModSplit(v, p);
      var lo := v % Pow256(n);
      DivModUnique(lo, 256, (v / 256) % p, v % 256);
      StoreLow(m[a := v % 256], Wrap64(a + 1), n - 1, v / 256);
    }
  }

  // ---- the code's own words -------------------------------------------------

  function Word(mem: Mem, a: int): u64 {
    Pow256Values();
    Load(mem, Wrap64(a), 8)
  }

  /** The bytes above the stack pointer that the code has to find again. */
  predicate Kept(z: Around, x: int) { z.fp - 544 <= x < z.fp - 512 || z.fp <= x < z.fp + 16 }

  ghost predicate KeptSame(z: Around, m: Mem, m': Mem) { forall x: u64 :: Kept(z, x) ==> Rd(m, x) == Rd(m', x) }

  ghost predicate Roomy(z: Around) { z.low + 1024 <= z.fp && z.fp + 16 < M64 }

  /** The words pushed on entry: the caller's registers and the way back. */
  ghost predicate WordsSaved(z: Around, c0: Cpu, ret: u64, mem: Mem) {
    && Word(mem, z.fp - 544) == c0.regs[15]
    && Word(mem, z.fp - 536) == c0.regs[14]
    && Word(mem, z.fp - 528) == c0.regs[13]
    && Word(mem, z.fp - 520) == c0.regs[3]
    && Word(mem, z.fp) == c0.regs[5]
    && Word(mem, z.fp + 8) == ret
  }

  lemma WordKept(z: Around, m: Mem, m': Mem, a: int)
    requires Roomy(z) && KeptSame(z, m, m') && 0 <= a && a + 8 < M64
    requires forall x :: a <= x < a + 8 ==> Kept(z, x)
    ensures Word(m, a) == Word(m', a)
  {
    WrapSmall(a);
    forall x: u64 | InSpan(x, a, 8)
      ensures Rd(m, x) == Rd(m', x)
    {
      InSpanBetween(x, a, 8);
    }
    LoadAgrees(m, m', a, 8);
  }

  lemma WordsKept(z: Around, c0: Cpu, ret: u64, m: Mem, m': Mem)
    requires Roomy(z) && KeptSame(z, m, m') && WordsSaved(z, c0, ret, m)
    ensures WordsSaved(z, c0, ret, m')
  {
    WordKept(z, m, m', z.fp - 544);
    WordKept(z, m, m', z.fp - 536);
    WordKept(z, m, m', z.fp - 528);
    WordKept(z, m, m', z.fp - 520);
    WordKept(z, m, m', z.fp);
    WordKept(z, m, m', z.fp + 8);
  }

  /** A store that meets none of those bytes leaves them. */
  lemma StoreKeeps(z: Around, m: Mem, a: u64, n: nat, v: nat)
    requires a + n <= M64 && forall x :: a <= x < a + n ==> !Kept(z, x)
    ensures KeptSame(z, m, Store(m, a, n, v))
  {
    forall x: u64 | Kept(z, x)
      ensures Rd(m, x) == Rd(Store(m, a, n, v), x)
    {
      InSpanBetween(x, a, n);
      StoreElsewhere(m, a, n, v, x);
    }
  }

  lemma SharedKeeps(z: Around, m: Mem, a: u64, n: nat, v: nat)
    requires Roomy(z) && Shared(z, a, n)
    ensures KeptSame(z, m, Store(m, a, n, v))
  {
    forall x | a <= x < a + n
      ensures !Kept(z, x)
    {
      var y: u64 := x;
      assert !Private(z, y);
    }
    StoreKeeps(z, m, a, n, v);
  }
}
