/** The prologue sets up what the interpreter sets up; the epilogue gives the caller its state back. */
module JitEntry {
  import opened Words
  import opened Memory
  import opened BpfInsn
  import opened BpfMachine
  import opened X86
  import opened X86Machine
  import opened JitTranslate
  import opened JitExec
  import opened JitMemory
  import opened JitSim
  import opened JitSteps
  import opened JitFrames

  // ---- the way out ----------------------------------------------------------

  /**
   * Back in the caller, by the System V AMD64 ABI: the result in rax, callee-saved registers and stack pointer as at
   * the call.
   */
  ghost predicate Returned(z: Around, w: Caller, c: Cpu) {
    && c.rip == Out(w.ret) && c.regs[RSP] == z.fp + 16
    && (forall r :: r in {3, 5, 12, 13, 14, 15} ==> c.regs[r] == w.c.regs[r])
  }

  lemma PopWord(ex: Executor, z: Around, k: Kernel, d: reg, off: nat, c: Cpu, sp: int, v: u64) returns (c': Cpu)
    requires Faithful(ex, z, k) && c.regs[RSP] == sp && 0 <= sp && sp + 8 < M64 && d != RSP && v == Word(c.mem, sp)
    ensures ex(Pop(d), off, c) == Some(c')
    ensures c'.regs == c.regs[RSP := sp + 8][d := v] && c'.mem == c.mem && c'.log == c.log
  {
    Popping(ex, z, k, d, off, c, sp);
    c' := ex(Pop(d), off, c).value;
  }

  lemma PopSaved(ex: Executor, enc: Encoder, z: Around, k: Kernel, w: Caller, s: set<nat>, m: Machine, off: nat,
                 c: Cpu) returns (c': Cpu)
    requires Faithful(ex, z, k) && Rel(z, w, s, m, c)
    ensures Ran(ex, enc, [Pop(15), Pop(14), Pop(13), Pop(3)], off, c, c')
    ensures c'.regs[RSP] == z.fp - 512 && c'.regs[0] == c.regs[0] && c'.mem == c.mem && c'.log == c.log
    ensures forall r :: r in {3, 12, 13, 14, 15} ==> c'.regs[r] == w.c.regs[r]
  {
    var x1, x2, x3, x4 := Pop(15), Pop(14), Pop(13), Pop(3);
    var c1 := PopWord(ex, z, k, 15, off + |enc(x1)|, c, z.fp - 544, w.c.regs[15]);
    var c2 := PopWord(ex, z, k, 14, off + |enc(x1)| + |enc(x2)|, c1, z.fp - 536, w.c.regs[14]);
    var c3 := PopWord(ex, z, k, 13, off + |enc(x1)| + |enc(x2)| + |enc(x3)|, c2, z.fp - 528, w.c.regs[13]);
    c' := PopWord(ex, z, k, 3, off + |enc(x1)| + |enc(x2)| + |enc(x3)| + |enc(x4)|, c3, z.fp - 520, w.c.regs[3]);
    FourRun(ex, enc, x1, x2, x3, x4, off, c, c1, c2, c3, c');
  }

  lemma AddSp(ex: Executor, z: Around, k: Kernel, off: nat, c: Cpu, sp: int) returns (c': Cpu)
    requires Faithful(ex, z, k) && c.regs[RSP] == sp && sp + 512 < M64
    ensures ex(Ri(AddRi, true, RSP, 512), off, c) == Some(c')
    ensures c'.regs == c.regs[RSP := sp + 512] && c'.mem == c.mem && c'.log == c.log
  {
    RiPuts(ex, z, k, AddRi, true, RSP, 512, off, c);
    WrapSmall(sp);
    WrapSmall(512);
    WrapSmall(sp + 512);
    assert ImmAt(true, 512) == 512;
    c' := ex(Ri(AddRi, true, RSP, 512), off, c).value;
  }

  lemma Returning(ex: Executor, z: Around, k: Kernel, off: nat, c: Cpu, sp: int) returns (c': Cpu)
    requires Faithful(ex, z, k) && c.regs[RSP] == sp && 0 <= sp && sp + 8 < M64
    ensures ex(Ret, off, c) == Some(c')
    ensures c'.regs == c.regs[RSP := sp + 8] && c'.mem == c.mem && c'.log == c.log && c'.rip == Out(Word(c.mem, sp))
  {
    assert ex(Ret, off, c) == Exec(z, k, Ret, off, c);
    WrapSmall(sp);
    WrapSmall(sp + 8);
    c' := ex(Ret, off, c).value;
  }

  lemma ThreeRun(ex: Executor, enc: Encoder, x1: X, x2: X, x3: X, off: nat, c: Cpu, c1: Cpu, c2: Cpu, c3: Cpu)
    requires ex(x1, off + |enc(x1)|, c) == Some(c1)
    requires ex(x2, off + |enc(x1)| + |enc(x2)|, c1) == Some(c2)
    requires ex(x3, off + |enc(x1)| + |enc(x2)| + |enc(x3)|, c2) == Some(c3)
    ensures Ran(ex, enc, [x1, x2, x3], off, c, c3)
  {
    assert [x1, x2, x3] == [x1] + ([x2] + ([x3] + []));
    ExecCons(ex, enc, x1, [x2] + ([x3] + []), off, c);
    ExecCons(ex, enc, x2, [x3] + [], off + |enc(x1)|, c1);
    ExecCons(ex, enc, x3, [], off + |enc(x1)| + |enc(x2)|, c2);
  }

  /** The epilogue returns to the caller, leaving rax, memory and the record of helper calls as they are. */
  lemma EpilogueReturns(ex: Executor, enc: Encoder, z: Around, k: Kernel, w: Caller, s: set<nat>, m: Machine, off: nat,
                        c: Cpu) returns (c': Cpu)
    requires Faithful(ex, z, k) && Rel(z, w, s, m, c)
    ensures Ran(ex, enc, Epilogue, off, c, c')
    ensures Returned(z, w, c') && c'.regs[RAX] == c.regs[RAX] && c'.mem == c.mem && c'.log == c.log
  {
    var pops, rest := [Pop(15), Pop(14), Pop(13), Pop(3)], [Ri(AddRi, true, RSP, 512), Pop(RBP), Ret];
    var c1 := PopSaved(ex, enc, z, k, w, s, m, off, c);
    var o := off + |EncodeAll(enc, pops)|;
    var x1, x2, x3 := Ri(AddRi, true, RSP, 512), Pop(RBP), Ret;
    var c2 := AddSp(ex, z, k, o + |enc(x1)|, c1, z.fp - 512);
    var c3 := PopWord(ex, z, k, RBP, o + |enc(x1)| + |enc(x2)|, c2, z.fp, w.c.regs[5]);
    c' := Returning(ex, z, k, o + |enc(x1)| + |enc(x2)| + |enc(x3)|, c3, z.fp + 8);
    ThreeRun(ex, enc, x1, x2, x3, o, c1, c2, c3, c');
    RanMore(ex, enc, pops, rest, off, c, c1, c');
    assert pops + rest == Epilogue;
  }

  // ---- the way in -----------------------------------------------------------

  function Zeros(a: int, n: nat): Mem { map x: u64 | a <= x < a + n && Within(x, a, n) :: 0 }

  predicate Within(x: int, a: int, n: nat) { a <= x < a + n }

  /** The frame below `fp` zeroed, all other memory as it is. */
  function ZeroedFrame(mem: Mem, fp: int): Mem { mem + Zeros(fp - STACK_SIZE, 512) }

  lemma {:induction false} StoreZeros(m: Mem, a: u64, n: nat)
    requires a + n <= M64
    ensures Store(m, a, n, 0) == m + Zeros(a, n)
    decreases n
  {
    if n == 0 {
      assert m + Zeros(a, n) == m;
    } else {
      ZerosFirst(m, a, n);
      if n > 1 {
        WrapSmall(a + 1);
        StoreZeros(m[a := 0], a + 1, n - 1);
      }
    }
  }

  lemma ZerosFirst(m: Mem, a: u64, n: nat)
    requires 0 < n && a + n <= M64
    ensures m[a := 0] + Zeros(a + 1, n - 1) == m + Zeros(a, n)
    ensures n == 1 ==> m[a := 0] == m + Zeros(a, n)
  {
  }

  /** From `m` to `m'`, the `n` bytes at `a` were zeroed. */
  ghost predicate Clears(m: Mem, m': Mem, a: int, n: nat) { m' == m + Zeros(a, n) }

  lemma ClearsNone(m: Mem, a: int)
    ensures Clears(m, m, a, 0)
  {
  }

  lemma ClearsJoin(m: Mem, m1: Mem, m2: Mem, a: int, n: nat)
    requires n >= 8 && Clears(m, m1, a + n - 8, 8) && Clears(m1, m2, a, n - 8)
    ensures Clears(m, m2, a, n)
  {
  }

  lemma ZeroStore(ex: Executor, z: Around, k: Kernel, j: nat, at: int, off: nat, c: Cpu) returns (c': Cpu)
    requires Faithful(ex, z, k) && j < SLOTS && c.regs[RBP] == z.fp && Roomy(z) && at == z.fp - 8 * (j + 1)
    ensures ex(ZeroWord(j), off, c) == Some(c')
    ensures c'.regs == c.regs && c'.log == c.log && Clears(c.mem, c'.mem, at, 8)
  {
    var x := ZeroWord(j);
    assert ex(x, off, c) == Exec(z, k, x, off, c);
    SignOfLow(0 - 8 * (j + 1));
    WrapSmall(z.fp - 8 * (j + 1));
    assert StoredImm(8, 0) == 0;
    StoreZeros(c.mem, z.fp - 8 * (j + 1), 8);
    c' := ex(x, off, c).value;
  }

  /** `zs` zero the words of the frame from `j` down. */
  ghost predicate Zeroing(zs: seq<X>, j: nat)
    decreases |zs|
  {
    if zs == [] then j == SLOTS else j < SLOTS && zs[0] == ZeroWord(j) && Zeroing(zs[1..], j + 1)
  }

  lemma {:induction false} FrameZeroing(j: nat)
    requires j <= SLOTS
    ensures Zeroing(ZeroFrame()[j..], j)
    decreases SLOTS - j
  {
    if j < SLOTS {
      FrameZeroing(j + 1);
      assert ZeroFrame()[j..][1..] == ZeroFrame()[j + 1..];
    }
  }

  lemma RanFront(ex: Executor, enc: Encoder, xs: seq<X>, off: nat, c: Cpu, c1: Cpu, c2: Cpu)
    requires xs != [] && ex(xs[0], off + |enc(xs[0])|, c) == Some(c1)
    requires Ran(ex, enc, xs[1..], off + |enc(xs[0])|, c1, c2)
    ensures Ran(ex, enc, xs, off, c, c2)
  {
  }

  type Clearing = (Mem, Mem, int, nat) -> bool

  ghost predicate SaysClears(cl: Clearing) {
    forall m, m', a, n {:trigger Clears(m, m', a, n)} :: cl(m, m', a, n) == Clears(m, m', a, n)
  }

  lemma FirstZeroed(ex: Executor, z: Around, k: Kernel, cl: Clearing, zs: seq<X>, j: nat, at: int, off: nat,
                    c: Cpu) returns (c': Cpu)
    requires Faithful(ex, z, k) && SaysClears(cl)
    requires Zeroing(zs, j) && zs != [] && c.regs[RBP] == z.fp && Roomy(z) && at == z.fp - 8 * (j + 1)
    ensures ex(zs[0], off, c) == Some(c') && c'.regs == c.regs && c'.log == c.log && cl(c.mem, c'.mem, at, 8)
    ensures j < SLOTS && Zeroing(zs[1..], j + 1)
  {
    c' := ZeroStore(ex, z, k, j, at, off, c);
  }

  lemma ZeroedMore(ex: Executor, enc: Encoder, cl: Clearing, zs: seq<X>, a: int, n: nat, off: nat, c: Cpu, c1: Cpu,
                   c': Cpu)
    requires n >= 8 && zs != [] && ex(zs[0], off + |enc(zs[0])|, c) == Some(c1)
    requires Ran(ex, enc, zs[1..], off + |enc(zs[0])|, c1, c')
    requires SaysClears(cl) && cl(c.mem, c1.mem, a + n - 8, 8) && cl(c1.mem, c'.mem, a, n - 8)
    ensures Ran(ex, enc, zs, off, c, c') && cl(c.mem, c'.mem, a, n)
  {
    RanFront(ex, enc, zs, off, c, c1, c');
    assert Clears(c.mem, c1.mem, a + n - 8, 8) && Clears(c1.mem, c'.mem, a, n - 8);
    ClearsJoin(c.mem, c1.mem, c'.mem, a, n);
  }

  lemma ClearedNone(cl: Clearing, m: Mem, a: int)
    requires SaysClears(cl)
    ensures cl(m, m, a, 0)
  {
    ClearsNone(m, a);
  }

  /** The stores from word `j` down zero everything below it. */
  lemma {:induction false} ZeroingRuns(ex: Executor, enc: Encoder, z: Around, k: Kernel, cl: Clearing, zs: seq<X>,
                                       j: nat, a: int, n: nat,
                                       off: nat, c: Cpu)
    returns (c': Cpu)
    requires Faithful(ex, z, k) && SaysClears(cl) && Zeroing(zs, j) && c.regs[RBP] == z.fp && Roomy(z)
    requires a == z.fp - STACK_SIZE && n + 8 * j == 512
    ensures Ran(ex, enc, zs, off, c, c')
    ensures c'.regs == c.regs && c'.log == c.log && cl(c.mem, c'.mem, a, n)
    decreases |zs|
  {
    if zs == [] {
      c' := c;
      ClearedNone(cl, c.mem, a);
    } else {
      var o := off + |enc(zs[0])|;
      var c1 := FirstZeroed(ex, z, k, cl, zs, j, a + n - 8, o, c);
      c' := ZeroingRuns(ex, enc, z, k, cl, zs[1..], j + 1, a, n - 8, o, c1);
      ZeroedMore(ex, enc, cl, zs, a, n, off, c, c1, c');
    }
  }

  lemma FrameZeroed(ex: Executor, enc: Encoder, z: Around, k: Kernel, zs: seq<X>, off: nat, c: Cpu) returns (c': Cpu)
    requires Faithful(ex, z, k) && Zeroing(zs, 0) && c.regs[RBP] == z.fp && Roomy(z)
    ensures Ran(ex, enc, zs, off, c, c') && c'.regs == c.regs && c'.log == c.log
    ensures Clears(c.mem, c'.mem, z.fp - STACK_SIZE, 512)
  {
    c' := ZeroingRuns(ex, enc, z, k, Clears, zs, 0, z.fp - STACK_SIZE, 512, off, c);
  }

  lemma WordAfterStore(m: Mem, a: int, b: int, v: u64)
    requires 0 <= a && a + 8 < M64 && 0 <= b && b + 8 < M64 && (a + 8 <= b || b + 8 <= a)
    ensures Word(Store(m, b, 8, v), a) == Word(m, a)
  {
    WrapSmall(a);
    forall x: u64 | InSpan(x, a, 8)
      ensures Rd(Store(m, b, 8, v), x) == Rd(m, x)
    {
      InSpanBetween(x, a, 8);
      InSpanBetween(x, b, 8);
      StoreElsewhere(m, b, 8, v, x);
    }
    LoadAgrees(Store(m, b, 8, v), m, a, 8);
  }

  lemma WordAfterZeros(m: Mem, a: int, b: int, n: nat)
    requires 0 <= a && a + 8 < M64 && b + n <= a
    ensures Word(m + Zeros(b, n), a) == Word(m, a)
  {
    WrapSmall(a);
    forall x: u64 | InSpan(x, a, 8)
      ensures Rd(m + Zeros(b, n), x) == Rd(m, x)
    {
      InSpanBetween(x, a, 8);
    }
    LoadAgrees(m + Zeros(b, n), m, a, 8);
  }

  /** A word of the kernel's own stack. */
  lemma HiddenWord(z: Around, m: Mem, a: int, v: u64)
    requires 0 <= a && a + 8 < M64 && forall x :: a <= x < a + 8 ==> Private(z, x)
    ensures Visible(z, Store(m, a, 8, v)) == Visible(z, m)
  {
    forall x: u64 | InSpan(x, a, 8)
      ensures Private(z, x)
    {
      InSpanBetween(x, a, 8);
    }
    StoreHidden(z, m, a, 8, v);
  }

  lemma EntryRuns(ex: Executor, enc: Encoder, z: Around, k: Kernel, off: nat, c: Cpu) returns (c': Cpu)
    requires Faithful(ex, z, k) && Roomy(z) && c.regs[RSP] == z.fp + 8
    ensures Ran(ex, enc, Entry, off, c, c')
    ensures c'.regs == c.regs[RSP := z.fp - 512][RBP := z.fp] && c'.log == c.log
    ensures Pushed(z, c.mem, c'.mem, z.fp, c.regs[RBP])
  {
    var x1, x2, x3 := Push(RBP), Rr(MovRr, true, RBP, RSP), Ri(SubRi, true, RSP, 512);
    var o1 := off + |enc(x1)|;
    Pushing(ex, z, k, RBP, o1, c, z.fp + 8);
    var c1 := ex(x1, o1, c).value;
    PushedBy(z, c.mem, z.fp, c.regs[RBP]);
    var c2 := Moving(ex, z, k, RBP, RSP, o1 + |enc(x2)|, c1);
    c' := SubSp(ex, z, k, o1 + |enc(x2)| + |enc(x3)|, c2, z.fp);
    ThreeRun(ex, enc, x1, x2, x3, off, c, c1, c2, c');
  }

  lemma SubSp(ex: Executor, z: Around, k: Kernel, off: nat, c: Cpu, sp: int) returns (c': Cpu)
    requires Faithful(ex, z, k) && c.regs[RSP] == sp && 512 <= sp
    ensures ex(Ri(SubRi, true, RSP, 512), off, c) == Some(c')
    ensures c'.regs == c.regs[RSP := sp - 512] && c'.mem == c.mem && c'.log == c.log
  {
    RiPuts(ex, z, k, SubRi, true, RSP, 512, off, c);
    WrapSmall(sp);
    WrapSmall(sp - 512);
    assert ImmAt(true, 512) == 512;
    c' := ex(Ri(SubRi, true, RSP, 512), off, c).value;
  }

  /** `v` is at `a`, words elsewhere are as they were, and nobody else sees the difference. */
  ghost predicate Pushed(z: Around, m: Mem, m': Mem, a: int, v: u64) {
    && Word(m', a) == v && Visible(z, m') == Visible(z, m)
    && forall b: int {:trigger Word(m', b)} :: Apart(a, b) ==> Word(m', b) == Word(m, b)
  }

  predicate Apart(a: int, b: int) { 0 <= b && b + 8 < M64 && (b + 8 <= a || a + 8 <= b) }

  lemma PushedBy(z: Around, m: Mem, a: int, v: u64)
    requires 0 <= a && a + 8 < M64 && forall x :: a <= x < a + 8 ==> Private(z, x)
    ensures Pushed(z, m, Store(m, a, 8, v), a, v)
  {
    PushedWord(m, a, v);
    HiddenWord(z, m, a, v);
    forall b: int | Apart(a, b)
      ensures Word(Store(m, a, 8, v), b) == Word(m, b)
    {
      WordAfterStore(m, b, a, v);
    }
  }

  lemma PushWord(ex: Executor, z: Around, k: Kernel, r: reg, off: nat, c: Cpu, sp: int) returns (c': Cpu)
    requires Faithful(ex, z, k) && c.regs[RSP] == sp && z.low + 8 <= sp <= z.fp - 512 && z.fp + 16 < M64
    ensures ex(Push(r), off, c) == Some(c')
    ensures c'.regs == c.regs[RSP := sp - 8] && c'.log == c.log && Pushed(z, c.mem, c'.mem, sp - 8, c.regs[r])
  {
    Pushing(ex, z, k, r, off, c, sp);
    c' := ex(Push(r), off, c).value;
    PushedBy(z, c.mem, sp - 8, c.regs[r]);
  }

  lemma SavesRun(ex: Executor, enc: Encoder, z: Around, k: Kernel, off: nat, c: Cpu) returns (c': Cpu)
    requires Faithful(ex, z, k) && Roomy(z) && c.regs[RSP] == z.fp - 512
    ensures Ran(ex, enc, Saves, off, c, c')
    ensures c'.regs == c.regs[RSP := z.fp - 544] && c'.log == c.log
    ensures FourSaved(z, c.mem, c'.mem, c.regs[3], c.regs[13], c.regs[14], c.regs[15])
  {
    var x1, x2, x3, x4 := Push(3), Push(13), Push(14), Push(15);
    var c1 := PushWord(ex, z, k, 3, off + |enc(x1)|, c, z.fp - 512);
    var c2 := PushWord(ex, z, k, 13, off + |enc(x1)| + |enc(x2)|, c1, z.fp - 520);
    var c3 := PushWord(ex, z, k, 14, off + |enc(x1)| + |enc(x2)| + |enc(x3)|, c2, z.fp - 528);
    c' := PushWord(ex, z, k, 15, off + |enc(x1)| + |enc(x2)| + |enc(x3)| + |enc(x4)|, c3, z.fp - 536);
    FourRun(ex, enc, x1, x2, x3, x4, off, c, c1, c2, c3, c');
    FourPushed(z, c.mem, c1.mem, c2.mem, c3.mem, c'.mem, c.regs[3], c.regs[13], c.regs[14], c.regs[15]);
    assert c'.regs == c.regs[RSP := z.fp - 544];
  }

  /** Four words below the frame, and nothing else that anyone looks at. */
  ghost predicate FourSaved(z: Around, m: Mem, m': Mem, rbx: u64, r13: u64, r14: u64, r15: u64) {
    && Word(m', z.fp - 520) == rbx && Word(m', z.fp - 528) == r13 && Word(m', z.fp - 536) == r14
         && Word(m', z.fp - 544) == r15
    && Word(m', z.fp) == Word(m, z.fp) && Word(m', z.fp + 8) == Word(m, z.fp + 8)
    && Visible(z, m') == Visible(z, m)
  }

  lemma FourPushed(z: Around, m: Mem, m1: Mem, m2: Mem, m3: Mem, m4: Mem, rbx: u64, r13: u64, r14: u64, r15: u64)
    requires Roomy(z)
    requires Pushed(z, m, m1, z.fp - 520, rbx) && Pushed(z, m1, m2, z.fp - 528, r13)
    requires Pushed(z, m2, m3, z.fp - 536, r14) && Pushed(z, m3, m4, z.fp - 544, r15)
    ensures FourSaved(z, m, m4, rbx, r13, r14, r15)
  {
  }

  lemma VisibleZeros(z: Around, m: Mem, m': Mem)
    requires Visible(z, m) == Visible(z, m')
    ensures Visible(z, m + Zeros(z.fp - STACK_SIZE, 512)) == Visible(z, m' + Zeros(z.fp - STACK_SIZE, 512))
  {
    var f := Zeros(z.fp - STACK_SIZE, 512);
    forall x: u64 | x in f ensures x !in PrivateSet(z) { }
    assert Visible(z, m + f) == Visible(z, m) + f;
    assert Visible(z, m' + f) == Visible(z, m') + f;
  }

  /** The memory the prologue leaves: the frame zeroed, the caller's state put away. */
  lemma PrologueMemory(z: Around, w: Caller, mem1: Mem, mem2: Mem, mem3: Mem)
    requires Roomy(z) && w.ret == Word(w.c.mem, z.fp + 8)
    requires Pushed(z, w.c.mem, mem1, z.fp, w.c.regs[RBP]) && Clears(mem1, mem2, z.fp - STACK_SIZE, 512)
    requires FourSaved(z, mem2, mem3, w.c.regs[3], w.c.regs[13], w.c.regs[14], w.c.regs[15])
    ensures WordsSaved(z, w.c, w.ret, mem3) && Visible(z, mem3) == Visible(z, ZeroedFrame(w.c.mem, z.fp))
  {
    WordAfterZeros(mem1, z.fp, z.fp - STACK_SIZE, 512);
    WordAfterZeros(mem1, z.fp + 8, z.fp - STACK_SIZE, 512);
    VisibleZeros(z, mem1, w.c.mem);
  }

  /** Called by the System V AMD64 ABI, with the way back on top of the stack. */
  ghost predicate Called(z: Around, w: Caller) {
    Roomy(z) && w.c.regs[RSP] == z.fp + 8 && w.ret == Word(w.c.mem, z.fp + 8)
  }

  lemma ThreeParts(ex: Executor, enc: Encoder, xs: seq<X>, ys: seq<X>, zs: seq<X>, o1: nat, o2: nat, c: Cpu, c1: Cpu,
                   c2: Cpu, c3: Cpu)
    requires o1 == |EncodeAll(enc, xs)| && o2 == |EncodeAll(enc, xs + ys)|
    requires Ran(ex, enc, xs, 0, c, c1) && Ran(ex, enc, ys, o1, c1, c2) && Ran(ex, enc, zs, o2, c2, c3)
    ensures Ran(ex, enc, xs + ys + zs, 0, c, c3)
  {
    RanMore(ex, enc, xs, ys, 0, c, c1, c2);
    RanMore(ex, enc, xs + ys, zs, 0, c, c2, c3);
  }

  /** Up to the zeroed frame. */
  lemma FrontRuns(ex: Executor, enc: Encoder, z: Around, k: Kernel, w: Caller, zs: seq<X>, o1: nat) returns (c1: Cpu,
        c2: Cpu)
    requires Faithful(ex, z, k) && Roomy(z) && w.c.regs[RSP] == z.fp + 8 && Zeroing(zs, 0)
    ensures Ran(ex, enc, Entry, 0, w.c, c1) && Ran(ex, enc, zs, o1, c1, c2)
    ensures c2.regs == w.c.regs[RSP := z.fp - 512][RBP := z.fp] && c2.log == w.c.log
    ensures Pushed(z, w.c.mem, c1.mem, z.fp, w.c.regs[RBP]) && Clears(c1.mem, c2.mem, z.fp - STACK_SIZE, 512)
  {
    c1 := EntryRuns(ex, enc, z, k, 0, w.c);
    c2 := FrameZeroed(ex, enc, z, k, zs, o1, c1);
  }

  lemma PrologueRuns(ex: Executor, enc: Encoder, z: Around, k: Kernel, w: Caller, zs: seq<X>, o1: nat,
                     o2: nat) returns (c1: Cpu, c2: Cpu, c: Cpu)
    requires Faithful(ex, z, k) && Roomy(z) && w.c.regs[RSP] == z.fp + 8 && Zeroing(zs, 0)
    ensures Ran(ex, enc, Entry, 0, w.c, c1) && Ran(ex, enc, zs, o1, c1, c2) && Ran(ex, enc, Saves, o2, c2, c)
    ensures c.regs == w.c.regs[RSP := z.fp - 544][RBP := z.fp] && c.log == w.c.log
    ensures Pushed(z, w.c.mem, c1.mem, z.fp, w.c.regs[RBP]) && Clears(c1.mem, c2.mem, z.fp - STACK_SIZE, 512)
    ensures FourSaved(z, c2.mem, c.mem, w.c.regs[3], w.c.regs[13], w.c.regs[14], w.c.regs[15])
  {
    c1, c2 := FrontRuns(ex, enc, z, k, w, zs, o1);
    c := SavesRun(ex, enc, z, k, o2, c2);
  }

  lemma WholeFrame()
    ensures Zeroing(ZeroFrame(), 0)
  {
    FrameZeroing(0);
    assert ZeroFrame()[0..] == ZeroFrame();
  }

  /** From registers and memory to the relation. */
  lemma PrologueRel(z: Around, w: Caller, m: Machine, mem1: Mem, mem2: Mem, c: Cpu)
    requires Called(z, w) && m.regs[1] == w.c.regs[7] && m.regs[10] == z.fp && m.log == w.c.log
    requires m.mem == ZeroedFrame(w.c.mem, z.fp)
    requires c.regs == w.c.regs[RSP := z.fp - 544][RBP := z.fp] && c.log == w.c.log
    requires Pushed(z, w.c.mem, mem1, z.fp, w.c.regs[RBP]) && Clears(mem1, mem2, z.fp - STACK_SIZE, 512)
    requires FourSaved(z, mem2, c.mem, w.c.regs[3], w.c.regs[13], w.c.regs[14], w.c.regs[15])
    ensures Rel(z, w, {1, 10}, m, c)
  {
    PrologueMemory(z, w, mem1, mem2, c.mem);
  }

  /** The prologue leaves the processor where the interpreter starts: context in r1, frame in r10, frame zeroed. */
  lemma PrologueSetsUp(ex: Executor, enc: Encoder, z: Around, k: Kernel, w: Caller, m: Machine) returns (c: Cpu)
    requires Faithful(ex, z, k) && Called(z, w)
    requires m.regs[1] == w.c.regs[7] && m.regs[10] == z.fp && m.log == w.c.log && m.mem == ZeroedFrame(w.c.mem, z.fp)
    ensures Ran(ex, enc, Prologue(), 0, w.c, c) && Rel(z, w, {1, 10}, m, c)
  {
    WholeFrame();
    c := SetsUp(ex, enc, z, k, w, m, Entry, ZeroFrame(), Saves);
  }

  lemma SetsUp(ex: Executor, enc: Encoder, z: Around, k: Kernel, w: Caller, m: Machine, front: seq<X>, zs: seq<X>,
               back: seq<X>) returns (c: Cpu)
    requires Faithful(ex, z, k) && Called(z, w) && Zeroing(zs, 0) && front == Entry && back == Saves
    requires m.regs[1] == w.c.regs[7] && m.regs[10] == z.fp && m.log == w.c.log && m.mem == ZeroedFrame(w.c.mem, z.fp)
    ensures Ran(ex, enc, front + zs + back, 0, w.c, c) && Rel(z, w, {1, 10}, m, c)
  {
    var o1, o2 := |EncodeAll(enc, front)|, |EncodeAll(enc, front + zs)|;
    var c1, c2;
    c1, c2, c := PrologueRuns(ex, enc, z, k, w, zs, o1, o2);
    ThreeParts(ex, enc, front, zs, back, o1, o2, w.c, c1, c2, c);
    PrologueRel(z, w, m, c1.mem, c2.mem, c);
  }
}
