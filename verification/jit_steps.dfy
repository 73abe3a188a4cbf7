/** Loads, stores, jumps, helper calls, and the way in and out. */
module JitSteps {
  import opened Words
  import opened Memory
  import opened BpfInsn
  import opened BpfVerifier
  import opened BpfMachine
  import opened X86
  import opened X86Machine
  import opened JitTranslate
  import opened JitExec
  import opened JitArith
  import opened JitMemory
  import opened JitSim

  // ---- loads and stores -----------------------------------------------------

  lemma SameAddress(c: Cpu, base: reg, off: i16, v: u64)
    requires c.regs[base] == v
    ensures Addr(c, base, Low32(off)) == Wrap64(v + off)
  {
    SignOfLow(off);
  }

  lemma LoadPuts(ex: Executor, z: Around, k: Kernel, size: nat, d: reg, base: reg, disp: i16, off: nat, c: Cpu, a: u64,
                 v: u64)
    requires Faithful(ex, z, k) && size in {1, 2, 4, 8} && a == Wrap64(c.regs[base] + disp) && v == Load(c.mem, a, size)
    ensures Puts(ex, LoadX(size, d, base, Low32(disp)), off, c, d, v)
  {
    SameAddress(c, base, disp, c.regs[base]);
    LoadExec(ex, z, k, size, d, base, Low32(disp), off, c, a, v);
  }

  lemma LoadExec(ex: Executor, z: Around, k: Kernel, size: nat, d: reg, base: reg, disp: u32, off: nat, c: Cpu, a: u64,
                 v: u64)
    requires Faithful(ex, z, k) && size in {1, 2, 4, 8} && Addr(c, base, disp) == a && v == Load(c.mem, a, size)
    ensures Puts(ex, LoadX(size, d, base, disp), off, c, d, v)
  {
    var x := LoadX(size, d, base, disp);
    assert ex(x, off, c) == Exec(z, k, x, off, c);
  }

  lemma LoadSim(ex: Executor, enc: Encoder, z: Around, k: Kernel, w: Caller, s: set<nat>, i: Insn, m: Machine, off: nat,
                c: Cpu)
    returns (c': Cpu)
    requires Faithful(ex, z, k) && Rel(z, w, s, m, c) && i.dst < REG_CNT && i.src < REG_CNT
    requires XlateLoad(i).Some? && i.src in s && Shared(z, LoadAddr(i, m), Bytes(i.code))
    ensures StepLoad(i, m).Next? && Ran(ex, enc, XlateLoad(i).value, off, c, c')
    ensures Rel(z, w, s + {i.dst}, StepLoad(i, m).m, c')
  {
    var n, a := Bytes(i.code), LoadAddr(i, m);
    var x := LoadX(n, JitReg(i.dst), JitReg(i.src), Low32(i.off));
    LoadBoth(z, m.mem, c.mem, a, n);
    Pow256Values();
    LoadPuts(ex, z, k, n, JitReg(i.dst), JitReg(i.src), i.off, off + |enc(x)|, c, a, Load(m.mem, a, n));
    c' := PutsRel(ex, enc, z, w, s, i.dst, x, Load(m.mem, a, n), m, StepLoad(i, m).m, off, c);
  }

  /** The same store to shared memory on both sides. */
  lemma StoreRel(z: Around, w: Caller, s: set<nat>, m: Machine, c: Cpu, a: u64, n: nat, v: nat, m': Machine, c': Cpu)
    requires Rel(z, w, s, m, c) && Shared(z, a, n)
    requires m'.regs == m.regs && m'.log == m.log && m'.mem == Store(m.mem, a, n, v)
    requires c'.regs == c.regs && c'.log == c.log && c'.mem == Store(c.mem, a, n, v)
    ensures Rel(z, w, s, m', c')
  {
    StoreBoth(z, m.mem, c.mem, a, n, v);
    SharedKeeps(z, c.mem, a, n, v);
    WordsKept(z, w.c, w.ret, c.mem, c'.mem);
  }

  /** The immediate a store carries and the value the interpreter stores have the same low bytes. */
  lemma SameImm(mem: Mem, a: u64, size: nat, imm: i32)
    requires size in {1, 2, 4, 8}
    ensures Store(mem, a, size, StoredImm(size, ImmField(size, imm))) == Store(mem, a, size, Wrap64(imm))
  {
    Pow256Values();
    var v: nat := StoredImm(size, ImmField(size, imm));
    StoreLow(mem, a, size, v);
    StoreLow(mem, a, size, Wrap64(imm));
    if size == 8 { SignOfLow(imm); }
    if size == 4 { LowOfWrap(imm); }
    if size == 2 { LowBytes(imm, M16, 0x1_0000_0000_0000); }
    if size == 1 { LowBytes(imm, 256, 0x100_0000_0000_0000); }
  }

  lemma LowBytes(x: int, d: int, f: int)
    requires d > 0 && d * f == M64
    ensures Wrap64(x) % d == x % d
  {
    var q, r := x / M64, Wrap64(x);
    assert x == q * M64 + r && q * M64 == d * (f * q) by { assert q * (d * f) == d * (f * q); }
    var k := r / d;
    assert x == d * (f * q + k) + r % d by { assert d * (f * q + k) == d * (f * q) + d * k; }
    DivModUnique(x, d, f * q + k, r % d);
  }

  /** Exec writes `v` to memory and goes on. */
  ghost predicate Writes(ex: Executor, x: X, off: nat, c: Cpu, a: u64, n: nat, v: nat) {
    && ex(x, off, c).Some?
    && var c' := ex(x, off, c).value;
    && c'.regs == c.regs && c'.mem == Store(c.mem, a, n, v) && c'.log == c.log
  }

  lemma StoreWrites(ex: Executor, z: Around, k: Kernel, size: nat, base: reg, disp: i16, r: reg, off: nat, c: Cpu,
                    a: u64)
    requires Faithful(ex, z, k) && a == Wrap64(c.regs[base] + disp)
    ensures Writes(ex, StoreX(size, base, Low32(disp), r), off, c, a, size, c.regs[r])
  {
    var x := StoreX(size, base, Low32(disp), r);
    SameAddress(c, base, disp, c.regs[base]);
    assert ex(x, off, c) == Exec(z, k, x, off, c);
  }

  lemma StoreImmWrites(ex: Executor, z: Around, k: Kernel, size: nat, base: reg, disp: i16, imm: i32, off: nat, c: Cpu,
                       a: u64)
    requires Faithful(ex, z, k) && size in {1, 2, 4, 8} && a == Wrap64(c.regs[base] + disp)
    ensures Writes(ex, StoreImm(size, base, Low32(disp), ImmField(size, imm)), off, c, a, size, Wrap64(imm))
  {
    var x := StoreImm(size, base, Low32(disp), ImmField(size, imm));
    SameAddress(c, base, disp, c.regs[base]);
    SameImm(c.mem, a, size, imm);
    assert ex(x, off, c) == Exec(z, k, x, off, c);
  }

  lemma StoreSim(ex: Executor, enc: Encoder, z: Around, k: Kernel, w: Caller, s: set<nat>, i: Insn, m: Machine,
                 off: nat, c: Cpu)
    returns (c': Cpu)
    requires Faithful(ex, z, k) && Rel(z, w, s, m, c) && i.dst < REG_CNT && i.src < REG_CNT
    requires ClassOf(i.code) in {ST, STX} && XlateStore(i).Some? && i.dst in s
    requires (ClassOf(i.code) == STX ==> i.src in s)
    requires Shared(z, StoreAddr(i, m), Bytes(i.code))
    ensures StepStore(i, m).Next? && Ran(ex, enc, XlateStore(i).value, off, c, c')
    ensures Rel(z, w, s, StepStore(i, m).m, c')
  {
    var x := XlateStore(i).value[0];
    var at, a, n, v := off + |enc(x)|, StoreAddr(i, m), Bytes(i.code), StoredValue(i, m);
    if ClassOf(i.code) == ST {
      StoreImmWrites(ex, z, k, n, JitReg(i.dst), i.off, i.imm, at, c, a);
    } else {
      StoreWrites(ex, z, k, n, JitReg(i.dst), i.off, JitReg(i.src), at, c, a);
    }
    c' := ex(x, at, c).value;
    RanOne(ex, enc, x, off, c, c');
    StoreRel(z, w, s, m, c, a, n, v, StepStore(i, m).m, c');
  }

  lemma WideSim(ex: Executor, enc: Encoder, z: Around, k: Kernel, w: Caller, s: set<nat>, r: nat, v: u64, m: Machine,
                m': Machine, off: nat, c: Cpu)
    returns (c': Cpu)
    requires Faithful(ex, z, k) && Rel(z, w, s, m, c) && r < REG_CNT
    requires m'.regs == m.regs[r := v] && m'.mem == m.mem && m'.log == m.log
    ensures Ran(ex, enc, [MovAbs(JitReg(r), v)], off, c, c') && Rel(z, w, s + {r}, m', c')
  {
    var x := MovAbs(JitReg(r), v);
    var at := off + |enc(x)|;
    assert ex(x, at, c) == Exec(z, k, x, at, c);
    c' := PutsRel(ex, enc, z, w, s, r, x, v, m, m', off, c);
  }

  // ---- jumps ----------------------------------------------------------------

  /** Only rip and the flags move. */
  lemma RelMoved(z: Around, w: Caller, s: set<nat>, m: Machine, c: Cpu, m': Machine, c': Cpu)
    requires Rel(z, w, s, m, c) && m'.regs == m.regs && m'.mem == m.mem && m'.log == m.log
    requires c'.regs == c.regs && c'.mem == c.mem && c'.log == c.log
    ensures Rel(z, w, s, m', c')
  {
  }

  /** Whether the interpreter takes the jump. */
  function Takes(i: Insn, a: u64, b: u64): Option<bool> { JmpRun(JmpOpOf(i.code), ClassOf(i.code) == JMP32, a, b) }

  /** The comparison leaves flags that decide the jump as the interpreter does. */
  lemma CompareMeans(ex: Executor, z: Around, k: Kernel, i: Insn, off: nat, c: Cpu, b: u64) returns (c': Cpu,
        taken: bool)
    requires Faithful(ex, z, k) && i.dst < REG_CNT && i.src < REG_CNT && ClassOf(i.code) in {JMP, JMP32}
    requires Cc(JmpOpOf(i.code)).Some?
    requires b == if SrcIsReg(i.code) then c.regs[JitReg(i.src)] else Wrap64(i.imm)
    ensures ex(Compare(i), off, c) == Some(c')
    ensures c'.regs == c.regs && c'.mem == c.mem && c'.log == c.log && c'.flags.Some?
    ensures Takes(i, c.regs[JitReg(i.dst)], b) == Holds(Cc(JmpOpOf(i.code)).value, c'.flags.value) == Some(taken)
  {
    var x, op, wide, a := Compare(i), JmpOpOf(i.code), ClassOf(i.code) == JMP, c.regs[JitReg(i.dst)];
    assert ex(x, off, c) == Exec(z, k, x, off, c);
    c' := ex(x, off, c).value;
    var b' := if SrcIsReg(i.code) then b else ImmAt(wide, Low32(i.imm));
    ImmMeans(wide, i.imm);
    if !wide { JmpTruncates(op, a, b); }
    if op == JSET { TestMeans(wide, a, b'); } else { CmpMeans(op, wide, a, b'); }
    assert c'.regs == c.regs;
    taken := Takes(i, a, b).value;
  }

  lemma JccGoes(ex: Executor, z: Around, k: Kernel, cc: nib, rel: u32, off: nat, c: Cpu, taken: bool, there: nat)
    requires Faithful(ex, z, k) && c.flags.Some? && Holds(cc, c.flags.value) == Some(taken) && off + S32(rel) == there
    ensures ex(Jcc(cc, rel), off, c) == Some(c.(rip := In(if taken then there else off)))
  {
    assert ex(Jcc(cc, rel), off, c) == Exec(z, k, Jcc(cc, rel), off, c);
  }

  lemma TwoRun(ex: Executor, enc: Encoder, x1: X, x2: X, off: nat, c: Cpu, c1: Cpu, c2: Cpu)
    requires ex(x1, off + |enc(x1)|, c) == Some(c1) && ex(x2, off + |EncodeAll(enc, [x1, x2])|, c1) == Some(c2)
    ensures Ran(ex, enc, [x1, x2], off, c, c2)
  {
    EncodePair(enc, x1, x2);
    ExecCons(ex, enc, x1, [x2], off, c);
    ExecCons(ex, enc, x2, [], off + |enc(x1)|, c1);
    assert [x1, x2] == [x1] + [x2] && [x2] + [] == [x2];
  }

  /** A conditional jump: `next` is the end of its code, `there` where its displacement leads. */
  lemma CondSim(ex: Executor, enc: Encoder, z: Around, k: Kernel, w: Caller, s: set<nat>, i: Insn, rel: u32, m: Machine,
                m': Machine,
                b: u64, off: nat, next: nat, there: nat, c: Cpu)
    returns (c': Cpu, taken: bool)
    requires Faithful(ex, z, k) && Rel(z, w, s, m, c) && i.dst < REG_CNT && i.src < REG_CNT
    requires ClassOf(i.code) in {JMP, JMP32}
    requires Cc(JmpOpOf(i.code)).Some? && i.dst in s
    requires b == if SrcIsReg(i.code) then c.regs[JitReg(i.src)] else Wrap64(i.imm)
    requires next == off + |EncodeAll(enc, [Compare(i), Jcc(Cc(JmpOpOf(i.code)).value, rel)])|
    requires next + S32(rel) == there
    requires m'.regs == m.regs && m'.mem == m.mem && m'.log == m.log
    ensures Takes(i, m.regs[i.dst], b) == Some(taken)
    ensures Ran(ex, enc, [Compare(i), Jcc(Cc(JmpOpOf(i.code)).value, rel)], off, c, c') && Rel(z, w, s, m', c')
    ensures c'.rip == In(if taken then there else next)
  {
    var x1, x2 := Compare(i), Jcc(Cc(JmpOpOf(i.code)).value, rel);
    var c1;
    c1, taken := CompareMeans(ex, z, k, i, off + |enc(x1)|, c, b);
    JccGoes(ex, z, k, x2.cc, rel, next, c1, taken, there);
    c' := c1.(rip := In(if taken then there else next));
    TwoRun(ex, enc, x1, x2, off, c, c1, c');
    RelMoved(z, w, s, m, c, m', c');
  }

  lemma JaSim(ex: Executor, enc: Encoder, z: Around, k: Kernel, w: Caller, s: set<nat>, rel: u32, m: Machine,
              m': Machine,
              off: nat, next: nat, there: nat, c: Cpu)
    returns (c': Cpu)
    requires Faithful(ex, z, k) && Rel(z, w, s, m, c)
    requires next == off + |EncodeAll(enc, [Jmp(rel)])| && next + S32(rel) == there
    requires m'.regs == m.regs && m'.mem == m.mem && m'.log == m.log
    ensures Ran(ex, enc, [Jmp(rel)], off, c, c') && Rel(z, w, s, m', c') && c'.rip == In(there)
  {
    EncodeOne(enc, Jmp(rel));
    assert ex(Jmp(rel), next, c) == Exec(z, k, Jmp(rel), next, c);
    c' := c.(rip := In(there));
    RanOne(ex, enc, Jmp(rel), off, c, c');
    RelMoved(z, w, s, m, c, m', c');
  }
}
