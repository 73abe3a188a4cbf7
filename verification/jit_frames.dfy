/** The helper call, and the way into and out of the emitted code. */
module JitFrames {
  import opened Words
  import opened Memory
  import opened BpfInsn
  import opened BpfVerifier
  import opened BpfMachine
  import opened X86
  import opened X86Machine
  import opened JitTranslate
  import opened JitExec
  import opened JitMemory
  import opened JitSim
  import opened JitSteps

  // ---- helper calls ---------------------------------------------------------

  lemma Moving(ex: Executor, z: Around, k: Kernel, d: reg, s: reg, off: nat, c: Cpu) returns (c': Cpu)
    requires Faithful(ex, z, k)
    ensures ex(Rr(MovRr, true, d, s), off, c) == Some(c')
    ensures c'.regs == c.regs[d := c.regs[s]] && c'.mem == c.mem && c'.log == c.log
  {
    RrPuts(ex, z, k, MovRr, true, d, s, off, c);
    WrapSmall(c.regs[s]);
    c' := ex(Rr(MovRr, true, d, s), off, c).value;
  }

  /** The four moves that free rdx. */
  lemma ShuffleHigh(ex: Executor, enc: Encoder, z: Around, k: Kernel, off: nat, c: Cpu) returns (c': Cpu)
    requires Faithful(ex, z, k)
    ensures Ran(ex, enc, [Rr(MovRr, true, 9, 8), Rr(MovRr, true, 8, 1), Rr(MovRr, true, 1, 2), Rr(MovRr, true, 2, 6)],
                off, c, c')
    ensures c'.regs == c.regs[9 := c.regs[8]][8 := c.regs[1]][1 := c.regs[2]][2 := c.regs[6]] && c'.mem == c.mem
    ensures c'.log == c.log
  {
    var x1, x2, x3, x4 := Rr(MovRr, true, 9, 8), Rr(MovRr, true, 8, 1), Rr(MovRr, true, 1, 2), Rr(MovRr, true, 2, 6);
    var c1 := Moving(ex, z, k, 9, 8, off + |enc(x1)|, c);
    var c2 := Moving(ex, z, k, 8, 1, off + |enc(x1)| + |enc(x2)|, c1);
    var c3 := Moving(ex, z, k, 1, 2, off + |enc(x1)| + |enc(x2)| + |enc(x3)|, c2);
    c' := Moving(ex, z, k, 2, 6, off + |enc(x1)| + |enc(x2)| + |enc(x3)| + |enc(x4)|, c3);
    FourRun(ex, enc, x1, x2, x3, x4, off, c, c1, c2, c3, c');
  }

  /** What the dispatcher is called with. */
  ghost predicate Ready(c: Cpu, c': Cpu, id: u32, fn: u64) {
    && c'.regs[7] == id && c'.regs[6] == c.regs[7] && c'.regs[2] == c.regs[6] && c'.regs[1] == c.regs[2]
    && c'.regs[8] == c.regs[1] && c'.regs[9] == c.regs[8] && c'.regs[0] == fn
    && (forall r :: r in {3, 4, 5, 12, 13, 14, 15} ==> c'.regs[r] == c.regs[r])
    && c'.mem == c.mem && c'.log == c.log
  }

  lemma ShuffleLow(ex: Executor, enc: Encoder, z: Around, k: Kernel, id: u32, fn: u64, off: nat,
                   c: Cpu) returns (c': Cpu, done: Cpu)
    requires Faithful(ex, z, k) && fn == k.entry
    ensures Ran(ex, enc, [Rr(MovRr, true, 6, 7), MovImm(false, 7, id), MovAbs(RAX, fn), CallRax], off, c, done)
    ensures c'.regs == c.regs[6 := c.regs[7]][7 := id][0 := fn] && c'.mem == c.mem && c'.log == c.log
    ensures done.regs == CallHelper(z, k, c').regs && done.mem == CallHelper(z, k, c').mem
    ensures done.log == CallHelper(z, k, c').log
  {
    var x1, x2, x3, x4 := Rr(MovRr, true, 6, 7), MovImm(false, 7, id), MovAbs(RAX, fn), CallRax;
    var o2 := off + |enc(x1)| + |enc(x2)|;
    var o3 := o2 + |enc(x3)|;
    var o4 := o3 + |enc(x4)|;
    var c1 := Moving(ex, z, k, 6, 7, off + |enc(x1)|, c);
    var c2 := Loading(ex, z, k, id, o2, c1);
    c' := LoadingAbs(ex, z, k, fn, o3, c2);
    done := Calling(ex, z, k, o4, c');
    FourRun(ex, enc, x1, x2, x3, x4, off, c, c1, c2, c', done);
  }

  lemma Loading(ex: Executor, z: Around, k: Kernel, id: u32, off: nat, c: Cpu) returns (c': Cpu)
    requires Faithful(ex, z, k)
    ensures ex(MovImm(false, 7, id), off, c) == Some(c')
    ensures c'.regs == c.regs[7 := id] && c'.mem == c.mem && c'.log == c.log
  {
    assert ex(MovImm(false, 7, id), off, c) == Exec(z, k, MovImm(false, 7, id), off, c);
    SignedLow(id);
    c' := ex(MovImm(false, 7, id), off, c).value;
  }

  lemma SignedLow(id: u32)
    ensures Low32(S32(id)) == id
  {
  }

  lemma LoadingAbs(ex: Executor, z: Around, k: Kernel, fn: u64, off: nat, c: Cpu) returns (c': Cpu)
    requires Faithful(ex, z, k)
    ensures ex(MovAbs(RAX, fn), off, c) == Some(c')
    ensures c'.regs == c.regs[RAX := fn] && c'.mem == c.mem && c'.log == c.log
  {
    assert ex(MovAbs(RAX, fn), off, c) == Exec(z, k, MovAbs(RAX, fn), off, c);
    c' := ex(MovAbs(RAX, fn), off, c).value;
  }

  lemma Calling(ex: Executor, z: Around, k: Kernel, off: nat, c: Cpu) returns (c': Cpu)
    requires Faithful(ex, z, k) && c.regs[RAX] == k.entry
    ensures ex(CallRax, off, c) == Some(c')
    ensures c'.regs == CallHelper(z, k, c).regs && c'.mem == CallHelper(z, k, c).mem
    ensures c'.log == CallHelper(z, k, c).log
  {
    assert ex(CallRax, off, c) == Exec(z, k, CallRax, off, c);
    c' := ex(CallRax, off, c).value;
    CallIgnoresRip(z, k, c, off);
  }

  lemma CallIgnoresRip(z: Around, k: Kernel, c: Cpu, off: nat)
    ensures CallHelper(z, k, c.(rip := In(off))).regs == CallHelper(z, k, c).regs
    ensures CallHelper(z, k, c.(rip := In(off))).mem == CallHelper(z, k, c).mem
    ensures CallHelper(z, k, c.(rip := In(off))).log == CallHelper(z, k, c).log
  {
    var c1: Cpu := c.(rip := In(off));
    assert CallHelper(z, k, c1).regs == CallHelper(z, k, c).regs;
    forall a: u64 ensures AfterCallByte(k, c1, a) == AfterCallByte(k, c, a) { }
    assert CallSeen(c1) == CallSeen(c);
  }

  /** The memory after a call: the helper's where it can see, the saved words as they were. */
  lemma CallMemory(z: Around, k: Kernel, c: Cpu, seen: Mem)
    requires Roomy(z) && c.regs[RSP] == z.fp - 544
    ensures Visible(z, AfterCallMem(z, k, c, seen)) == Visible(z, seen)
    ensures KeptSame(z, c.mem, AfterCallMem(z, k, c, seen))
  {
    var mem := AfterCallMem(z, k, c, seen);
    assert Visible(z, mem) == Visible(z, seen);
    forall x: u64 | Kept(z, x)
      ensures Rd(c.mem, x) == Rd(mem, x)
    {
      InPrivateSet(z, x);
      assert x !in Visible(z, seen);
    }
  }

  lemma SameArgs(id: u32, s: seq<u64>, t: seq<u64>)
    requires |s| == |t| == 5
    requires HelperOf(id).Some? ==> forall a :: 0 <= a < |HelperOf(id).value.args| && a < 5 ==> s[a] == t[a]
    ensures Taken(id, s) == Taken(id, t)
  {
  }

  /** The registers whose agreement a call needs, and those it leaves agreeing. */
  predicate CallReads(s: set<nat>, id: u32) {
    HelperOf(id).Some? ==> forall r :: 1 <= r <= |HelperOf(id).value.args| && r <= 5 ==> r in s
  }

  function AfterCallSet(s: set<nat>): set<nat> { s - {1, 2, 3, 4, 5} + {0} }

  /** The processor's arguments are the interpreter's, as far as the helper looks. */
  lemma SameCall(s: set<nat>, i: Insn, m: Machine, c: Cpu, c': Cpu, fn: u64)
    requires Agree(s, m, c) && Ready(c, c', Low32(i.imm), fn) && CallReads(s, Low32(i.imm))
    ensures CallSeen(c') == CallOf(i, m)
  {
    var id := Low32(i.imm);
    var s1, t := m.regs[1..6], [c'.regs[6], c'.regs[2], c'.regs[1], c'.regs[8], c'.regs[9]];
    assert s1 == [m.regs[1], m.regs[2], m.regs[3], m.regs[4], m.regs[5]];
    assert JIT_REG[1] == 7 && JIT_REG[2] == 6 && JIT_REG[3] == 2 && JIT_REG[4] == 1 && JIT_REG[5] == 8;
    forall a | HelperOf(id).Some? && 0 <= a < |HelperOf(id).value.args| && a < 5
      ensures t[a] == s1[a]
    {
      assert 1 + a in s && t[a] == c.regs[JitReg(1 + a)];
    }
    SameArgs(id, s1, t);
    LowOfLow(id);
  }

  lemma LowOfLow(id: u32)
    ensures Low32(id) == id
  {
  }

  /** Registers that survive the call. */
  lemma SurvivorsAgree(s: set<nat>, m: Machine, c: Cpu, m': Machine, done: Cpu)
    requires Agree(s, m, c)
    requires m'.regs == m.regs[0 := done.regs[0]]
    requires forall r :: r in {3, 5, 13, 14, 15} ==> done.regs[r] == c.regs[r]
    ensures Agree(AfterCallSet(s), m', done)
  {
    forall r | r in AfterCallSet(s) && r < REG_CNT
      ensures done.regs[JitReg(r)] == m'.regs[r]
    {
      if r != 0 {
        assert JitReg(r) in {3, 5, 13, 14, 15};
        assert c.regs[JitReg(r)] == m.regs[r];
      }
    }
  }

  lemma CallRegs(z: Around, k: Kernel, c: Cpu, h: HelperEffect)
    requires h == k.helper(c.log, CallSeen(c), Visible(z, c.mem))
    ensures var d := CallHelper(z, k, c);
            d.regs[0] == h.ret && (forall r :: r in {3, 4, 5, 12, 13, 14, 15} ==> d.regs[r] == c.regs[r])
            && d.mem == AfterCallMem(z, k, c, h.mem) && d.log == c.log + [CallSeen(c)]
  {
  }

  lemma CallRel(z: Around, k: Kernel, w: Caller, s: set<nat>, i: Insn, m: Machine, m': Machine, h: HelperEffect, c: Cpu,
                c': Cpu, done: Cpu)
    requires Rel(z, w, s, m, c) && Ready(c, c', Low32(i.imm), k.entry) && CallReads(s, Low32(i.imm))
    requires h == k.helper(m.log, CallOf(i, m), Visible(z, m.mem))
    requires m'.regs == m.regs[0 := h.ret] && m'.mem == h.mem && m'.log == m.log + [CallOf(i, m)]
    requires done.regs == CallHelper(z, k, c').regs && done.mem == CallHelper(z, k, c').mem
    requires done.log == CallHelper(z, k, c').log
    ensures Rel(z, w, AfterCallSet(s), m', done)
  {
    SameCall(s, i, m, c, c', k.entry);
    CallRegs(z, k, c', h);
    SurvivorsAgree(s, m, c, m', done);
    CallMemory(z, k, c', h.mem);
    WordsKept(z, w.c, w.ret, c.mem, done.mem);
  }

  lemma Shuffled(c: Cpu, c1: Cpu, c': Cpu, id: u32, fn: u64)
    requires c1.regs == c.regs[9 := c.regs[8]][8 := c.regs[1]][1 := c.regs[2]][2 := c.regs[6]] && c1.mem == c.mem
    requires c1.log == c.log
    requires c'.regs == c1.regs[6 := c1.regs[7]][7 := id][0 := fn] && c'.mem == c1.mem && c'.log == c1.log
    ensures Ready(c, c', id, fn)
  {
  }

  /** The shuffle and the call, from the emitted instructions. */
  lemma HelperRuns(ex: Executor, enc: Encoder, z: Around, k: Kernel, id: u32, off: nat, c: Cpu) returns (c': Cpu,
        done: Cpu)
    requires Faithful(ex, z, k)
    ensures Ran(ex, enc, HelperCode(id, k.entry), off, c, done) && Ready(c, c', id, k.entry)
    ensures done.regs == CallHelper(z, k, c').regs && done.mem == CallHelper(z, k, c').mem
    ensures done.log == CallHelper(z, k, c').log
  {
    var hi := [Rr(MovRr, true, 9, 8), Rr(MovRr, true, 8, 1), Rr(MovRr, true, 1, 2), Rr(MovRr, true, 2, 6)];
    var lo := [Rr(MovRr, true, 6, 7), MovImm(false, 7, id), MovAbs(RAX, k.entry), CallRax];
    var c1 := ShuffleHigh(ex, enc, z, k, off, c);
    c', done := ShuffleLow(ex, enc, z, k, id, k.entry, off + |EncodeAll(enc, hi)|, c1);
    RanMore(ex, enc, hi, lo, off, c, c1, done);
    assert hi + lo == HelperCode(id, k.entry);
    Shuffled(c, c1, c', id, k.entry);
  }

  lemma CallSim(ex: Executor, enc: Encoder, z: Around, k: Kernel, w: Caller, s: set<nat>, i: Insn, m: Machine,
                m': Machine, h: HelperEffect,
                off: nat, c: Cpu)
    returns (done: Cpu)
    requires Faithful(ex, z, k) && Rel(z, w, s, m, c) && CallReads(s, Low32(i.imm))
    requires h == k.helper(m.log, CallOf(i, m), Visible(z, m.mem))
    requires m'.regs == m.regs[0 := h.ret] && m'.mem == h.mem && m'.log == m.log + [CallOf(i, m)]
    ensures Ran(ex, enc, HelperCode(Low32(i.imm), k.entry), off, c, done) && Rel(z, w, AfterCallSet(s), m', done)
  {
    var c';
    c', done := HelperRuns(ex, enc, z, k, Low32(i.imm), off, c);
    CallRel(z, k, w, s, i, m, m', h, c, c', done);
  }
}
