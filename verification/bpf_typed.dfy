/**
 * Accesses land where the verifier's own register says: in the map it typed, in the record it named, in frame or
 * context.
 */
module BpfTyped {
  import opened Words
  import opened Memory
  import opened BpfInsn
  import opened BpfVerifier
  import opened BpfMachine
  import opened BpfWellFormed
  import opened BpfSoundness

  // ---- where a register points ----------------------------------------------

  /** Inside one value of map `k`. */
  ghost predicate InValueOf(e: Env, k: nat, a: int, n: nat) { exists el: u64 :: WithinValue(e, k, el, a, n) }

  /** The `n` bytes at `a` lie in the object `r` is said to point into. */
  ghost predicate PointsAs(e: Env, live: map<nat, Rec>, r: Reg, a: int, n: nat) {
    match r
    case PtrStack(_) => InFrame(e, a, n)
    case PtrCtx(_) => InCtx(e, a, n)
    case PtrMapValueOk(k, _) => InValueOf(e, k, a, n)
    case PtrMemOk(ref, _, _) => ref in live && WithinRecord(live[ref], a, n)
    case _ => false
  }

  lemma PointedAs(e: Env, p: Prog, m: Machine, pc: nat, q: Reg, v: u64, off: int, n: nat)
    requires ValidEnv(e) && RecordsOk(e, m) && Means(e, m.live, q, v) && RegWf(e.b, p, pc, q)
    requires CheckMem(e.b, q, Off(q) + off, n)
    ensures PointsAs(e, m.live, q, Wrap64(v + off), n)
  {
    match q
    case PtrStack(o) => PointedStack(e, o, v, off, n);
    case PtrCtx(o) => PointedCtx(e, o, v, off, n);
    case PtrMapValueOk(k, o) => PointedAsValue(e, k, o, v, off, n);
    case PtrMemOk(ref, sz, o) => PointedAsRecord(e, m, ref, o, v, off, n);
  }

  lemma PointedAsValue(e: Env, k: nat, o: int, v: u64, off: int, n: nat)
    requires ValidEnv(e) && ValueAt(e, k, o, v) && k < |e.b.defs|
    requires 0 <= o + off && o + off + n <= e.b.defs[k].valueSize
    ensures InValueOf(e, k, Wrap64(v + off), n)
  {
    var el: u64 :| el in Def(e.b, k).elems && v == Wrap64(el + o);
    Inside(el, e.b.defs[k].valueSize, o, v, off, n);
    assert WithinValue(e, k, el, Wrap64(v + off), n);
  }

  lemma PointedAsRecord(e: Env, m: Machine, ref: nat, o: int, v: u64, off: int, n: nat)
    requires RecordsOk(e, m) && ref in m.live && v == Wrap64(m.live[ref].addr + o)
    requires 0 <= o + off && o + off + n <= m.live[ref].size
    ensures WithinRecord(m.live[ref], Wrap64(v + off), n)
  {
    assert RecordOk(e, m.live[ref]);
    Inside(m.live[ref].addr, m.live[ref].size, o, v, off, n);
  }

  /** What is not the context may be written. */
  lemma TypedWritable(e: Env, p: Prog, live: map<nat, Rec>, pc: nat, r: Reg, a: int, n: nat)
    requires PointsAs(e, live, r, a, n) && RegWf(e.b, p, pc, r) && !r.PtrCtx?
    ensures CanWrite(e, p, live, a, n)
  {
    if r.PtrMapValueOk? {
      var el: u64 :| WithinValue(e, r.m, el, a, n);
      assert InValue(e, p, a, n);
    }
  }

  // ---- arguments of a call --------------------------------------------------

  /** Argument `a` of a call, by the register the verifier judged it by. */
  ghost predicate ArgTyped(e: Env, st: VState, m: Machine, proto: Proto, a: nat)
    requires a < |proto.args| <= 5
  {
    var r, v := st.regs[1 + a], m.regs[1 + a];
    var k := st.regs[1 + MapIndex(proto)];
    match proto.args[a]
    case ArgConstMap => r.PtrMap? && v == Def(e.b, r.m).addr
    case ArgMapKey => k.PtrMap? && PointsAs(e, m.live, r, v, Def(e.b, k.m).keySize)
    case ArgMapValue => k.PtrMap? && PointsAs(e, m.live, r, v, Def(e.b, k.m).valueSize)
    case ArgMem => m.regs[2 + a] == 0 || PointsAs(e, m.live, r, v, m.regs[2 + a])
    case ArgUninitMem => m.regs[2 + a] == 0 || PointsAs(e, m.live, r, v, m.regs[2 + a])
    case ArgCtx => r == PtrCtx(0) && v == e.ctx
    case ArgRingMem => r.PtrMemOk? && r.ref in m.live && m.live[r.ref].addr == v
    case _ => true
  }

  /** The argument loop has left the registers alone, and knows the map from the one that names it. */
  predicate ScanOf(proto: Proto, st: VState, s: Scan)
    requires |proto.args| <= 5
  {
    s.st.regs == st.regs && (s.argMap.Some? ==> st.regs[1 + MapIndex(proto)] == PtrMap(s.argMap.value))
  }

  lemma ScanStays(b: Bounds, proto: Proto, a: nat, st: VState, s: Scan)
    requires a < |proto.args| && ProtoWf(proto) && ScanOf(proto, st, s) && CheckArg(b, proto, a, s).Some?
    ensures ScanOf(proto, st, CheckArg(b, proto, a, s).value)
  {
  }

  lemma PointsHere(e: Env, p: Prog, m: Machine, pc: nat, q: Reg, v: u64, n: nat)
    requires ValidEnv(e) && RecordsOk(e, m) && Means(e, m.live, q, v) && RegWf(e.b, p, pc, q)
    requires CheckMem(e.b, q, Off(q), n)
    ensures PointsAs(e, m.live, q, v, n)
  {
    WrapSmall(v);
    PointedAs(e, p, m, pc, q, v, 0, n);
  }

  lemma SizedTyped(e: Env, p: Prog, m: Machine, pc: nat, proto: Proto, a: nat, st: VState)
    requires ValidEnv(e) && RecordsOk(e, m) && RegsMean(e, m.live, st.regs, m.regs) && StateWf(e.b, p, pc, st)
    requires a < |proto.args| <= 5 && MemArgOk(e.b, proto, a, st)
    ensures m.regs[2 + a] == 0 || PointsAs(e, m.live, st.regs[1 + a], m.regs[1 + a], m.regs[2 + a])
  {
    assert Means(e, m.live, st.regs[1 + a], m.regs[1 + a]) && RegWf(e.b, p, pc, st.regs[1 + a]);
    assert Means(e, m.live, st.regs[2 + a], m.regs[2 + a]);
    if m.regs[2 + a] != 0 { PointsHere(e, p, m, pc, st.regs[1 + a], m.regs[1 + a], m.regs[2 + a]); }
  }

  lemma RecordTyped(e: Env, m: Machine, q: Reg, v: u64)
    requires RecordsOk(e, m) && Means(e, m.live, q, v) && q.PtrMemOk? && q.off == 0
    ensures q.ref in m.live && m.live[q.ref].addr == v
  {
    assert RecordOk(e, m.live[q.ref]);
    WrapSmall(m.live[q.ref].addr);
  }

  lemma ArgIsTyped(e: Env, p: Prog, m: Machine, pc: nat, proto: Proto, a: nat, st: VState, s: Scan)
    requires ValidEnv(e) && RecordsOk(e, m) && RegsMean(e, m.live, st.regs, m.regs) && StateWf(e.b, p, pc, st)
    requires a < |proto.args| && ProtoWf(proto) && ScanOf(proto, st, s) && CheckArg(e.b, proto, a, s).Some?
    ensures ArgTyped(e, st, m, proto, a)
  {
    var q, v := st.regs[1 + a], m.regs[1 + a];
    assert Means(e, m.live, q, v) && RegWf(e.b, p, pc, q);
    match proto.args[a]
    case ArgMapKey => PointsHere(e, p, m, pc, q, v, Def(e.b, s.argMap.value).keySize);
    case ArgMapValue => PointsHere(e, p, m, pc, q, v, Def(e.b, s.argMap.value).valueSize);
    case ArgMem => SizedTyped(e, p, m, pc, proto, a, st);
    case ArgUninitMem => SizedTyped(e, p, m, pc, proto, a, st);
    case ArgCtx => WrapSmall(e.ctx);
    case ArgRingMem => RecordTyped(e, m, q, v);
    case _ =>
  }

  /** The loop judged argument `c` in a state with these registers. */
  lemma {:induction false} ArgReached(b: Bounds, proto: Proto, a: nat, st: VState, s: Scan, c: nat) returns (t: Scan)
    requires a <= c < |proto.args| && ProtoWf(proto) && ScanOf(proto, st, s) && CheckArgs(b, proto, a, s).Some?
    ensures ScanOf(proto, st, t) && CheckArg(b, proto, c, t).Some?
    decreases c - a
  {
    t := s;
    if a < c {
      ScanStays(b, proto, a, st, s);
      t := ArgReached(b, proto, a + 1, st, CheckArg(b, proto, a, s).value, c);
    }
  }

  ghost predicate CallTyped(e: Env, i: Insn, st: VState, m: Machine) {
    && HelperOf(Low32(i.imm)).Some?
    && var proto := HelperOf(Low32(i.imm)).value;
    && |proto.args| <= 5
    && forall a :: 0 <= a < |proto.args| ==> ArgTyped(e, st, m, proto, a)
  }

  lemma CallIsTyped(e: Env, p: Prog, i: Insn, st: VState, m: Machine)
    requires ValidEnv(e) && Gamma(e, st, m) && StateWf(e.b, p, m.pc, st) && VerifyCall(e.b, m.pc, i, st).Some?
    ensures CallTyped(e, i, st, m)
  {
    var proto := HelperOf(Low32(i.imm)).value;
    ProtosWf(Low32(i.imm));
    forall a | 0 <= a < |proto.args|
      ensures ArgTyped(e, st, m, proto, a)
    {
      var t := ArgReached(e.b, proto, 0, st, Scan(st, None, None), a);
      ArgIsTyped(e, p, m, m.pc, proto, a, st, t);
    }
  }

  // ---- output buffers -------------------------------------------------------

  /** The context shares no byte with a value of the program's maps or a record held. */
  ghost predicate CtxApart(e: Env, p: Prog, live: map<nat, Rec>) {
    && (forall k, el: u64 :: k in p.maps && el in Def(e.b, k).elems ==>
          el + Def(e.b, k).valueSize <= e.ctx || e.ctx + e.b.ctxSize <= el)
    && (forall ref :: ref in live ==>
          live[ref].addr + live[ref].size <= e.ctx || e.ctx + e.b.ctxSize <= live[ref].addr)
  }

  lemma ContextNotWritable(e: Env, p: Prog, live: map<nat, Rec>, a: int, n: nat)
    requires ValidEnv(e) && CtxApart(e, p, live) && InCtx(e, a, n) && n > 0
    ensures !CanWrite(e, p, live, a, n)
  {
  }

  /**
   * An output buffer of an accepted call, not empty, is memory the program may write exactly when the register that
   * names it is not the context: the one read-only object check_mem lets a helper fill.
   */
  lemma OutputWritableIff(e: Env, p: Prog, i: Insn, st: VState, m: Machine, a: nat)
    requires ValidEnv(e) && Gamma(e, st, m) && StateWf(e.b, p, m.pc, st) && VerifyCall(e.b, m.pc, i, st).Some?
    requires CtxApart(e, p, m.live)
    requires a < |HelperOf(Low32(i.imm)).value.args| <= 5
    requires HelperOf(Low32(i.imm)).value.args[a] == ArgUninitMem && m.regs[2 + a] != 0
    ensures CanWrite(e, p, m.live, m.regs[1 + a], m.regs[2 + a]) <==> !st.regs[1 + a].PtrCtx?
  {
    CallIsTyped(e, p, i, st, m);
    assert ArgTyped(e, st, m, HelperOf(Low32(i.imm)).value, a);
    assert RegWf(e.b, p, m.pc, st.regs[1 + a]);
    if st.regs[1 + a].PtrCtx? {
      ContextNotWritable(e, p, m.live, m.regs[1 + a], m.regs[2 + a]);
    } else {
      TypedWritable(e, p, m.live, m.pc, st.regs[1 + a], m.regs[1 + a], m.regs[2 + a]);
    }
  }

  // ---- one instruction ------------------------------------------------------

  /** Every access of the instruction at m.pc lands in the object its register stands for in `st`. */
  ghost predicate AccessTyped(e: Env, p: Prog, st: VState, m: Machine) {
    && m.pc < |p.insns|
    && var i := p.insns[m.pc];
    && i.dst < REG_CNT && i.src < REG_CNT
    && match ClassOf(i.code)
       case LDX => PointsAs(e, m.live, st.regs[i.src], LoadAddr(i, m), Bytes(i.code))
       case ST => !st.regs[i.dst].PtrCtx? && PointsAs(e, m.live, st.regs[i.dst], StoreAddr(i, m), Bytes(i.code))
       case STX => !st.regs[i.dst].PtrCtx? && PointsAs(e, m.live, st.regs[i.dst], StoreAddr(i, m), Bytes(i.code))
       case JMP => JmpOpOf(i.code) == CALL ==> CallTyped(e, i, st, m)
       case JMP32 => JmpOpOf(i.code) == CALL ==> CallTyped(e, i, st, m)
       case _ => true
  }

  lemma LoadIsTyped(e: Env, p: Prog, i: Insn, st: VState, m: Machine)
    requires ValidEnv(e) && Gamma(e, st, m) && StateWf(e.b, p, m.pc, st)
    requires i.dst < REG_CNT && i.src < REG_CNT && VerifyLoad(e.b, i, st).Some?
    ensures PointsAs(e, m.live, st.regs[i.src], LoadAddr(i, m), Bytes(i.code))
  {
    assert Means(e, m.live, st.regs[i.src], m.regs[i.src]) && RegWf(e.b, p, m.pc, st.regs[i.src]);
    PointedAs(e, p, m, m.pc, st.regs[i.src], m.regs[i.src], i.off, Bytes(i.code));
  }

  lemma StoreIsTyped(e: Env, p: Prog, i: Insn, st: VState, m: Machine)
    requires ValidEnv(e) && Gamma(e, st, m) && StateWf(e.b, p, m.pc, st)
    requires i.dst < REG_CNT && i.src < REG_CNT && VerifyStore(e.b, i, st).Some?
    ensures !st.regs[i.dst].PtrCtx? && PointsAs(e, m.live, st.regs[i.dst], StoreAddr(i, m), Bytes(i.code))
  {
    assert Means(e, m.live, st.regs[i.dst], m.regs[i.dst]) && RegWf(e.b, p, m.pc, st.regs[i.dst]);
    PointedAs(e, p, m, m.pc, st.regs[i.dst], m.regs[i.dst], i.off, Bytes(i.code));
  }

  /** An accepted instruction accesses only what its registers stand for. */
  lemma StepTyped(e: Env, p: Prog, st: VState, m: Machine)
    requires ValidEnv(e) && m.pc < |p.insns| && Gamma(e, st, m) && StateWf(e.b, p, m.pc, st)
    requires VerifyInsn(e.b, p, m.pc, st) != Reject
    ensures AccessTyped(e, p, st, m)
  {
    var i := p.insns[m.pc];
    match ClassOf(i.code)
    case LDX => LoadIsTyped(e, p, i, st, m);
    case ST => StoreIsTyped(e, p, i, st, m);
    case STX => StoreIsTyped(e, p, i, st, m);
    case JMP => if JmpOpOf(i.code) == CALL { CallIsTyped(e, p, i, st, m); }
    case JMP32 => if JmpOpOf(i.code) == CALL { CallIsTyped(e, p, i, st, m); }
    case _ =>
  }
}
