/**
 * What an abstract state means on the machine, and that one accepted instruction is safe from
 * every machine state it describes and leads only to machine states its successors describe.
 */
module BpfSoundness {
  import opened Words
  import opened Memory
  import opened BpfInsn
  import opened BpfVerifier
  import opened BpfMachine
  import opened BpfWellFormed

  // ---- concretisation -------------------------------------------------------

  ghost predicate ValueAt(e: Env, k: nat, off: int, v: u64) {
    exists el: u64 :: el in Def(e.b, k).elems && v == Wrap64(el + off)
  }

  /** The values `v` that `r` describes, while the run holds the records `live`. */
  ghost predicate Means(e: Env, live: map<nat, Rec>, r: Reg, v: u64) {
    match r
    case NotInit => true
    case Scalar(known, val) => known ==> v == val
    case PtrCtx(off) => v == Wrap64(e.ctx + off)
    case PtrStack(off) => v == Wrap64(e.fp + off)
    case PtrMapValue(k) => v == 0 || v in Def(e.b, k).elems
    case PtrMapValueOk(k, off) => ValueAt(e, k, off, v)
    case PtrMap(k) => v == Def(e.b, k).addr
    case PtrMem(ref, size) => if ref in live then live[ref] == Rec(v, size) else v == 0
    case PtrMemOk(ref, size, off) => ref in live && live[ref].size == size && v == Wrap64(live[ref].addr + off)
  }

  function SlotAddr(e: Env, s: nat): u64
    requires STACK_SIZE < e.fp && s < SLOTS
  {
    e.fp - STACK_SIZE + 8 * s
  }

  function SlotValue(e: Env, mem: Mem, s: nat): u64
    requires STACK_SIZE < e.fp && s < SLOTS
  {
    Pow256Values();
    Load(mem, SlotAddr(e, s), 8)
  }

  ghost predicate SlotMeans(e: Env, live: map<nat, Rec>, slot: Slot, v: u64) {
    slot.Spill? ==> Means(e, live, slot.reg, v)
  }

  ghost predicate RegsMean(e: Env, live: map<nat, Rec>, regs: seq<Reg>, vals: seq<u64>)
    requires |regs| == |vals| == REG_CNT
  {
    forall r :: 0 <= r < REG_CNT ==> Means(e, live, regs[r], vals[r])
  }

  ghost predicate SlotsMean(e: Env, live: map<nat, Rec>, slots: seq<Slot>, mem: Mem)
    requires STACK_SIZE < e.fp && |slots| == SLOTS
  {
    forall s :: 0 <= s < SLOTS ==> SlotMeans(e, live, slots[s], SlotValue(e, mem, s))
  }

  /** Records held are real, off the frame, told apart by address, and account for every reservation made. */
  ghost predicate RecordsOk(e: Env, m: Machine) {
    && (forall ref :: ref in m.live ==> RecordOk(e, m.live[ref]))
    && (forall r1, r2 :: r1 in m.live && r2 in m.live && r1 != r2 ==> m.live[r1].addr != m.live[r2].addr)
    && m.reserved == m.committed + |m.live|
  }

  predicate RecordOk(e: Env, r: Rec) {
    8 <= r.addr && r.addr + r.size < M64 && 0 < r.size && OffFrame(e, r.addr, r.size)
  }

  ghost predicate RefsMean(live: map<nat, Rec>, refs: seq<nat>) { forall ref :: ref in live ==> ref in refs }

  /** The machine states that `st` describes. */
  ghost predicate Gamma(e: Env, st: VState, m: Machine) {
    && STACK_SIZE < e.fp
    && RegsMean(e, m.live, st.regs, m.regs)
    && SlotsMean(e, m.live, st.slots, m.mem)
    && RefsMean(m.live, st.refs)
    && RecordsOk(e, m)
  }

  // ---- coverage is inclusion ------------------------------------------------

  lemma RegCoversMeans(e: Env, live: map<nat, Rec>, o: Reg, n: Reg, v: u64)
    requires RegCovers(o, n) && Means(e, live, n, v)
    ensures Means(e, live, o, v)
  {
  }

  /** state_covers: every machine state the newer path describes, the older one described too. */
  lemma CoversIncludes(e: Env, o: VState, n: VState, m: Machine)
    requires StateCovers(o, n) && Gamma(e, n, m)
    ensures Gamma(e, o, m)
  {
    forall r | 0 <= r < REG_CNT
      ensures Means(e, m.live, o.regs[r], m.regs[r])
    {
      RegCoversMeans(e, m.live, o.regs[r], n.regs[r], m.regs[r]);
    }
    forall s | 0 <= s < SLOTS
      ensures SlotMeans(e, m.live, o.slots[s], SlotValue(e, m.mem, s))
    {
      assert SlotMeans(e, m.live, n.slots[s], SlotValue(e, m.mem, s)) && SlotCovers(o.slots[s], n.slots[s]);
      if o.slots[s].Spill? {
        RegCoversMeans(e, m.live, o.slots[s].reg, n.slots[s].reg, SlotValue(e, m.mem, s));
      }
    }
  }

  // ---- memory and the frame -------------------------------------------------

  /** Slots keep their values when memory changes only outside them. */
  lemma SlotKept(e: Env, mem: Mem, mem': Mem, s: nat)
    requires STACK_SIZE < e.fp && s < SLOTS
    requires forall x: u64 :: SlotAddr(e, s) <= x < SlotAddr(e, s) + 8 ==> Rd(mem, x) == Rd(mem', x)
    ensures SlotValue(e, mem, s) == SlotValue(e, mem', s)
  {
    forall x: u64 | InSpan(x, SlotAddr(e, s), 8)
      ensures Rd(mem, x) == Rd(mem', x)
    {
    }
    LoadAgrees(mem, mem', SlotAddr(e, s), 8);
  }

  lemma SameFrameKeeps(e: Env, st: VState, m: Machine, mem: Mem)
    requires Gamma(e, st, m) && SameFrame(e, m.mem, mem)
    ensures Gamma(e, st, WithMem(m, mem))
  {
    forall s | 0 <= s < SLOTS
      ensures SlotMeans(e, m.live, st.slots[s], SlotValue(e, mem, s))
    {
      SlotKept(e, m.mem, mem, s);
    }
  }

  /** A store off the frame leaves the frame alone. */
  lemma StoreOffFrame(e: Env, mem: Mem, a: u64, n: nat, v: nat)
    requires n <= 8 && a + n <= M64 && OffFrame(e, a, n)
    ensures SameFrame(e, mem, Store(mem, a, n, v))
  {
    forall x: u64 | e.fp - STACK_SIZE <= x < e.fp
      ensures Rd(mem, x) == Rd(Store(mem, a, n, v), x)
    {
      assert !InSpan(x, a, n);
      StoreElsewhere(mem, a, n, v, x);
    }
  }

  /** A store on the frame leaves every slot it does not touch as it was. */
  lemma StoreOnFrame(e: Env, mem: Mem, at: int, n: nat, v: nat, s: nat)
    requires STACK_SIZE < e.fp && 0 < n <= 8 && -STACK_SIZE <= at && at + n <= 0
    requires s < SLOTS && !Touches(at + STACK_SIZE, n, s)
    ensures SlotValue(e, Store(mem, e.fp + at, n, v), s) == SlotValue(e, mem, s)
  {
    var mem' := Store(mem, e.fp + at, n, v);
    forall x: u64 | SlotAddr(e, s) <= x < SlotAddr(e, s) + 8
      ensures Rd(mem, x) == Rd(mem', x)
    {
      assert !InSpan(x, e.fp + at, n);
      StoreElsewhere(mem, e.fp + at, n, v, x);
    }
    SlotKept(e, mem, mem', s);
  }

  // ---- pointers that pass check_mem ----------------------------------------

  /** Memory a direct store may reach, away from the frame. */
  ghost predicate OffFrameObject(e: Env, p: Prog, live: map<nat, Rec>, a: int, n: nat) {
    && (InValue(e, p, a, n) || InRecord(live, a, n))
    && a + n <= M64 && OffFrame(e, a, n)
  }

  /** Where a pointer that passed check_mem really points, once an instruction's own offset is added. */
  ghost predicate PointsInto(e: Env, p: Prog, live: map<nat, Rec>, r: Reg, at: int, a: u64, n: nat) {
    match r
    case PtrStack(_) => a == e.fp + at && InFrame(e, a, n)
    case PtrCtx(_) => InCtx(e, a, n)
    case _ => OffFrameObject(e, p, live, a, n)
  }

  lemma PointedStack(e: Env, o: int, v: u64, off: int, n: nat)
    requires ValidEnv(e) && v == Wrap64(e.fp + o) && -STACK_SIZE <= o + off && o + off + n <= 0
    ensures Wrap64(v + off) == e.fp + o + off
  {
    WrapAdd(e.fp + o, off);
  }

  lemma PointedCtx(e: Env, o: int, v: u64, off: int, n: nat)
    requires ValidEnv(e) && v == Wrap64(e.ctx + o) && 0 <= o + off && o + off + n <= e.b.ctxSize
    ensures InCtx(e, Wrap64(v + off), n)
  {
    Inside(e.ctx, e.b.ctxSize, o, v, off, n);
  }

  /** An address inside an object, reached through a wrapped pointer to it. */
  lemma Inside(base: int, size: int, o: int, v: u64, off: int, n: nat)
    requires 0 <= base && base + size < M64 && v == Wrap64(base + o) && 0 <= o + off && o + off + n <= size
    ensures Wrap64(v + off) == base + o + off
  {
    WrapAdd(base + o, off);
  }

  lemma PointedValue(e: Env, p: Prog, live: map<nat, Rec>, k: nat, o: int, v: u64, off: int, n: nat)
    requires ValidEnv(e) && ValueAt(e, k, o, v) && k in p.maps && k < |e.b.defs|
    requires 0 <= o + off && o + off + n <= e.b.defs[k].valueSize
    ensures OffFrameObject(e, p, live, Wrap64(v + off), n)
  {
    var el: u64 :| el in Def(e.b, k).elems && v == Wrap64(el + o);
    Inside(el, e.b.defs[k].valueSize, o, v, off, n);
    assert WithinValue(e, k, el, Wrap64(v + off), n);
  }

  lemma PointedRecord(e: Env, p: Prog, m: Machine, ref: nat, o: int, v: u64, off: int, n: nat)
    requires RecordsOk(e, m) && ref in m.live && v == Wrap64(m.live[ref].addr + o)
    requires 0 <= o + off && o + off + n <= m.live[ref].size
    ensures OffFrameObject(e, p, m.live, Wrap64(v + off), n)
  {
    assert RecordOk(e, m.live[ref]);
    Inside(m.live[ref].addr, m.live[ref].size, o, v, off, n);
    assert WithinRecord(m.live[ref], Wrap64(v + off), n);
  }

  lemma Pointed(e: Env, p: Prog, m: Machine, pc: nat, q: Reg, v: u64, off: int, n: nat)
    requires ValidEnv(e) && RecordsOk(e, m) && Means(e, m.live, q, v) && RegWf(e.b, p, pc, q)
    requires CheckMem(e.b, q, Off(q) + off, n)
    ensures PointsInto(e, p, m.live, q, Off(q) + off, Wrap64(v + off), n)
  {
    if q.PtrStack? || q.PtrCtx? {
      PointedFixed(e, p, m.live, q, v, off, n);
    } else {
      PointedObject(e, p, m, pc, q, v, off, n);
    }
  }

  lemma PointedFixed(e: Env, p: Prog, live: map<nat, Rec>, q: Reg, v: u64, off: int, n: nat)
    requires ValidEnv(e) && Means(e, live, q, v) && CheckMem(e.b, q, Off(q) + off, n) && (q.PtrStack? || q.PtrCtx?)
    ensures PointsInto(e, p, live, q, Off(q) + off, Wrap64(v + off), n)
  {
    match q
    case PtrStack(o) => PointedStack(e, o, v, off, n);
    case PtrCtx(o) => PointedCtx(e, o, v, off, n);
  }

  lemma PointedObject(e: Env, p: Prog, m: Machine, pc: nat, q: Reg, v: u64, off: int, n: nat)
    requires ValidEnv(e) && RecordsOk(e, m) && Means(e, m.live, q, v) && RegWf(e.b, p, pc, q)
    requires CheckMem(e.b, q, Off(q) + off, n) && !q.PtrStack? && !q.PtrCtx?
    ensures PointsInto(e, p, m.live, q, Off(q) + off, Wrap64(v + off), n)
  {
    match q
    case PtrMapValueOk(k, o) => PointedValue(e, p, m.live, k, o, v, off, n);
    case PtrMemOk(ref, sz, o) => PointedRecord(e, p, m, ref, o, v, off, n);
  }

  lemma PointsReadable(e: Env, p: Prog, live: map<nat, Rec>, q: Reg, at: int, a: u64, n: nat)
    requires PointsInto(e, p, live, q, at, a, n)
    ensures CanRead(e, p, live, a, n)
  {
  }

  lemma PointedReadable(e: Env, p: Prog, m: Machine, pc: nat, q: Reg, v: u64, off: int, n: nat)
    requires ValidEnv(e) && RecordsOk(e, m) && Means(e, m.live, q, v) && RegWf(e.b, p, pc, q)
    requires CheckMem(e.b, q, Off(q) + off, n)
    ensures CanRead(e, p, m.live, Wrap64(v + off), n)
  {
    Pointed(e, p, m, pc, q, v, off, n);
    PointsReadable(e, p, m.live, q, Off(q) + off, Wrap64(v + off), n);
  }
}
