/** Soundness of helper calls: arguments that pass the prototype are safe, and results are what the state then says. */
module BpfCallSound {
  import opened Words
  import opened Memory
  import opened BpfInsn
  import opened BpfVerifier
  import opened BpfMachine
  import opened BpfWellFormed
  import opened BpfSoundness
  import opened BpfInsnSound

  // ---- the argument loop ----------------------------------------------------

  /** Two stretches of memory with no byte in common. */
  predicate Apart(a: int, n: int, b: int, k: int) { n == 0 || a + n <= b || b + k <= a }

  /** The bytes of slot `s` are none of those argument `a` hands over to be filled. */
  predicate SlotApart(e: Env, m: Machine, a: nat, s: nat)
    requires STACK_SIZE < e.fp && s < SLOTS && a < 5
  {
    Apart(m.regs[1 + a], m.regs[2 + a], SlotAddr(e, s), 8)
  }

  /** What the first `a` turns of the loop have established about the machine. */
  ghost predicate ScanMeans(e: Env, p: Prog, m: Machine, proto: Proto, a: nat, s: Scan)
    requires STACK_SIZE < e.fp && a <= |proto.args| <= 5
  {
    && (s.argMap.Some? ==> IsMap(e, p, m.regs[1 + MapIndex(proto)], s.argMap.value))
    && (s.release.Some? ==> HoldsRecord(s.st, s.release.value))
    && (a > 0 && proto.args[0] == ArgRingMem ==> s.release.Some?)
    && (a > 0 && proto.args[0] == ArgConstMap ==> s.argMap.Some?)
    && (forall c, t :: 0 <= c < a && 0 <= t < SLOTS && proto.args[c] == ArgUninitMem && s.st.slots[t].Spill? ==>
        SlotApart(e, m, c, t))
  }

  /** r1 is the record whose reservation is the k-th held. */
  predicate HoldsRecord(st: VState, k: nat) {
    k < |st.refs| && st.regs[1].PtrMemOk? && st.regs[1].off == 0 && st.regs[1].ref == st.refs[k]
  }

  lemma OutputOffFrame(e: Env, p: Prog, m: Machine, pc: nat, q: Reg, v: u64, n: nat, t: nat)
    requires ValidEnv(e) && RecordsOk(e, m) && Means(e, m.live, q, v) && RegWf(e.b, p, pc, q)
    requires CheckMem(e.b, q, Off(q), n) && !q.PtrStack? && t < SLOTS
    ensures Apart(v, n, SlotAddr(e, t), 8)
  {
    Pointed(e, p, m, pc, q, v, 0, n);
    assert OffFrame(e, v, n);
  }

  lemma OutputOnFrame(e: Env, o: int, v: u64, n: nat, t: nat)
    requires ValidEnv(e) && v == Wrap64(e.fp + o) && -STACK_SIZE <= o && o + n <= 0 && t < SLOTS
    requires !Touches(o + STACK_SIZE, n, t)
    ensures Apart(v, n, SlotAddr(e, t), 8)
  {
    PointedStack(e, o, v, 0, n);
  }

  /** An output buffer that passed: a slot it may reach has become plain data. */
  lemma OutputForgets(e: Env, p: Prog, m: Machine, pc: nat, proto: Proto, a: nat, s: Scan, t: nat)
    requires ValidEnv(e) && RecordsOk(e, m) && RegsMean(e, m.live, s.st.regs, m.regs) && StateWf(e.b, p, pc, s.st)
    requires a < |proto.args| <= 5 && proto.args[a] == ArgUninitMem && CheckArg(e.b, proto, a, s).Some? && t < SLOTS
    requires CheckArg(e.b, proto, a, s).value.st.slots[t].Spill?
    ensures SlotApart(e, m, a, t)
  {
    var q, n := s.st.regs[1 + a], s.st.regs[2 + a].val;
    assert Means(e, m.live, q, m.regs[1 + a]) && RegWf(e.b, p, pc, q);
    assert Means(e, m.live, s.st.regs[2 + a], m.regs[2 + a]);
    if n != 0 {
      if q.PtrStack? {
        OutputOnFrame(e, q.off, m.regs[1 + a], n, t);
      } else {
        OutputOffFrame(e, p, m, pc, q, m.regs[1 + a], n, t);
      }
    }
  }

  lemma MemArgSafe(e: Env, p: Prog, m: Machine, pc: nat, q: Reg, v: u64, n: nat)
    requires ValidEnv(e) && RecordsOk(e, m) && Means(e, m.live, q, v) && RegWf(e.b, p, pc, q)
    requires CheckMem(e.b, q, Off(q), n)
    ensures CanRead(e, p, m.live, v, n)
  {
    WrapSmall(v);
    PointedReadable(e, p, m, pc, q, v, 0, n);
  }

  lemma ElementArgSafe(e: Env, p: Prog, m: Machine, pc: nat, q: Reg, mapArg: u64, k: nat, v: u64, value: bool)
    requires ValidEnv(e) && RecordsOk(e, m) && Means(e, m.live, q, v) && RegWf(e.b, p, pc, q) && IsMap(e, p, mapArg, k)
    requires CheckMem(e.b, q, Off(q), if value then e.b.defs[k].valueSize else e.b.defs[k].keySize)
    ensures ElementMemory(e, p, m.live, mapArg, v, value)
  {
    MemArgSafe(e, p, m, pc, q, v, if value then e.b.defs[k].valueSize else e.b.defs[k].keySize);
  }

  lemma RingArgSafe(e: Env, m: Machine, q: Reg, v: u64)
    requires RecordsOk(e, m) && Means(e, m.live, q, v) && q.PtrMemOk? && q.off == 0
    ensures HeldRecord(m.live, v)
  {
    assert RecordOk(e, m.live[q.ref]);
    WrapSmall(m.live[q.ref].addr);
    assert m.live[q.ref].addr == v;
  }

  /** An argument that passes is safe on the machine. */
  lemma ArgSound(e: Env, p: Prog, m: Machine, pc: nat, proto: Proto, a: nat, s: Scan)
    requires ValidEnv(e) && RecordsOk(e, m) && RegsMean(e, m.live, s.st.regs, m.regs) && StateWf(e.b, p, pc, s.st)
    requires a < |proto.args| && ProtoWf(proto) && ScanMeans(e, p, m, proto, a, s) && CheckArg(e.b, proto, a, s).Some?
    ensures ArgSafe(e, p, m, proto, a)
  {
    var q, v := s.st.regs[1 + a], m.regs[1 + a];
    assert Means(e, m.live, q, v) && RegWf(e.b, p, pc, q);
    match proto.args[a]
    case ArgConstMap => assert IsMap(e, p, v, q.m);
    case ArgMapKey => ElementArgSafe(e, p, m, pc, q, m.regs[1 + MapIndex(proto)], s.argMap.value, v, false);
    case ArgMapValue => ElementArgSafe(e, p, m, pc, q, m.regs[1 + MapIndex(proto)], s.argMap.value, v, true);
    case ArgMem => SizedArgSafe(e, p, m, pc, proto, a, s.st);
    case ArgUninitMem => SizedArgSafe(e, p, m, pc, proto, a, s.st);
    case ArgCtx => WrapSmall(e.ctx);
    case ArgRingMem => RingArgSafe(e, m, q, v);
    case _ =>
  }

  lemma SizedArgSafe(e: Env, p: Prog, m: Machine, pc: nat, proto: Proto, a: nat, st: VState)
    requires ValidEnv(e) && RecordsOk(e, m) && RegsMean(e, m.live, st.regs, m.regs) && StateWf(e.b, p, pc, st)
    requires a < |proto.args| <= 5 && MemArgOk(e.b, proto, a, st)
    ensures m.regs[2 + a] == 0 || CanRead(e, p, m.live, m.regs[1 + a], m.regs[2 + a])
  {
    assert Means(e, m.live, st.regs[1 + a], m.regs[1 + a]) && RegWf(e.b, p, pc, st.regs[1 + a]);
    assert Means(e, m.live, st.regs[2 + a], m.regs[2 + a]);
    if m.regs[2 + a] != 0 { MemArgSafe(e, p, m, pc, st.regs[1 + a], m.regs[1 + a], m.regs[2 + a]); }
  }

  /** One more turn keeps what the loop establishes. */
  lemma ScanSound(e: Env, p: Prog, m: Machine, pc: nat, proto: Proto, a: nat, s: Scan)
    requires ValidEnv(e) && RecordsOk(e, m) && RegsMean(e, m.live, s.st.regs, m.regs) && StateWf(e.b, p, pc, s.st)
    requires a < |proto.args| && ProtoWf(proto) && ScanMeans(e, p, m, proto, a, s) && CheckArg(e.b, proto, a, s).Some?
    requires SlotsForgotten(s.st, CheckArg(e.b, proto, a, s).value.st)
    ensures ScanMeans(e, p, m, proto, a + 1, CheckArg(e.b, proto, a, s).value)
  {
    var s' := CheckArg(e.b, proto, a, s).value;
    assert Means(e, m.live, s.st.regs[1 + a], m.regs[1 + a]) && RegWf(e.b, p, pc, s.st.regs[1 + a]);
    forall c, t | 0 <= c < a + 1 && 0 <= t < SLOTS && proto.args[c] == ArgUninitMem && s'.st.slots[t].Spill?
      ensures SlotApart(e, m, c, t)
    {
      assert s.st.slots[t] == s'.st.slots[t];
      if c == a { OutputForgets(e, p, m, pc, proto, a, s, t); }
    }
  }

  lemma {:induction false} ArgsSound(e: Env, p: Prog, m: Machine, pc: nat, proto: Proto, a: nat, s: Scan)
    requires ValidEnv(e) && RecordsOk(e, m) && RegsMean(e, m.live, s.st.regs, m.regs) && StateWf(e.b, p, pc, s.st)
    requires ScanWf(e.b, p, s)
    requires a <= |proto.args| && ProtoWf(proto) && ScanMeans(e, p, m, proto, a, s) && CheckArgs(e.b, proto, a, s).Some?
    ensures forall c :: a <= c < |proto.args| ==> ArgSafe(e, p, m, proto, c)
    ensures ScanMeans(e, p, m, proto, |proto.args|, CheckArgs(e.b, proto, a, s).value)
    decreases |proto.args| - a
  {
    if a < |proto.args| {
      ArgSound(e, p, m, pc, proto, a, s);
      CheckArgWf(e.b, p, pc, proto, a, s);
      ScanSound(e, p, m, pc, proto, a, s);
      ArgsSound(e, p, m, pc, proto, a + 1, CheckArg(e.b, proto, a, s).value);
    }
  }

  // ---- what the call leaves -------------------------------------------------

  /** The helper's memory still holds what the state, minus the output buffers, says. */
  lemma OutputSound(e: Env, p: Prog, st: VState, m: Machine, proto: Proto, s: Scan, mem: Mem)
    requires |proto.args| <= 5 && Gamma(e, st, m) && SlotsForgotten(st, s.st)
    requires ScanMeans(e, p, m, proto, |proto.args|, s) && KeepsFrame(e, proto, m, mem)
    ensures Gamma(e, s.st, WithMem(m, mem))
  {
    forall t | 0 <= t < SLOTS
      ensures SlotMeans(e, m.live, s.st.slots[t], SlotValue(e, mem, t))
    {
      if s.st.slots[t].Spill? {
        SlotUnwritten(e, p, m, proto, s, mem, t);
        assert SlotMeans(e, m.live, st.slots[t], SlotValue(e, m.mem, t));
      }
    }
    assert RecordsOk(e, WithMem(m, mem));
  }

  lemma SlotUnwritten(e: Env, p: Prog, m: Machine, proto: Proto, s: Scan, mem: Mem, t: nat)
    requires |proto.args| <= 5 && STACK_SIZE < e.fp && t < SLOTS && s.st.slots[t].Spill?
    requires ScanMeans(e, p, m, proto, |proto.args|, s) && KeepsFrame(e, proto, m, mem)
    ensures SlotValue(e, mem, t) == SlotValue(e, m.mem, t)
  {
    forall x: u64 | SlotAddr(e, t) <= x < SlotAddr(e, t) + 8
      ensures Rd(m.mem, x) == Rd(mem, x)
    {
      if InOutput(proto, m, x) {
        var c :| 0 <= c < |proto.args| && proto.args[c] == ArgUninitMem && Between(x, m.regs[1 + c], m.regs[2 + c]);
        assert SlotApart(e, m, c, t);
      }
    }
    SlotKept(e, m.mem, mem, t);
  }

  lemma AfterCallSound(e: Env, st: VState, m: Machine, pc: nat, r0: Reg, v: u64)
    requires Gamma(e, st, m) && Means(e, m.live, r0, v)
    ensures Gamma(e, AfterCall(st, r0), WithReg(m, pc, 0, v))
  {
    var st', m' := AfterCall(st, r0), WithReg(m, pc, 0, v);
    forall r | 0 <= r < REG_CNT
      ensures Means(e, m'.live, st'.regs[r], m'.regs[r])
    {
      if r >= 6 { assert st'.regs[r] == st.regs[r] && Means(e, m.live, st.regs[r], m.regs[r]); }
    }
    assert SlotsMean(e, m'.live, st'.slots, m'.mem);
    assert RecordsOk(e, m');
  }

  /** Giving back the record in r1. */
  function Committed(m: Machine): Machine { m.(live := Without(m.live, m.regs[1]), committed := m.committed + 1) }

  lemma WithoutOne(e: Env, m: Machine, ref: nat)
    requires RecordsOk(e, m) && ref in m.live && m.live[ref].addr == m.regs[1]
    ensures Without(m.live, m.regs[1]) == m.live - {ref}
    ensures |m.live - {ref}| == |m.live| - 1
    ensures RecordsOk(e, Committed(m))
  {
    var live' := Without(m.live, m.regs[1]);
    assert live' == m.live - {ref};
    assert live'.Keys == m.live.Keys - {ref};
  }

  lemma ForgetMeans(e: Env, live: map<nat, Rec>, gone: nat, r: Reg, v: u64)
    requires Means(e, live, r, v)
    ensures Means(e, live - {gone}, ForgetReg(r, gone), v)
    ensures !NamesRef(r, gone) ==> Means(e, live - {gone}, r, v)
  {
  }

  lemma ReleaseSound(e: Env, st: VState, m: Machine, pc: nat, k: nat)
    requires Gamma(e, st, m) && RefsWf(pc, st.refs) && HoldsRecord(st, k)
    ensures Gamma(e, Release(st, k), Committed(m))
  {
    var gone := st.refs[k];
    assert Means(e, m.live, st.regs[1], m.regs[1]);
    assert RecordOk(e, m.live[gone]);
    WithoutOne(e, m, gone);
    var st', live' := Release(st, k), m.live - {gone};
    forall r | 0 <= r < REG_CNT
      ensures Means(e, live', st'.regs[r], m.regs[r])
    {
      ForgetMeans(e, m.live, gone, st.regs[r], m.regs[r]);
    }
    forall t | 0 <= t < SLOTS
      ensures SlotMeans(e, live', st'.slots[t], SlotValue(e, m.mem, t))
    {
      assert SlotMeans(e, m.live, st.slots[t], SlotValue(e, m.mem, t));
      if st.slots[t].Spill? { ForgetMeans(e, m.live, gone, st.slots[t].reg, SlotValue(e, m.mem, t)); }
    }
    DropRefWf(pc, st.refs, k);
  }

  /** A new record under a name no state has used. */
  function Reserved(m: Machine, name: nat, v: u64, size: nat): Machine {
    m.(live := m.live[name := Rec(v, size)], reserved := m.reserved + 1)
  }

  lemma FreshMeans(e: Env, b: Bounds, p: Prog, pc: nat, live: map<nat, Rec>, rec: Rec, r: Reg, v: u64)
    requires Means(e, live, r, v) && RegWf(b, p, pc, r)
    ensures Means(e, live[pc + 1 := rec], r, v)
  {
  }

  lemma FreshRecordOk(e: Env, m: Machine, name: nat, v: u64, size: nat)
    requires RecordsOk(e, m) && name !in m.live && FreshRecord(e, m.live, v, size) && size > 0
    ensures RecordsOk(e, Reserved(m, name, v, size))
  {
    var m' := Reserved(m, name, v, size);
    assert m'.live.Keys == m.live.Keys + {name};
    forall ref | ref in m.live
      ensures m.live[ref].addr != v
    {
      assert RecordOk(e, m.live[ref]);
    }
  }

  lemma ReserveSound(e: Env, p: Prog, pc: nat, st: VState, m: Machine, v: u64, size: nat)
    requires Gamma(e, st, m) && StateWf(e.b, p, pc, st) && FreshRecord(e, m.live, v, size) && size > 0
    ensures Gamma(e, st.(refs := st.refs + [pc + 1]), Reserved(m, pc + 1, v, size))
  {
    var rec, live' := Rec(v, size), m.live[pc + 1 := Rec(v, size)];
    assert pc + 1 !in m.live;
    forall r | 0 <= r < REG_CNT
      ensures Means(e, live', st.regs[r], m.regs[r])
    {
      assert RegWf(e.b, p, pc, st.regs[r]);
      FreshMeans(e, e.b, p, pc, m.live, rec, st.regs[r], m.regs[r]);
    }
    forall t | 0 <= t < SLOTS
      ensures SlotMeans(e, live', st.slots[t], SlotValue(e, m.mem, t))
    {
      assert SlotMeans(e, m.live, st.slots[t], SlotValue(e, m.mem, t)) && SlotWf(e.b, p, pc, st.slots[t]);
      if st.slots[t].Spill? { FreshMeans(e, e.b, p, pc, m.live, rec, st.slots[t].reg, SlotValue(e, m.mem, t)); }
    }
    FreshRecordOk(e, m, pc + 1, v, size);
  }

  // ---- the whole call -------------------------------------------------------

  /** The machine with the helper's memory in place and the call logged. */
  function Called(log: seq<HelperCall>, m: Machine, h: HelperEffect): Machine { m.(mem := h.mem, log := log) }

  /** The machine once the helper has returned and before reservations are accounted for. */
  function Returned(log: seq<HelperCall>, m: Machine, h: HelperEffect): Machine {
    WithReg(Called(log, m, h), m.pc + 1, 0, h.ret)
  }

  /** A prototype that gives a record back. */
  lemma CommitSound(e: Env, p: Prog, log: seq<HelperCall>, proto: Proto, st: VState, m: Machine, s: Scan,
                    h: HelperEffect)
    requires ProtoWf(proto) && ArgRingMem in proto.args && Gamma(e, s.st, Called(log, m, h))
    requires StateWf(e.b, p, m.pc, s.st)
    requires STACK_SIZE < e.fp && ScanMeans(e, p, m, proto, |proto.args|, s)
    requires FinishCall(e.b, m.pc, proto.ret, s).Some?
    ensures Gamma(e, FinishCall(e.b, m.pc, proto.ret, s).value,
                  WithReg(Committed(Called(log, m, h)), m.pc + 1, 0, h.ret))
  {
    var a :| 0 <= a < |proto.args| && proto.args[a] == ArgRingMem;
    var m1 := Called(log, m, h);
    ReleaseSound(e, s.st, m1, m.pc, s.release.value);
    AfterCallSound(e, Release(s.st, s.release.value), Committed(m1), m.pc + 1, Unknown, h.ret);
  }

  lemma NothingReleased(b: Bounds, proto: Proto, a: nat, s: Scan)
    requires a <= |proto.args| <= 5 && ArgRingMem !in proto.args && s.release.None? && CheckArgs(b, proto, a, s).Some?
    ensures CheckArgs(b, proto, a, s).value.release.None?
    decreases |proto.args| - a
  {
    if a < |proto.args| { NothingReleased(b, proto, a + 1, CheckArg(b, proto, a, s).value); }
  }

  /** A prototype that returns a number or a map value. */
  lemma PlainCallSound(e: Env, p: Prog, log: seq<HelperCall>, proto: Proto, m: Machine, s: Scan, h: HelperEffect)
    requires ValidEnv(e) && ProtoWf(proto) && s.release.None? && proto.ret != RetMemOrNull
    requires Gamma(e, s.st, Called(log, m, h)) && KeepsProto(e, p, proto, m, h)
    requires ScanMeans(e, p, m, proto, |proto.args|, s) && FinishCall(e.b, m.pc, proto.ret, s).Some?
    ensures Gamma(e, FinishCall(e.b, m.pc, proto.ret, s).value, Returned(log, m, h))
  {
    if proto.ret == RetScalar {
      AfterCallSound(e, s.st, Called(log, m, h), m.pc + 1, Unknown, h.ret);
    } else {
      ElementFound(e, p, m.regs[1], s.argMap.value, h.ret);
      AfterCallSound(e, s.st, Called(log, m, h), m.pc + 1, PtrMapValue(s.argMap.value), h.ret);
    }
  }

  /** Maps are told apart by address, so a value of the map at `mapArg` is one of map `k`. */
  lemma ElementFound(e: Env, p: Prog, mapArg: u64, k: nat, v: u64)
    requires ValidEnv(e) && IsMap(e, p, mapArg, k)
    ensures v == 0 || ElementOf(e, p, mapArg, v) ==> v == 0 || v in Def(e.b, k).elems
  {
    if ElementOf(e, p, mapArg, v) {
      var l: nat :| IsMap(e, p, mapArg, l) && v in e.b.defs[l].elems;
      assert k == l;
    }
  }

  lemma ReserveShape(b: Bounds, pc: nat, s: Scan)
    requires s.release.None? && pc < MAX_INSNS && ReserveOk(b, s)
    ensures FinishCall(b, pc, RetMemOrNull, s).Some?
    ensures FinishCall(b, pc, RetMemOrNull, s).value == AfterCall(s.st.(refs := s.st.refs + [pc + 1]),
                                                                  PtrMem(pc + 1, s.st.regs[2].val))
  {
  }

  /** A reservation that found no room. */
  lemma ReserveFailed(e: Env, p: Prog, st: VState, m: Machine, pc: nat, size: nat)
    requires Gamma(e, st, m) && StateWf(e.b, p, pc, st)
    ensures Gamma(e, AfterCall(st.(refs := st.refs + [pc + 1]), PtrMem(pc + 1, size)), WithReg(m, pc + 1, 0, 0))
  {
    var st1 := st.(refs := st.refs + [pc + 1]);
    assert pc + 1 !in m.live;
    assert Gamma(e, st1, m);
    AfterCallSound(e, st1, m, pc + 1, PtrMem(pc + 1, size), 0);
  }

  lemma ReserveDone(e: Env, p: Prog, st: VState, m: Machine, pc: nat, v: u64, size: nat)
    requires Gamma(e, st, m) && StateWf(e.b, p, pc, st) && FreshRecord(e, m.live, v, size) && size > 0
    ensures Gamma(e, AfterCall(st.(refs := st.refs + [pc + 1]), PtrMem(pc + 1, size)),
                  WithReg(Reserved(m, pc + 1, v, size), pc + 1, 0, v))
  {
    ReserveSound(e, p, pc, st, m, v, size);
    AfterCallSound(e, st.(refs := st.refs + [pc + 1]), Reserved(m, pc + 1, v, size), pc + 1, PtrMem(pc + 1, size), v);
  }

  /** The machine after a reservation, whether it succeeded or not. */
  function AfterReserve(m: Machine, pc: nat, v: u64, size: nat): Machine {
    WithReg(if v == 0 then m else Reserved(m, pc + 1, v, size), pc + 1, 0, v)
  }

  lemma ReserveEither(e: Env, p: Prog, st: VState, m: Machine, pc: nat, v: u64, size: nat)
    requires Gamma(e, st, m) && StateWf(e.b, p, pc, st) && size > 0 && (v == 0 || FreshRecord(e, m.live, v, size))
    ensures Gamma(e, AfterCall(st.(refs := st.refs + [pc + 1]), PtrMem(pc + 1, size)), AfterReserve(m, pc, v, size))
  {
    if v == 0 { ReserveFailed(e, p, st, m, pc, size); } else { ReserveDone(e, p, st, m, pc, v, size); }
  }

  lemma ReserveCallSound(e: Env, p: Prog, log: seq<HelperCall>, m: Machine, s: Scan, h: HelperEffect)
    requires s.release.None? && m.pc < MAX_INSNS && ReserveOk(e.b, s)
    requires Gamma(e, s.st, Called(log, m, h)) && StateWf(e.b, p, m.pc, s.st)
    requires h.ret == 0 || FreshRecord(e, m.live, h.ret, m.regs[2])
    ensures Gamma(e, FinishCall(e.b, m.pc, RetMemOrNull, s).value,
                  AfterReserve(Called(log, m, h), m.pc, h.ret, m.regs[2]))
  {
    var size := s.st.regs[2].val;
    assert size == m.regs[2] by { assert Means(e, m.live, s.st.regs[2], m.regs[2]); }
    ReserveEither(e, p, s.st, Called(log, m, h), m.pc, h.ret, size);
    ReserveShape(e.b, m.pc, s);
  }

  lemma GammaCalled(e: Env, st: VState, log: seq<HelperCall>, m: Machine, h: HelperEffect)
    requires Gamma(e, st, WithMem(m, h.mem))
    ensures Gamma(e, st, Called(log, m, h))
  {
    assert RecordsOk(e, Called(log, m, h));
  }

  /** What the machine makes of a call, by what the prototype does with records. */
  lemma StepCallIs(i: Insn, m: Machine, h: HelperEffect)
    requires HelperOf(Low32(i.imm)).Some? && m.pc < MAX_INSNS
    ensures var proto, log := HelperOf(Low32(i.imm)).value, m.log + [CallOf(i, m)];
            StepCall(i, m, h) ==
              if ArgRingMem in proto.args then Next(WithReg(Committed(Called(log, m, h)), m.pc + 1, 0, h.ret))
              else if proto.ret == RetMemOrNull then Next(AfterReserve(Called(log, m, h), m.pc, h.ret, m.regs[2]))
              else Next(Returned(log, m, h))
  {
    ProtosWf(Low32(i.imm));
  }

  lemma CallSafeSound(e: Env, p: Prog, proto: Proto, st: VState, m: Machine) returns (s: Scan)
    requires ValidEnv(e) && ProtoWf(proto) && Gamma(e, st, m) && StateWf(e.b, p, m.pc, st)
    requires CallProto(e.b, m.pc, proto, st).Some?
    ensures ArgsSafe(e, p, m, proto)
    ensures CheckArgs(e.b, proto, 0, Scan(st, None, None)) == Some(s)
    ensures ScanMeans(e, p, m, proto, |proto.args|, s) && SlotsForgotten(st, s.st) && StateWf(e.b, p, m.pc, s.st)
    ensures ArgRingMem !in proto.args ==> s.release.None?
  {
    var s0 := Scan(st, None, None);
    ArgsSound(e, p, m, m.pc, proto, 0, s0);
    CheckArgsWf(e.b, p, m.pc, proto, 0, s0);
    s := CheckArgs(e.b, proto, 0, s0).value;
    if ArgRingMem !in proto.args { NothingReleased(e.b, proto, 0, s0); }
  }

  /** A call the verifier lets through is safe, and leaves a state it describes. */
  lemma CallSound(e: Env, p: Prog, i: Insn, st: VState, m: Machine, h: HelperEffect)
    requires ValidEnv(e) && m.pc < MAX_INSNS && Gamma(e, st, m) && StateWf(e.b, p, m.pc, st)
    requires VerifyCall(e.b, m.pc, i, st).Some? && HelperOk(e, p, i, m, h)
    ensures CallSafe(e, p, i, m)
    ensures StepCall(i, m, h).Next? && StepCall(i, m, h).m.pc == m.pc + 1
    ensures Gamma(e, VerifyCall(e.b, m.pc, i, st).value, StepCall(i, m, h).m)
  {
    var proto := HelperOf(Low32(i.imm)).value;
    ProtosWf(Low32(i.imm));
    var s := CallSafeSound(e, p, proto, st, m);
    StepCallIs(i, m, h);
    OutputSound(e, p, st, m, proto, s, h.mem);
    var log := m.log + [CallOf(i, m)];
    GammaCalled(e, s.st, log, m, h);
    if ArgRingMem in proto.args {
      CommitSound(e, p, log, proto, st, m, s, h);
    } else if proto.ret == RetMemOrNull {
      ReserveCallSound(e, p, log, m, s, h);
    } else {
      PlainCallSound(e, p, log, proto, m, s, h);
    }
  }
}
