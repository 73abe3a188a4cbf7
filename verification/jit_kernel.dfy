/** A kernel that meets what the translation theorem asks of helpers, and whose reservations succeed. */
module JitKernel {
  import opened Words
  import opened Memory
  import opened BpfInsn
  import opened BpfVerifier
  import opened BpfMachine
  import opened BpfWellFormed
  import opened BpfSafety
  import opened BpfExamples
  import opened X86Machine
  import opened JitMemory
  import opened JitEntry
  import opened JitMeaning
  import opened JitTheorem

  /**
   * The `n`-th call reserves in the `n`-th stretch of 8192 bytes from `base`, if that is within `room`; others give 0.
   */
  function Granted(base: u64, room: nat, n: nat, call: HelperCall): u64 {
    if call.id == RINGBUF_RESERVE && |call.args| == 3 && call.args[1] <= 4096 && 8192 * (n + 1) <= room
        && base + room < M64
    then base + 8192 * n + 8 else 0
  }

  /** Helpers that reserve so, and leave memory alone. */
  ghost predicate Granting(k: Kernel, base: u64, room: nat) {
    forall log, call, mem {:trigger k.helper(log, call, mem)} ::
      k.helper(log, call, mem) == Effect(Granted(base, room, |log|, call), mem)
  }

  /** The memory granted from: shared, and off the frame. */
  ghost predicate Ground(e: Env, z: Around, base: u64, room: nat) {
    base + room < M64 && OffFrame(e, base, room) && Shared(z, base, room) && Roomy(z) && z.fp == e.fp
  }

  /** Every record held lies in the stretches granted already. */
  ghost predicate Below(m: Machine, base: u64) {
    forall ref :: ref in m.live ==> m.live[ref].addr + m.live[ref].size <= base + 8192 * |m.log|
  }

  lemma FrameVisible(e: Env, z: Around, mem: Mem, x: u64)
    requires z.fp == e.fp && e.fp - STACK_SIZE <= x < e.fp
    ensures Rd(Visible(z, mem), x) == Rd(mem, x)
  {
  }

  /** The arguments a reservation takes are its first three. */
  lemma ReserveTakes(i: Insn, m: Machine)
    requires Low32(i.imm) == RINGBUF_RESERVE
    ensures CallOf(i, m) == HelperCall(RINGBUF_RESERVE, m.regs[1..4])
  {
    assert m.regs[1..6][..3] == m.regs[1..4];
  }

  lemma GrantIsFresh(e: Env, z: Around, base: u64, room: nat, m: Machine, call: HelperCall)
    requires Ground(e, z, base, room) && Below(m, base) && |call.args| == 3 && call.args[1] == m.regs[2]
    requires Granted(base, room, |m.log|, call) != 0
    ensures FreshRecord(e, m.live, Granted(base, room, |m.log|, call), m.regs[2])
    ensures Shared(z, Granted(base, room, |m.log|, call), m.regs[2])
  {
    var n := |m.log|;
    assert base + 8192 * n + 8 + m.regs[2] <= base + room;
  }

  lemma OnlyReserveGives(base: u64, room: nat, n: nat, call: HelperCall)
    requires Granted(base, room, n, call) != 0
    ensures call.id == RINGBUF_RESERVE
  {
  }

  /** Wherever records are below what was granted, the helper called keeps its word. */
  lemma GrantKeeps(e: Env, p: Prog, z: Around, k: Kernel, base: u64, room: nat, m: Machine)
    requires m.pc < |p.insns| && Granting(k, base, room) && Ground(e, z, base, room) && Below(m, base)
    ensures HelperKeeps(e, p, z, k, m)
  {
    var i := p.insns[m.pc];
    var call := CallOf(i, m);
    var h := HelperOn(z, k, p, m);
    assert h == Effect(Granted(base, room, |m.log|, call), Visible(z, m.mem));
    forall x: u64 | e.fp - STACK_SIZE <= x < e.fp ensures Rd(h.mem, x) == Rd(m.mem, x) { FrameVisible(e, z, m.mem, x); }
    if h.ret != 0 {
      OnlyReserveGives(base, room, |m.log|, call);
      ReserveTakes(i, m);
      GrantIsFresh(e, z, base, room, m, call);
    }
    if CallSafe(e, p, i, m) { KeepsByProto(e, p, Low32(i.imm), m, h); }
  }

  lemma KeepsByProto(e: Env, p: Prog, id: int, m: Machine, h: HelperEffect)
    requires HelperOf(id).Some? && |HelperOf(id).value.args| <= 5
    requires forall x: u64 :: e.fp - STACK_SIZE <= x < e.fp ==> Rd(h.mem, x) == Rd(m.mem, x)
    requires h.ret != 0 ==> id == RINGBUF_RESERVE && FreshRecord(e, m.live, h.ret, m.regs[2])
    ensures KeepsProto(e, p, HelperOf(id).value, m, h)
  {
    ProtosWf(id);
    if id == RINGBUF_RESERVE { assert HelperOf(id).value.ret == RetMemOrNull; }
  }

  lemma CallStays(i: Insn, m: Machine, m': Machine, base: u64, room: nat, mem: Mem)
    requires Below(m, base)
    requires StepCall(i, m, Effect(Granted(base, room, |m.log|, CallOf(i, m)), mem)) == Next(m')
    ensures Below(m', base)
  {
    if Low32(i.imm) == RINGBUF_RESERVE { ReserveTakes(i, m); }
    assert |m'.log| == |m.log| + 1;
  }

  lemma OthersStay(e: Env, p: Prog, z: Around, k: Kernel, m: Machine, m': Machine)
    requires m.pc < |p.insns| && Turn(z, k, e.b, p, m) == Next(m')
    requires !(ClassOf(p.insns[m.pc].code) in {JMP, JMP32} && JmpOpOf(p.insns[m.pc].code) == CALL)
    ensures m'.live == m.live && m'.log == m.log
  {
  }

  lemma TurnStays(e: Env, p: Prog, z: Around, k: Kernel, base: u64, room: nat, m: Machine, m': Machine)
    requires m.pc < |p.insns| && Granting(k, base, room) && Below(m, base) && Turn(z, k, e.b, p, m) == Next(m')
    ensures Below(m', base)
  {
    var i := p.insns[m.pc];
    if ClassOf(i.code) in {JMP, JMP32} && JmpOpOf(i.code) == CALL {
      CallTurn(e, p, z, k, m);
      CallStays(i, m, m', base, room, Visible(z, m.mem));
    } else {
      OthersStay(e, p, z, k, m, m');
    }
  }

  lemma CallTurn(e: Env, p: Prog, z: Around, k: Kernel, m: Machine)
    requires m.pc < |p.insns| && ClassOf(p.insns[m.pc].code) in {JMP, JMP32} && JmpOpOf(p.insns[m.pc].code) == CALL
    requires Turn(z, k, e.b, p, m).Next?
    ensures Turn(z, k, e.b, p, m) == StepCall(p.insns[m.pc], m, HelperOn(z, k, p, m))
  {
  }

  lemma {:induction false} GrantsAlong(turn: Machine -> Outcome, keeps: Machine -> bool, e: Env, p: Prog, z: Around,
                                       k: Kernel,
                                       base: u64, room: nat, m: Machine)
    requires Interprets(turn, z, k, e.b, p) && SaysKeeps(keeps, e, p, z, k)
    requires Granting(k, base, room) && Ground(e, z, base, room) && Below(m, base)
    ensures Along(turn, keeps, |p.insns|, m)
    decreases |p.insns| - m.pc
  {
    if m.pc < |p.insns| {
      GrantKeeps(e, p, z, k, base, room, m);
      assert turn(m) == Turn(z, k, e.b, p, m);
      if turn(m).Next? && m.pc < turn(m).m.pc {
        TurnStays(e, p, z, k, base, room, m, turn(m).m);
        GrantsAlong(turn, keeps, e, p, z, k, base, room, turn(m).m);
      }
    }
  }

  /** Such a kernel keeps its word along every run of every program, from a machine that holds no record. */
  lemma GrantingKeeps(e: Env, p: Prog, z: Around, k: Kernel, base: u64, room: nat, m: Machine)
    requires Granting(k, base, room) && Ground(e, z, base, room) && m.live == map[]
    ensures KernelKeeps(e, p, z, k, m)
  {
    GrantsAlong(Interpreter(z, k, e.b, p), Keeping(e, p, z, k), e, p, z, k, base, room, m);
  }

  // ---- and a run that gets a record -----------------------------------------

  /** The machine `n` turns on. */
  ghost function After(turn: Machine -> Outcome, n: nat, m: Machine): Option<Machine> {
    if n == 0 then Some(m) else match turn(m) case Next(m') => After(turn, n - 1, m') case _ => None
  }

  /** The machine at the call: the ring in r1, the size in r2. */
  function AtReserve(b: Bounds, m: Machine): Machine
    requires HasRing(b)
  {
    m.(pc := 4, regs := m.regs[1 := b.defs[0].addr][2 := 8][3 := 0])
  }

  lemma LoadsRing(b: Bounds, m: Machine, h: HelperEffect)
    requires HasRing(b) && m.pc == 0
    ensures Step(b, Reserver(), m, h) == Next(m.(pc := 2, regs := m.regs[1 := b.defs[0].addr]))
  {
  }

  lemma MovesSize(b: Bounds, m: Machine, h: HelperEffect)
    requires m.pc == 2
    ensures Step(b, Reserver(), m, h) == Next(m.(pc := 3, regs := m.regs[2 := 8]))
  {
  }

  lemma MovesFlags(b: Bounds, m: Machine, h: HelperEffect)
    requires m.pc == 3
    ensures Step(b, Reserver(), m, h) == Next(m.(pc := 4, regs := m.regs[3 := 0]))
  {
  }

  lemma Reserves(b: Bounds, m: Machine, h: HelperEffect)
    requires m.pc == 4 && h.ret != 0
    ensures Step(b, Reserver(), m, h).Next? && Step(b, Reserver(), m, h).m.live == m.live[5 := Rec(h.ret, m.regs[2])]
  {
  }

  lemma ThreeTurns(turn: Machine -> Outcome, m: Machine, m1: Machine, m2: Machine, m3: Machine, m4: Machine)
    requires turn(m) == Next(m1) && turn(m1) == Next(m2) && turn(m2) == Next(m3) && turn(m3) == Next(m4)
    ensures After(turn, 4, m) == Some(m4)
  {
    assert After(turn, 1, m3) == After(turn, 0, m4);
    assert After(turn, 2, m2) == After(turn, 1, m3);
    assert After(turn, 3, m1) == After(turn, 2, m2);
  }

  lemma ReachesReserve(turn: Machine -> Outcome, e: Env, z: Around, k: Kernel, m: Machine) returns (m4: Machine)
    requires HasRing(e.b) && m.pc == 0
    requires Interprets(turn, z, k, e.b, Reserver())
    requires HelperOn(z, k, Reserver(), AtReserve(e.b, m)).ret != 0
    ensures After(turn, 4, m) == Some(m4)
    ensures m4.live == m.live[5 := Rec(HelperOn(z, k, Reserver(), AtReserve(e.b, m)).ret, 8)]
  {
    var p := Reserver();
    LoadsRing(e.b, m, HelperOn(z, k, p, m));
    var m1 := m.(pc := 2, regs := m.regs[1 := e.b.defs[0].addr]);
    MovesSize(e.b, m1, HelperOn(z, k, p, m1));
    var m2 := m1.(pc := 3, regs := m1.regs[2 := 8]);
    MovesFlags(e.b, m2, HelperOn(z, k, p, m2));
    var m3 := AtReserve(e.b, m);
    Reserves(e.b, m3, HelperOn(z, k, p, m3));
    m4 := Step(e.b, p, m3, HelperOn(z, k, p, m3)).m;
    assert turn(m) == Turn(z, k, e.b, p, m) && turn(m1) == Turn(z, k, e.b, p, m1);
    assert turn(m2) == Turn(z, k, e.b, p, m2) && turn(m3) == Turn(z, k, e.b, p, m3);
    ThreeTurns(turn, m, m1, m2, m3, m4);
  }

  /**
   * What the translation theorem asks of a kernel does not rule out reservations: here is a verified program and a
   * kernel that keeps its word all along its run, and four turns into the run a record is held.
   */
  lemma ReservationSucceeds(e: Env, z: Around, k: Kernel, base: u64, room: nat, mem: Mem) returns (m4: Machine)
    requires HasRing(e.b) && Granting(k, base, room) && Ground(e, z, base, room) && room >= 8192
    ensures Certified(e.b, Reserver(), RingSteps())
    ensures KernelKeeps(e, Reserver(), z, k, Entered(e, mem))
    ensures After(Interpreter(z, k, e.b, Reserver()), 4, Entered(e, mem)) == Some(m4)
    ensures m4.live == map[5 := Rec(base + 8, 8)]
  {
    RingCertified(e.b);
    GrantingKeeps(e, Reserver(), z, k, base, room, Entered(e, mem));
    HelperGrants(e, z, k, base, room, Entered(e, mem));
    m4 := ReachesReserve(Interpreter(z, k, e.b, Reserver()), e, z, k, Entered(e, mem));
  }

  lemma HelperGrants(e: Env, z: Around, k: Kernel, base: u64, room: nat, m: Machine)
    requires HasRing(e.b) && Granting(k, base, room) && base + room < M64 && room >= 8192 && m.log == []
    ensures HelperOn(z, k, Reserver(), AtReserve(e.b, m)).ret == base + 8
  {
    var m3 := AtReserve(e.b, m);
    ReserveTakes(Reserver().insns[4], m3);
    assert m3.regs[1..4][1] == 8;
  }

  // ---- all of it at once ----------------------------------------------------

  const SomeEnv: Env := Env(0x10000, 0x20000, Bounds([MapDef(MAP_RINGBUF, 0, 0, 4096, 1, {})], 32))

  const SomeStack: Around := Around(0x8000, 0x10000)

  function SomeKernel(): Kernel {
    Kernel(1, (log: seq<HelperCall>, call: HelperCall, mem: Mem) => Effect(Granted(0x40000, 8192, |log|, call), mem),
           (log: seq<HelperCall>, r: int) => 0, (log: seq<HelperCall>) => map[])
  }

  /** Nothing the theorem requires of environment and kernel contradicts anything else. */
  lemma KernelExists(mem: Mem) returns (m4: Machine)
    ensures ValidEnv(SomeEnv) && EnvShared(SomeEnv, Reserver(), SomeStack)
    ensures Certified(SomeEnv.b, Reserver(), RingSteps())
    ensures KernelKeeps(SomeEnv, Reserver(), SomeStack, SomeKernel(), Entered(SomeEnv, mem))
    ensures After(Interpreter(SomeStack, SomeKernel(), SomeEnv.b, Reserver()), 4, Entered(SomeEnv, mem)) == Some(m4)
    ensures m4.live != map[]
  {
    GroundIs();
    assert Granting(SomeKernel(), 0x40000, 8192);
    m4 := ReservationSucceeds(SomeEnv, SomeStack, SomeKernel(), 0x40000, 8192, mem);
    assert 5 in m4.live;
  }

  lemma GroundIs()
    ensures Ground(SomeEnv, SomeStack, 0x40000, 8192) && HasRing(SomeEnv.b)
    ensures ValidEnv(SomeEnv) && EnvShared(SomeEnv, Reserver(), SomeStack)
  {
  }
}
