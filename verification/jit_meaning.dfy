/**
 * The emitted code means what the program means: called on a verified program, it returns to its caller with the
 * interpreter's result in rax, having made the same helper calls and left the same shared memory.
 */
module JitMeaning {
  import opened Words
  import opened Memory
  import opened BpfInsn
  import opened BpfVerifier
  import opened BpfMachine
  import opened BpfWellFormed
  import opened BpfSoundness
  import opened BpfStepSound
  import opened BpfSafety
  import opened X86
  import opened X86Machine
  import opened JitTranslate
  import opened JitExec
  import opened JitMemory
  import opened JitSim
  import opened JitSteps
  import opened JitFrames
  import opened JitEntry
  import opened JitInit

  // ---- the interpreter on its own -------------------------------------------

  /** What the helper the instruction at m.pc calls does. */
  ghost function HelperOn(z: Around, k: Kernel, p: Prog, m: Machine): HelperEffect
    requires m.pc < |p.insns|
  {
    k.helper(m.log, CallOf(p.insns[m.pc], m), Visible(z, m.mem))
  }

  ghost function Turn(z: Around, k: Kernel, b: Bounds, p: Prog, m: Machine): Outcome
    requires m.pc < |p.insns|
  {
    Step(b, p, m, HelperOn(z, k, p, m))
  }

  /** The interpreter as a function from machine to machine. */
  ghost function Interpreter(z: Around, k: Kernel, b: Bounds, p: Prog): Machine -> Outcome {
    (m: Machine) => if m.pc < |p.insns| then Turn(z, k, b, p, m) else Fault
  }

  /** The machine the interpreter reaches EXIT with; None if it does not get there going forward. */
  ghost function RunFrom(turn: Machine -> Outcome, len: nat, m: Machine): Option<Machine>
    decreases len - m.pc
  {
    if m.pc >= len then None
    else match turn(m)
         case Fault => None
         case Exit(_) => Some(m)
         case Next(m') => if m.pc < m'.pc then RunFrom(turn, len, m') else None
  }

  ghost predicate Interprets(turn: Machine -> Outcome, z: Around, k: Kernel, b: Bounds, p: Prog) {
    forall m: Machine {:trigger Turn(z, k, b, p, m)} :: m.pc < |p.insns| ==> turn(m) == Turn(z, k, b, p, m)
  }

  // ---- what the kernel promises ---------------------------------------------

  /** Context, map values and ring records are shared memory, not the kernel's stack round the frame. */
  ghost predicate EnvShared(e: Env, p: Prog, z: Around) {
    && z.fp == e.fp && Roomy(z) && Shared(z, e.ctx, e.b.ctxSize)
    && forall k, el: u64 :: k in p.maps && el in Def(e.b, k).elems ==> Shared(z, el, Def(e.b, k).valueSize)
  }

  ghost predicate RecordsShared(z: Around, live: map<nat, Rec>) {
    forall ref :: ref in live ==> Shared(z, live[ref].addr, live[ref].size)
  }

  /** At this machine the helper called keeps its word, and a fresh record is shared memory too. */
  ghost predicate HelperKeeps(e: Env, p: Prog, z: Around, k: Kernel, m: Machine)
    requires m.pc < |p.insns|
  {
    var i, h := p.insns[m.pc], HelperOn(z, k, p, m);
    && HelperOk(e, p, i, m, h)
    && (Low32(i.imm) == RINGBUF_RESERVE && CallSafe(e, p, i, m) && h.ret != 0 ==> Shared(z, h.ret, m.regs[2]))
  }

  ghost function Keeping(e: Env, p: Prog, z: Around, k: Kernel): Machine -> bool {
    (m: Machine) => m.pc < |p.insns| && HelperKeeps(e, p, z, k, m)
  }

  /** `keeps` holds at `m` and at every machine `turn` goes on to from there. */
  ghost predicate Along(turn: Machine -> Outcome, keeps: Machine -> bool, len: nat, m: Machine)
    decreases len - m.pc
  {
    m.pc < len ==>
      && keeps(m)
      && match turn(m)
         case Next(m') => m.pc < m'.pc ==> Along(turn, keeps, len, m')
         case _ => true
  }

  /** Every helper the interpreter calls, run from `m`, keeps its word where it is called. */
  ghost predicate KernelKeeps(e: Env, p: Prog, z: Around, k: Kernel, m: Machine) {
    Along(Interpreter(z, k, e.b, p), Keeping(e, p, z, k), |p.insns|, m)
  }

  ghost predicate SaysKeeps(keeps: Machine -> bool, e: Env, p: Prog, z: Around, k: Kernel) {
    forall m: Machine {:trigger HelperKeeps(e, p, z, k, m)} ::
      m.pc < |p.insns| ==> keeps(m) == HelperKeeps(e, p, z, k, m)
  }

  lemma PartShared(z: Around, a: int, n: nat, b: int, l: nat)
    requires Shared(z, b, l) && b <= a && a + n <= b + l
    ensures Shared(z, a, n)
  {
  }

  /** What a verified program may touch is shared. */
  lemma ReadableShared(e: Env, p: Prog, z: Around, live: map<nat, Rec>, a: int, n: nat)
    requires EnvShared(e, p, z) && RecordsShared(z, live) && CanRead(e, p, live, a, n)
    ensures Shared(z, a, n)
  {
    if InFrame(e, a, n) {
    } else if InCtx(e, a, n) {
      PartShared(z, a, n, e.ctx, e.b.ctxSize);
    } else if InValue(e, p, a, n) {
      var k: nat, el: u64 :| k in p.maps && WithinValue(e, k, el, a, n);
      PartShared(z, a, n, el, Def(e.b, k).valueSize);
    } else {
      var ref :| ref in live && WithinRecord(live[ref], a, n);
      PartShared(z, a, n, live[ref].addr, live[ref].size);
    }
  }

  // ---- pieces of code -------------------------------------------------------

  /** A processor running the translation of `q`. */
  ghost predicate RunsCode(step: Cpu -> Option<Cpu>, ex: Executor, enc: Encoder, z: Around, k: Kernel, q: Req) {
    && Executes(step, ex, enc, Code(enc, q)) && GoesOn(ex) && Faithful(ex, z, k) && FixedJumps(enc)
    && |Code(enc, q)| < 0x8000_0000 && Translates(q) && q.fn == k.entry
  }

  predicate AllSequential(xs: seq<X>) { forall j :: 0 <= j < |xs| ==> Sequential(xs[j]) && Emittable(xs[j]) }

  lemma AluSequential(i: Insn)
    requires i.dst < REG_CNT && i.src < REG_CNT && XlateAlu(i).Some?
    ensures AllSequential(XlateAlu(i).value)
  {
    if |XlateAlu(i).value| == 1 { AluOneSequential(i); } else { LongIsShift(i); }
  }

  lemma AluOneSequential(i: Insn)
    requires i.dst < REG_CNT && i.src < REG_CNT && XlateAlu(i).Some? && |XlateAlu(i).value| == 1
    ensures Sequential(XlateAlu(i).value[0]) && Emittable(XlateAlu(i).value[0])
  {
  }

  lemma StoreSequential(i: Insn)
    requires i.dst < REG_CNT && i.src < REG_CNT && XlateStore(i).Some?
    ensures AllSequential(XlateStore(i).value)
  {
  }

  lemma JumpStraight(q: Req, pc: nat, i: Insn, rel: u32)
    requires i.dst < REG_CNT && i.src < REG_CNT && XlateJump(q, pc, i, rel).Some?
    ensures StraightLine(XlateJump(q, pc, i, rel).value)
    ensures JmpOpOf(i.code) == CALL ==> AllSequential(XlateJump(q, pc, i, rel).value)
  {
  }

  /** A translation has at most its last instruction jump, and only if the program's does. */
  lemma XlateStraight(q: Req, pc: nat, rel: u32)
    requires pc < |q.p.insns| && Xlate(q, pc, rel).Some?
    ensures StraightLine(Xlate(q, pc, rel).value)
    ensures ClassOf(q.p.insns[pc].code) !in {JMP, JMP32} || JmpOpOf(q.p.insns[pc].code) == CALL ==>
            AllSequential(Xlate(q, pc, rel).value)
  {
    var i := q.p.insns[pc];
    match ClassOf(i.code)
    case ALU => AluSequential(i);
    case ALU64 => AluSequential(i);
    case ST => StoreSequential(i);
    case STX => StoreSequential(i);
    case JMP => JumpStraight(q, pc, i, rel);
    case JMP32 => JumpStraight(q, pc, i, rel);
    case _ =>
  }

  /** The translation of the instruction at `pc`, as the final pass writes it. */
  ghost function Piece(enc: Encoder, q: Req, pc: nat): seq<X>
    requires pc < |q.p.insns| && !Half(q.p.insns, pc) && Translates(q) && FixedJumps(enc)
  {
    SameLength(enc, q, pc, JumpRel(enc, q, pc));
    Xlate(q, pc, JumpRel(enc, q, pc)).value
  }

  lemma PieceRuns(step: Cpu -> Option<Cpu>, ex: Executor, enc: Encoder, z: Around, k: Kernel, q: Req, pc: nat, c: Cpu,
                  c': Cpu)
    requires RunsCode(step, ex, enc, z, k, q) && pc < |q.p.insns| && !Half(q.p.insns, pc)
    requires c.rip == In(OffsetOf(enc, q, pc))
    requires Ran(ex, enc, Piece(enc, q, pc), OffsetOf(enc, q, pc), c, c')
    ensures Reaches(step, c, |Piece(enc, q, pc)|, c')
  {
    var xs, off := Piece(enc, q, pc), OffsetOf(enc, q, pc);
    SameLength(enc, q, pc, JumpRel(enc, q, pc));
    XlateStraight(q, pc, JumpRel(enc, q, pc));
    CodeAt(enc, q, pc);
    assert CarriesAll(enc, Code(enc, q), off, xs);
    StretchRuns(step, ex, enc, Code(enc, q), off, xs, c);
  }

  // ---- one step of each kind ------------------------------------------------

  lemma RelSmaller(z: Around, w: Caller, s: set<nat>, s': set<nat>, m: Machine, c: Cpu)
    requires Rel(z, w, s, m, c) && s' <= s
    ensures Rel(z, w, s', m, c)
  {
  }

  lemma AluFollows(ex: Executor, enc: Encoder, z: Around, k: Kernel, w: Caller, st: VState, i: Insn, m: Machine,
                   off: nat, c: Cpu) returns (c': Cpu)
    requires Faithful(ex, z, k) && Rel(z, w, Inited(st), m, c) && i.dst < REG_CNT && i.src < REG_CNT
    requires ClassOf(i.code) in {ALU, ALU64} && XlateAlu(i).Some? && VerifyAlu(i, ClassOf(i.code) == ALU64, st).Some?
    ensures StepAlu(i, m).Next? && Ran(ex, enc, XlateAlu(i).value, off, c, c')
    ensures Rel(z, w, Inited(VerifyAlu(i, ClassOf(i.code) == ALU64, st).value), StepAlu(i, m).m, c')
  {
    AluInit(i, ClassOf(i.code) == ALU64, st);
    c' := AluSim(ex, enc, z, k, w, Inited(st), i, m, off, c);
    RelSmaller(z, w, Inited(st) + {i.dst}, Inited(VerifyAlu(i, ClassOf(i.code) == ALU64, st).value), StepAlu(i, m).m,
               c');
  }

  lemma LoadFollows(ex: Executor, enc: Encoder, z: Around, k: Kernel, w: Caller, b: Bounds, st: VState, i: Insn,
                    m: Machine, off: nat, c: Cpu)
    returns (c': Cpu)
    requires Faithful(ex, z, k) && Rel(z, w, Inited(st), m, c) && i.dst < REG_CNT && i.src < REG_CNT
    requires XlateLoad(i).Some? && VerifyLoad(b, i, st).Some? && Shared(z, LoadAddr(i, m), Bytes(i.code))
    ensures StepLoad(i, m).Next? && Ran(ex, enc, XlateLoad(i).value, off, c, c')
    ensures Rel(z, w, Inited(VerifyLoad(b, i, st).value), StepLoad(i, m).m, c')
  {
    LoadInit(b, i, st);
    c' := LoadSim(ex, enc, z, k, w, Inited(st), i, m, off, c);
    RelSmaller(z, w, Inited(st) + {i.dst}, Inited(VerifyLoad(b, i, st).value), StepLoad(i, m).m, c');
  }

  lemma StoreFollows(ex: Executor, enc: Encoder, z: Around, k: Kernel, w: Caller, b: Bounds, st: VState, i: Insn,
                     m: Machine, off: nat, c: Cpu)
    returns (c': Cpu)
    requires Faithful(ex, z, k) && Rel(z, w, Inited(st), m, c) && i.dst < REG_CNT && i.src < REG_CNT
    requires ClassOf(i.code) in {ST, STX}
    requires XlateStore(i).Some? && VerifyStore(b, i, st).Some? && Shared(z, StoreAddr(i, m), Bytes(i.code))
    ensures StepStore(i, m).Next? && Ran(ex, enc, XlateStore(i).value, off, c, c')
    ensures Rel(z, w, Inited(VerifyStore(b, i, st).value), StepStore(i, m).m, c')
  {
    StoreInit(b, i, st);
    c' := StoreSim(ex, enc, z, k, w, Inited(st), i, m, off, c);
    RelSmaller(z, w, Inited(st), Inited(VerifyStore(b, i, st).value), StepStore(i, m).m, c');
  }

  lemma WideFollows(ex: Executor, enc: Encoder, z: Around, k: Kernel, w: Caller, q: Req, st: VState, i: Insn,
                    m: Machine, off: nat, c: Cpu)
    returns (c': Cpu)
    requires Faithful(ex, z, k) && Rel(z, w, Inited(st), m, c) && m.pc < |q.p.insns| && i == q.p.insns[m.pc]
    requires i.dst < REG_CNT
    requires VerifyWide(q.p, m.pc, i, st).Some?
    ensures StepWide(q.b, q.p, i, m).Next? && StepWide(q.b, q.p, i, m).m.pc == m.pc + 2
    ensures Ran(ex, enc, [MovAbs(JitReg(i.dst), WideValue(q, m.pc))], off, c, c')
    ensures Rel(z, w, Inited(VerifyWide(q.p, m.pc, i, st).value), StepWide(q.b, q.p, i, m).m, c')
  {
    WideInit(q.p, m.pc, i, st);
    c' := WideSim(ex, enc, z, k, w, Inited(st), i.dst, WideValue(q, m.pc), m, StepWide(q.b, q.p, i, m).m, off, c);
    RelSmaller(z, w, Inited(st) + {i.dst}, Inited(VerifyWide(q.p, m.pc, i, st).value), StepWide(q.b, q.p, i, m).m, c');
  }

  lemma CallFollows(ex: Executor, enc: Encoder, z: Around, k: Kernel, w: Caller, b: Bounds, st: VState, i: Insn,
                    m: Machine, h: HelperEffect,
                    off: nat, c: Cpu)
    returns (c': Cpu)
    requires Faithful(ex, z, k) && Rel(z, w, Inited(st), m, c) && VerifyCall(b, m.pc, i, st).Some?
    requires h == k.helper(m.log, CallOf(i, m), Visible(z, m.mem))
    ensures StepCall(i, m, h).Next? && StepCall(i, m, h).m.pc == m.pc + 1
    ensures Ran(ex, enc, HelperCode(Low32(i.imm), k.entry), off, c, c')
    ensures Rel(z, w, Inited(VerifyCall(b, m.pc, i, st).value), StepCall(i, m, h).m, c')
  {
    CallInit(b, m.pc, i, st);
    c' := CallSim(ex, enc, z, k, w, Inited(st), i, m, StepCall(i, m, h).m, h, off, c);
    RelSmaller(z, w, AfterCallSet(Inited(st)), Inited(VerifyCall(b, m.pc, i, st).value), StepCall(i, m, h).m, c');
  }

  // ---- one step of the program ----------------------------------------------

  /** The instruction after a sequential one starts where its code ends. */
  lemma NextOffset(enc: Encoder, q: Req, pc: nat, pc': nat)
    requires pc < |q.p.insns| && !Half(q.p.insns, pc) && pc' < |q.p.insns| && !Half(q.p.insns, pc')
    requires pc' == if q.p.insns[pc].code == WIDE then pc + 2 else pc + 1
    ensures OffsetOf(enc, q, pc') == End(enc, q, pc + 1)
  {
    if pc' == pc + 2 {
      assert Half(q.p.insns, pc + 1);
      SkippedHalf(enc, q, pc + 1);
    }
  }

  lemma SkippedHalf(enc: Encoder, q: Req, pc: nat)
    requires pc < |q.p.insns| && Half(q.p.insns, pc)
    ensures End(enc, q, pc + 1) == End(enc, q, pc)
  {
    assert Lengths(enc, q)(pc) == 0;
  }

  lemma FallThrough(ex: Executor, enc: Encoder, q: Req, pc: nat, c: Cpu, c': Cpu)
    requires GoesOn(ex) && FixedJumps(enc) && Translates(q) && pc < |q.p.insns| && !Half(q.p.insns, pc)
    requires c.rip == In(OffsetOf(enc, q, pc)) && Ran(ex, enc, Piece(enc, q, pc), OffsetOf(enc, q, pc), c, c')
    requires AllSequential(Piece(enc, q, pc))
    ensures c'.rip == In(End(enc, q, pc + 1))
  {
    CodeAt(enc, q, pc);
    SameLength(enc, q, pc, JumpRel(enc, q, pc));
    ExecRip(ex, enc, Piece(enc, q, pc), OffsetOf(enc, q, pc), c);
  }

  /** An instruction that is not a jump, or is a call. */
  predicate Falls(i: Insn) { ClassOf(i.code) !in {JMP, JMP32} || JmpOpOf(i.code) == CALL }

  /** The machine and the processor at the same instruction. */
  ghost predicate Together(enc: Encoder, q: Req, z: Around, w: Caller, st: VState, m: Machine, c: Cpu) {
    && m.pc < |q.p.insns| && !Half(q.p.insns, m.pc)
    && Rel(z, w, Inited(st), m, c) && c.rip == In(OffsetOf(enc, q, m.pc))
  }

  lemma OnlyLoadsWide(code: byte)
    requires ClassOf(code) != LD
    ensures code != WIDE
  {
  }

  lemma AluRuns(ex: Executor, enc: Encoder, z: Around, k: Kernel, w: Caller, e: Env, q: Req, st: VState, st': VState,
                m: Machine, m': Machine,
                rel: u32, off: nat, c: Cpu)
    returns (c': Cpu)
    requires Faithful(ex, z, k) && q.fn == k.entry && q.b == e.b && EnvShared(e, q.p, z) && RecordsShared(z, m.live)
    requires m.pc < |q.p.insns| && Falls(q.p.insns[m.pc]) && Xlate(q, m.pc, rel).Some?
    requires Rel(z, w, Inited(st), m, c) && StepSafe(e, q.p, m)
    requires Turn(z, k, e.b, q.p, m) == Next(m') && Continues(VerifyInsn(e.b, q.p, m.pc, st), m'.pc, st')
    requires ClassOf(q.p.insns[m.pc].code) in {ALU, ALU64}
    ensures Ran(ex, enc, Xlate(q, m.pc, rel).value, off, c, c') && Rel(z, w, Inited(st'), m', c')
    ensures m'.pc == if q.p.insns[m.pc].code == WIDE then m.pc + 2 else m.pc + 1
  {
    var i := q.p.insns[m.pc];
    OnlyLoadsWide(i.code);
    c' := AluFollows(ex, enc, z, k, w, st, i, m, off, c);
  }

  lemma LoadRuns(ex: Executor, enc: Encoder, z: Around, k: Kernel, w: Caller, e: Env, q: Req, st: VState, st': VState,
                 m: Machine, m': Machine,
                 rel: u32, off: nat, c: Cpu)
    returns (c': Cpu)
    requires Faithful(ex, z, k) && q.fn == k.entry && q.b == e.b && EnvShared(e, q.p, z) && RecordsShared(z, m.live)
    requires m.pc < |q.p.insns| && Falls(q.p.insns[m.pc]) && Xlate(q, m.pc, rel).Some?
    requires Rel(z, w, Inited(st), m, c) && StepSafe(e, q.p, m)
    requires Turn(z, k, e.b, q.p, m) == Next(m') && Continues(VerifyInsn(e.b, q.p, m.pc, st), m'.pc, st')
    requires ClassOf(q.p.insns[m.pc].code) == LDX
    ensures Ran(ex, enc, Xlate(q, m.pc, rel).value, off, c, c') && Rel(z, w, Inited(st'), m', c')
    ensures m'.pc == if q.p.insns[m.pc].code == WIDE then m.pc + 2 else m.pc + 1
  {
    var i := q.p.insns[m.pc];
    OnlyLoadsWide(i.code);
    ReadableShared(e, q.p, z, m.live, LoadAddr(i, m), Bytes(i.code));
    c' := LoadFollows(ex, enc, z, k, w, e.b, st, i, m, off, c);
  }

  lemma StoreRuns(ex: Executor, enc: Encoder, z: Around, k: Kernel, w: Caller, e: Env, q: Req, st: VState, st': VState,
                  m: Machine, m': Machine,
                  rel: u32, off: nat, c: Cpu)
    returns (c': Cpu)
    requires Faithful(ex, z, k) && q.fn == k.entry && q.b == e.b && EnvShared(e, q.p, z) && RecordsShared(z, m.live)
    requires m.pc < |q.p.insns| && Falls(q.p.insns[m.pc]) && Xlate(q, m.pc, rel).Some?
    requires Rel(z, w, Inited(st), m, c) && StepSafe(e, q.p, m)
    requires Turn(z, k, e.b, q.p, m) == Next(m') && Continues(VerifyInsn(e.b, q.p, m.pc, st), m'.pc, st')
    requires ClassOf(q.p.insns[m.pc].code) in {ST, STX}
    ensures Ran(ex, enc, Xlate(q, m.pc, rel).value, off, c, c') && Rel(z, w, Inited(st'), m', c')
    ensures m'.pc == if q.p.insns[m.pc].code == WIDE then m.pc + 2 else m.pc + 1
  {
    var i := q.p.insns[m.pc];
    OnlyLoadsWide(i.code);
    ReadableShared(e, q.p, z, m.live, StoreAddr(i, m), Bytes(i.code));
    c' := StoreFollows(ex, enc, z, k, w, e.b, st, i, m, off, c);
  }

  lemma WideRuns(ex: Executor, enc: Encoder, z: Around, k: Kernel, w: Caller, e: Env, q: Req, st: VState, st': VState,
                 m: Machine, m': Machine,
                 rel: u32, off: nat, c: Cpu)
    returns (c': Cpu)
    requires Faithful(ex, z, k) && q.fn == k.entry && q.b == e.b && EnvShared(e, q.p, z) && RecordsShared(z, m.live)
    requires m.pc < |q.p.insns| && Falls(q.p.insns[m.pc]) && Xlate(q, m.pc, rel).Some?
    requires Rel(z, w, Inited(st), m, c) && StepSafe(e, q.p, m)
    requires Turn(z, k, e.b, q.p, m) == Next(m') && Continues(VerifyInsn(e.b, q.p, m.pc, st), m'.pc, st')
    requires ClassOf(q.p.insns[m.pc].code) == LD
    ensures Ran(ex, enc, Xlate(q, m.pc, rel).value, off, c, c') && Rel(z, w, Inited(st'), m', c')
    ensures m'.pc == if q.p.insns[m.pc].code == WIDE then m.pc + 2 else m.pc + 1
  {
    var i := q.p.insns[m.pc];
    c' := WideFollows(ex, enc, z, k, w, q, st, i, m, off, c);
  }

  lemma CallRuns(ex: Executor, enc: Encoder, z: Around, k: Kernel, w: Caller, e: Env, q: Req, st: VState, st': VState,
                 m: Machine, m': Machine,
                 rel: u32, off: nat, c: Cpu)
    returns (c': Cpu)
    requires Faithful(ex, z, k) && q.fn == k.entry && q.b == e.b && EnvShared(e, q.p, z) && RecordsShared(z, m.live)
    requires m.pc < |q.p.insns| && Falls(q.p.insns[m.pc]) && Xlate(q, m.pc, rel).Some?
    requires Rel(z, w, Inited(st), m, c) && StepSafe(e, q.p, m)
    requires Turn(z, k, e.b, q.p, m) == Next(m') && Continues(VerifyInsn(e.b, q.p, m.pc, st), m'.pc, st')
    requires ClassOf(q.p.insns[m.pc].code) == JMP
    ensures Ran(ex, enc, Xlate(q, m.pc, rel).value, off, c, c') && Rel(z, w, Inited(st'), m', c')
    ensures m'.pc == if q.p.insns[m.pc].code == WIDE then m.pc + 2 else m.pc + 1
  {
    var i := q.p.insns[m.pc];
    OnlyLoadsWide(i.code);
    c' := CallFollows(ex, enc, z, k, w, e.b, st, i, m, HelperOn(z, k, q.p, m), off, c);
  }

  lemma FallsRuns(ex: Executor, enc: Encoder, z: Around, k: Kernel, w: Caller, e: Env, q: Req, st: VState, st': VState,
                  m: Machine, m': Machine,
                  rel: u32, off: nat, c: Cpu)
    returns (c': Cpu)
    requires Faithful(ex, z, k) && q.fn == k.entry && q.b == e.b && EnvShared(e, q.p, z) && RecordsShared(z, m.live)
    requires m.pc < |q.p.insns| && Falls(q.p.insns[m.pc]) && Xlate(q, m.pc, rel).Some?
    requires Rel(z, w, Inited(st), m, c) && StepSafe(e, q.p, m)
    requires Turn(z, k, e.b, q.p, m) == Next(m') && Continues(VerifyInsn(e.b, q.p, m.pc, st), m'.pc, st')
    ensures Ran(ex, enc, Xlate(q, m.pc, rel).value, off, c, c') && Rel(z, w, Inited(st'), m', c')
    ensures m'.pc == if q.p.insns[m.pc].code == WIDE then m.pc + 2 else m.pc + 1
  {
    var i := q.p.insns[m.pc];
    match ClassOf(i.code)
    case ALU => c' := AluRuns(ex, enc, z, k, w, e, q, st, st', m, m', rel, off, c);
    case ALU64 => c' := AluRuns(ex, enc, z, k, w, e, q, st, st', m, m', rel, off, c);
    case LDX => c' := LoadRuns(ex, enc, z, k, w, e, q, st, st', m, m', rel, off, c);
    case ST => c' := StoreRuns(ex, enc, z, k, w, e, q, st, st', m, m', rel, off, c);
    case STX => c' := StoreRuns(ex, enc, z, k, w, e, q, st, st', m, m', rel, off, c);
    case LD => c' := WideRuns(ex, enc, z, k, w, e, q, st, st', m, m', rel, off, c);
    case JMP => c' := CallRuns(ex, enc, z, k, w, e, q, st, st', m, m', rel, off, c);
    case JMP32 => assert false;
  }

  lemma FallsFollows(step: Cpu -> Option<Cpu>, ex: Executor, enc: Encoder, z: Around, k: Kernel, w: Caller, e: Env,
                     q: Req,
                     st: VState, st': VState, m: Machine, m': Machine, c: Cpu)
    returns (n: nat, c': Cpu)
    requires RunsCode(step, ex, enc, z, k, q) && q.b == e.b && EnvShared(e, q.p, z) && RecordsShared(z, m.live)
    requires Together(enc, q, z, w, st, m, c) && Falls(q.p.insns[m.pc]) && StepSafe(e, q.p, m)
    requires Turn(z, k, e.b, q.p, m) == Next(m') && Continues(VerifyInsn(e.b, q.p, m.pc, st), m'.pc, st')
    requires m'.pc < |q.p.insns| && !Half(q.p.insns, m'.pc)
    ensures Reaches(step, c, n, c') && Together(enc, q, z, w, st', m', c')
  {
    n, c' := FallsReaches(step, ex, enc, z, k, w, e, q, st, st', m, m', c);
    NextOffset(enc, q, m.pc, m'.pc);
  }

  lemma FallsReaches(step: Cpu -> Option<Cpu>, ex: Executor, enc: Encoder, z: Around, k: Kernel, w: Caller, e: Env,
                     q: Req,
                     st: VState, st': VState, m: Machine, m': Machine, c: Cpu)
    returns (n: nat, c': Cpu)
    requires RunsCode(step, ex, enc, z, k, q) && q.b == e.b && EnvShared(e, q.p, z) && RecordsShared(z, m.live)
    requires Together(enc, q, z, w, st, m, c) && Falls(q.p.insns[m.pc]) && StepSafe(e, q.p, m)
    requires Turn(z, k, e.b, q.p, m) == Next(m') && Continues(VerifyInsn(e.b, q.p, m.pc, st), m'.pc, st')
    ensures Reaches(step, c, n, c') && Rel(z, w, Inited(st'), m', c') && c'.rip == In(End(enc, q, m.pc + 1))
    ensures m'.pc == if q.p.insns[m.pc].code == WIDE then m.pc + 2 else m.pc + 1
  {
    var rel, off := JumpRel(enc, q, m.pc), OffsetOf(enc, q, m.pc);
    n := |Piece(enc, q, m.pc)|;
    SameLength(enc, q, m.pc, rel);
    c' := FallsRuns(ex, enc, z, k, w, e, q, st, st', m, m', rel, off, c);
    PieceRuns(step, ex, enc, z, k, q, m.pc, c, c');
    XlateStraight(q, m.pc, rel);
    FallThrough(ex, enc, q, m.pc, c, c');
  }

  /** A piece ends where the next instruction's code starts. */
  lemma PieceEnds(enc: Encoder, q: Req, pc: nat)
    requires FixedJumps(enc) && Translates(q) && pc < |q.p.insns| && !Half(q.p.insns, pc)
    ensures End(enc, q, pc + 1) == OffsetOf(enc, q, pc) + |EncodeAll(enc, Piece(enc, q, pc))|
  {
    CodeAt(enc, q, pc);
    SameLength(enc, q, pc, JumpRel(enc, q, pc));
  }

  lemma CondPiece(enc: Encoder, q: Req, pc: nat, i: Insn)
    requires FixedJumps(enc) && Translates(q) && pc < |q.p.insns| && !Half(q.p.insns, pc)
    requires i == q.p.insns[pc] && ClassOf(i.code) in {JMP, JMP32} && JmpOpOf(i.code) !in {JA, CALL, EXIT}
    ensures i.dst < REG_CNT && i.src < REG_CNT && Cc(JmpOpOf(i.code)).Some?
    ensures Piece(enc, q, pc) == [Compare(i), Jcc(Cc(JmpOpOf(i.code)).value, JumpRel(enc, q, pc))]
  {
    SameLength(enc, q, pc, JumpRel(enc, q, pc));
  }

  /** A conditional jump from `off` lands at the target's code or just behind itself. */
  lemma CondLands(ex: Executor, enc: Encoder, z: Around, k: Kernel, w: Caller, q: Req, i: Insn, s: set<nat>, m: Machine,
                  m': Machine, taken: bool,
                  c: Cpu)
    returns (c': Cpu)
    requires Faithful(ex, z, k) && FixedJumps(enc) && Translates(q) && |Code(enc, q)| < 0x8000_0000
    requires m.pc < |q.p.insns| && !Half(q.p.insns, m.pc) && Rel(z, w, s, m, c)
    requires i == q.p.insns[m.pc] && ClassOf(i.code) in {JMP, JMP32} && JmpOpOf(i.code) !in {JA, CALL, EXIT}
    requires i.dst < REG_CNT && i.src < REG_CNT && i.dst in s && (SrcIsReg(i.code) ==> i.src in s)
    requires JitSteps.Takes(i, m.regs[i.dst], BpfMachine.Operand(i, m)) == Some(taken)
    requires m'.regs == m.regs && m'.mem == m.mem && m'.log == m.log
    ensures Ran(ex, enc, Piece(enc, q, m.pc), OffsetOf(enc, q, m.pc), c, c') && Rel(z, w, s, m', c')
    ensures c'.rip == In(if taken then OffsetOf(enc, q, TargetPc(q, m.pc)) else End(enc, q, m.pc + 1))
  {
    PieceEnds(enc, q, m.pc);
    RelLands(enc, q, m.pc);
    CondPiece(enc, q, m.pc, i);
    var t;
    c', t := CondSim(ex, enc, z, k, w, s, i, JumpRel(enc, q, m.pc), m, m', BpfMachine.Operand(i, m),
                     OffsetOf(enc, q, m.pc),
                     End(enc, q, m.pc + 1), OffsetOf(enc, q, TargetPc(q, m.pc)), c);
  }

  /** A conditional jump has gone where the interpreter's program counter went. */
  lemma CondArrives(step: Cpu -> Option<Cpu>, ex: Executor, enc: Encoder, z: Around, k: Kernel, w: Caller, q: Req,
                    st: VState, st': VState, m: Machine, m': Machine, taken: bool, c: Cpu, c': Cpu)
    returns (n: nat)
    requires RunsCode(step, ex, enc, z, k, q) && Together(enc, q, z, w, st, m, c) && q.p.insns[m.pc].code != WIDE
    requires Inited(st') <= Inited(st)
    requires Ran(ex, enc, Piece(enc, q, m.pc), OffsetOf(enc, q, m.pc), c, c') && Rel(z, w, Inited(st), m', c')
    requires c'.rip == In(if taken then OffsetOf(enc, q, TargetPc(q, m.pc)) else End(enc, q, m.pc + 1))
    requires m'.pc < |q.p.insns| && !Half(q.p.insns, m'.pc) && m'.pc == if taken then TargetPc(q, m.pc) else m.pc + 1
    ensures Reaches(step, c, n, c') && Together(enc, q, z, w, st', m', c')
  {
    n := |Piece(enc, q, m.pc)|;
    PieceRuns(step, ex, enc, z, k, q, m.pc, c, c');
    if !taken { NextOffset(enc, q, m.pc, m'.pc); }
    RelSmaller(z, w, Inited(st), Inited(st'), m', c');
  }

  lemma JaFollows(step: Cpu -> Option<Cpu>, ex: Executor, enc: Encoder, z: Around, k: Kernel, w: Caller, q: Req,
                  i: Insn,
                  st: VState, m: Machine, m': Machine, c: Cpu)
    returns (n: nat, c': Cpu)
    requires RunsCode(step, ex, enc, z, k, q) && Together(enc, q, z, w, st, m, c)
    requires i == q.p.insns[m.pc] && ClassOf(i.code) in {JMP, JMP32} && JmpOpOf(i.code) == JA
    requires m'.regs == m.regs && m'.mem == m.mem && m'.log == m.log
    requires m'.pc < |q.p.insns| && !Half(q.p.insns, m'.pc) && m'.pc == TargetPc(q, m.pc)
    ensures Reaches(step, c, n, c') && Together(enc, q, z, w, st, m', c')
  {
    var rel := JumpRel(enc, q, m.pc);
    n := |Piece(enc, q, m.pc)|;
    PieceEnds(enc, q, m.pc);
    RelLands(enc, q, m.pc);
    JaPiece(enc, q, m.pc, i);
    c' := JaSim(ex, enc, z, k, w, Inited(st), rel, m, m', OffsetOf(enc, q, m.pc), End(enc, q, m.pc + 1),
                OffsetOf(enc, q, TargetPc(q, m.pc)), c);
    PieceRuns(step, ex, enc, z, k, q, m.pc, c, c');
  }

  lemma JaPiece(enc: Encoder, q: Req, pc: nat, i: Insn)
    requires FixedJumps(enc) && Translates(q) && pc < |q.p.insns| && !Half(q.p.insns, pc)
    requires i == q.p.insns[pc] && ClassOf(i.code) in {JMP, JMP32} && JmpOpOf(i.code) == JA
    ensures Piece(enc, q, pc) == [Jmp(JumpRel(enc, q, pc))]
  {
    SameLength(enc, q, pc, JumpRel(enc, q, pc));
  }

  lemma LowSmall(x: int)
    requires 0 <= x < M32
    ensures Low32(x) == x
  {
  }

  /** What the interpreter and the verifier say of a conditional jump. */
  lemma CondFacts(b: Bounds, q: Req, i: Insn, st: VState, st': VState, m: Machine, m': Machine,
                  h: HelperEffect) returns (taken: bool)
    requires |q.p.insns| < M32 && m.pc < |q.p.insns| && i == q.p.insns[m.pc] && i.dst < REG_CNT && i.src < REG_CNT
    requires ClassOf(i.code) in {JMP, JMP32} && JmpOpOf(i.code) !in {JA, CALL, EXIT}
    requires StepJump(i, m, h) == Next(m') && Continues(VerifyCond(q.p, m.pc, i, st), m'.pc, st')
    ensures JitSteps.Takes(i, m.regs[i.dst], BpfMachine.Operand(i, m)) == Some(taken)
    ensures m'.pc == if taken then TargetPc(q, m.pc) else m.pc + 1
    ensures m'.regs == m.regs && m'.mem == m.mem && m'.log == m.log
  {
    var t := JitSteps.Takes(i, m.regs[i.dst], BpfMachine.Operand(i, m));
    taken := t.value;
    CondTarget(q, i, st, m.pc, m'.pc, st');
    LowSmall(m.pc + 1 + i.off);
  }

  lemma CondTarget(q: Req, i: Insn, st: VState, pc: nat, pc': nat, st': VState)
    requires pc < |q.p.insns| && i == q.p.insns[pc] && i.dst < REG_CNT && i.src < REG_CNT
    requires Continues(VerifyCond(q.p, pc, i, st), pc', st')
    ensures 0 <= pc + 1 + i.off < |q.p.insns| && TargetPc(q, pc) == pc + 1 + i.off
  {
  }

  lemma CondRuns(ex: Executor, enc: Encoder, z: Around, k: Kernel, w: Caller, b: Bounds, q: Req, i: Insn,
                 st: VState, st': VState, m: Machine, m': Machine, h: HelperEffect, c: Cpu)
    returns (c': Cpu, taken: bool)
    requires Faithful(ex, z, k) && FixedJumps(enc) && Translates(q) && |Code(enc, q)| < 0x8000_0000 && |q.p.insns| < M32
    requires m.pc < |q.p.insns| && !Half(q.p.insns, m.pc) && Rel(z, w, Inited(st), m, c)
    requires i == q.p.insns[m.pc] && i.dst < REG_CNT && i.src < REG_CNT && ClassOf(i.code) in {JMP, JMP32}
    requires JmpOpOf(i.code) !in {JA, CALL, EXIT}
    requires StepJump(i, m, h) == Next(m') && Continues(VerifyCond(q.p, m.pc, i, st), m'.pc, st')
    ensures Ran(ex, enc, Piece(enc, q, m.pc), OffsetOf(enc, q, m.pc), c, c') && Rel(z, w, Inited(st), m', c')
    ensures c'.rip == In(if taken then OffsetOf(enc, q, TargetPc(q, m.pc)) else End(enc, q, m.pc + 1))
    ensures m'.pc == (if taken then TargetPc(q, m.pc) else m.pc + 1) && Inited(st') <= Inited(st) && i.code != WIDE
  {
    OnlyLoadsWide(i.code);
    CondInit(q.p, m.pc, i, st, m'.pc, st');
    taken := CondFacts(b, q, i, st, st', m, m', h);
    c' := CondLands(ex, enc, z, k, w, q, i, Inited(st), m, m', taken, c);
  }

  lemma CondFollows(step: Cpu -> Option<Cpu>, ex: Executor, enc: Encoder, z: Around, k: Kernel, w: Caller, b: Bounds,
                    q: Req, i: Insn,
                    st: VState, st': VState, m: Machine, m': Machine, h: HelperEffect, c: Cpu)
    returns (n: nat, c': Cpu)
    requires RunsCode(step, ex, enc, z, k, q) && Together(enc, q, z, w, st, m, c) && |q.p.insns| < M32
    requires i == q.p.insns[m.pc] && i.dst < REG_CNT && i.src < REG_CNT && ClassOf(i.code) in {JMP, JMP32}
    requires JmpOpOf(i.code) !in {JA, CALL, EXIT}
    requires StepJump(i, m, h) == Next(m') && Continues(VerifyCond(q.p, m.pc, i, st), m'.pc, st')
    requires m'.pc < |q.p.insns| && !Half(q.p.insns, m'.pc)
    ensures Reaches(step, c, n, c') && Together(enc, q, z, w, st', m', c')
  {
    var taken;
    c', taken := CondRuns(ex, enc, z, k, w, b, q, i, st, st', m, m', h, c);
    n := CondArrives(step, ex, enc, z, k, w, q, st, st', m, m', taken, c, c');
  }

  lemma JumpFollows(step: Cpu -> Option<Cpu>, ex: Executor, enc: Encoder, z: Around, k: Kernel, w: Caller, b: Bounds,
                    q: Req,
                    st: VState, st': VState, m: Machine, m': Machine, c: Cpu)
    returns (n: nat, c': Cpu)
    requires RunsCode(step, ex, enc, z, k, q) && Together(enc, q, z, w, st, m, c) && |q.p.insns| < M32
    requires !Falls(q.p.insns[m.pc]) && Turn(z, k, b, q.p, m) == Next(m')
    requires Continues(VerifyInsn(b, q.p, m.pc, st), m'.pc, st')
    requires m'.pc < |q.p.insns| && !Half(q.p.insns, m'.pc)
    ensures Reaches(step, c, n, c') && Together(enc, q, z, w, st', m', c')
  {
    var i := q.p.insns[m.pc];
    if JmpOpOf(i.code) == JA {
      JaFacts(z, k, b, q, st, st', m, m');
      n, c' := JaFollows(step, ex, enc, z, k, w, q, i, st, m, m', c);
    } else {
      CondShape(z, k, b, q, st, st', m, m');
      n, c' := CondFollows(step, ex, enc, z, k, w, b, q, i, st, st', m, m', HelperOn(z, k, q.p, m), c);
    }
  }

  lemma JaFacts(z: Around, k: Kernel, b: Bounds, q: Req, st: VState, st': VState, m: Machine, m': Machine)
    requires m.pc < |q.p.insns| && !Falls(q.p.insns[m.pc]) && JmpOpOf(q.p.insns[m.pc].code) == JA && m'.pc < |q.p.insns|
    requires Turn(z, k, b, q.p, m) == Next(m') && Continues(VerifyInsn(b, q.p, m.pc, st), m'.pc, st')
    ensures m'.regs == m.regs && m'.mem == m.mem && m'.log == m.log && m'.pc == TargetPc(q, m.pc) && st' == st
  {
  }

  lemma CondShape(z: Around, k: Kernel, b: Bounds, q: Req, st: VState, st': VState, m: Machine, m': Machine)
    requires m.pc < |q.p.insns| && !Falls(q.p.insns[m.pc]) && JmpOpOf(q.p.insns[m.pc].code) != JA
    requires Turn(z, k, b, q.p, m) == Next(m') && Continues(VerifyInsn(b, q.p, m.pc, st), m'.pc, st')
    ensures var i := q.p.insns[m.pc];
            i.dst < REG_CNT && i.src < REG_CNT && JmpOpOf(i.code) !in {JA, CALL, EXIT}
            && StepJump(i, m, HelperOn(z, k, q.p, m)) == Next(m') && Continues(VerifyCond(q.p, m.pc, i, st), m'.pc, st')
  {
  }

  /** EXIT: the interpreter's result goes back to the caller. */
  lemma ExitFollows(step: Cpu -> Option<Cpu>, ex: Executor, enc: Encoder, z: Around, k: Kernel, w: Caller, b: Bounds,
                    q: Req,
                    st: VState, m: Machine, r0: u64, c: Cpu)
    returns (n: nat, c': Cpu)
    requires RunsCode(step, ex, enc, z, k, q) && Together(enc, q, z, w, st, m, c)
    requires Turn(z, k, b, q.p, m) == Exit(r0) && VerifyInsn(b, q.p, m.pc, st) != Reject
    ensures Reaches(step, c, n, c') && Finished(z, w, m, c') && r0 == m.regs[0]
  {
    ExitShape(z, k, b, q, m, r0, st);
    ExitPiece(enc, q, m.pc);
    n := |Piece(enc, q, m.pc)|;
    c' := EpilogueReturns(ex, enc, z, k, w, Inited(st), m, OffsetOf(enc, q, m.pc), c);
    PieceRuns(step, ex, enc, z, k, q, m.pc, c, c');
    assert JIT_REG[0] == 0;
  }

  lemma ExitShape(z: Around, k: Kernel, b: Bounds, q: Req, m: Machine, r0: u64, st: VState)
    requires m.pc < |q.p.insns| && Turn(z, k, b, q.p, m) == Exit(r0) && VerifyInsn(b, q.p, m.pc, st) != Reject
    ensures ClassOf(q.p.insns[m.pc].code) == JMP && JmpOpOf(q.p.insns[m.pc].code) == EXIT && 0 in Inited(st)
    ensures r0 == m.regs[0]
  {
  }

  lemma ExitPiece(enc: Encoder, q: Req, pc: nat)
    requires FixedJumps(enc) && Translates(q) && pc < |q.p.insns| && !Half(q.p.insns, pc)
    requires ClassOf(q.p.insns[pc].code) == JMP && JmpOpOf(q.p.insns[pc].code) == EXIT
    ensures Piece(enc, q, pc) == Epilogue
  {
    SameLength(enc, q, pc, JumpRel(enc, q, pc));
  }

  /** The processor is back in the caller with what the interpreter ended with. */
  ghost predicate Finished(z: Around, w: Caller, m: Machine, c: Cpu) {
    Returned(z, w, c) && c.regs[RAX] == m.regs[0] && Visible(z, c.mem) == Visible(z, m.mem) && c.log == m.log
  }

  // ---- whole runs -----------------------------------------------------------

  lemma CoversInit(o: VState, n: VState)
    requires StateCovers(o, n)
    ensures Inited(o) <= Inited(n)
  {
    forall r | r in Inited(o)
      ensures r in Inited(n)
    {
      assert RegCovers(o.regs[r], n.regs[r]);
    }
  }

  lemma CallRecords(e: Env, p: Prog, z: Around, k: Kernel, m: Machine, m': Machine)
    requires m.pc < |p.insns| && HelperKeeps(e, p, z, k, m) && RecordsShared(z, m.live)
    requires StepCall(p.insns[m.pc], m, HelperOn(z, k, p, m)) == Next(m') && CallSafe(e, p, p.insns[m.pc], m)
    ensures RecordsShared(z, m'.live)
  {
  }

  lemma OnlyCallsReserve(e: Env, p: Prog, z: Around, k: Kernel, m: Machine, m': Machine)
    requires m.pc < |p.insns| && Turn(z, k, e.b, p, m) == Next(m')
    requires !(ClassOf(p.insns[m.pc].code) in {JMP, JMP32} && JmpOpOf(p.insns[m.pc].code) == CALL)
    ensures m'.live == m.live
  {
  }

  lemma RecordsStayShared(e: Env, p: Prog, z: Around, k: Kernel, m: Machine, m': Machine)
    requires m.pc < |p.insns| && HelperKeeps(e, p, z, k, m) && RecordsShared(z, m.live) && StepSafe(e, p, m)
    requires Turn(z, k, e.b, p, m) == Next(m')
    ensures RecordsShared(z, m'.live)
  {
    if ClassOf(p.insns[m.pc].code) in {JMP, JMP32} && JmpOpOf(p.insns[m.pc].code) == CALL {
      CallRecords(e, p, z, k, m, m');
    } else {
      OnlyCallsReserve(e, p, z, k, m, m');
    }
  }

  /** One step of both: from one stepped state of the certificate to another. */
  lemma BothStep(step: Cpu -> Option<Cpu>, ex: Executor, enc: Encoder, z: Around, k: Kernel, w: Caller, e: Env, q: Req,
                 steps: set<(nat, VState)>,
                 st: VState, m: Machine, m': Machine, c: Cpu)
    returns (st': VState, n: nat, c': Cpu)
    requires RunsCode(step, ex, enc, z, k, q) && q.b == e.b && EnvShared(e, q.p, z)
    requires ValidEnv(e) && Certified(e.b, q.p, steps) && (m.pc, st) in steps && Gamma(e, st, m)
    requires RecordsShared(z, m.live)
    requires Together(enc, q, z, w, st, m, c) && HelperKeeps(e, q.p, z, k, m) && Turn(z, k, e.b, q.p, m) == Next(m')
    ensures m.pc < m'.pc && (m'.pc, st') in steps && Gamma(e, st', m') && RecordsShared(z, m'.live)
    ensures Reaches(step, c, n, c') && Together(enc, q, z, w, st', m', c')
  {
    assert Stepped(e.b, q.p, m.pc, st) && SuccessorsCovered(e.b, q.p, steps, m.pc, st);
    var st1 := StepSimulated(e, q.p, st, m, HelperOn(z, k, q.p, m));
    StepKeepsWf(e.b, q.p, m.pc, st, m'.pc, st1);
    st' := CoveringState(e, q.p, steps, st1, m');
    RecordsStayShared(e, q.p, z, k, m, m');
    if Falls(q.p.insns[m.pc]) {
      n, c' := FallsFollows(step, ex, enc, z, k, w, e, q, st, st1, m, m', c);
    } else {
      n, c' := JumpFollows(step, ex, enc, z, k, w, e.b, q, st, st1, m, m', c);
    }
    CoversInit(st', st1);
    RelSmaller(z, w, Inited(st1), Inited(st'), m', c');
  }

  lemma CoveringState(e: Env, p: Prog, steps: set<(nat, VState)>, st1: VState, m: Machine) returns (st: VState)
    requires Certified(e.b, p, steps) && Covered(steps, m.pc, st1) && Gamma(e, st1, m)
    ensures (m.pc, st) in steps && StateCovers(st, st1) && Gamma(e, st, m) && m.pc < |p.insns| && !Half(p.insns, m.pc)
  {
    st :| (m.pc, st) in steps && StateCovers(st, st1);
    CoversIncludes(e, st, st1, m);
    assert Stepped(e.b, p, m.pc, st);
  }

  lemma NeverFaults(turn: Machine -> Outcome, e: Env, p: Prog, z: Around, k: Kernel, steps: set<(nat, VState)>,
                    st: VState, m: Machine)
    requires ValidEnv(e) && Certified(e.b, p, steps) && (m.pc, st) in steps && Gamma(e, st, m)
    requires Interprets(turn, z, k, e.b, p) && m.pc < |p.insns| && HelperKeeps(e, p, z, k, m)
    ensures !turn(m).Fault? && (turn(m).Exit? ==> turn(m).r0 == m.regs[0])
  {
    assert Stepped(e.b, p, m.pc, st);
    assert turn(m) == Turn(z, k, e.b, p, m);
    var st0 := StepSimulated(e, p, st, m, HelperOn(z, k, p, m));
  }

  lemma BothExit(turn: Machine -> Outcome, step: Cpu -> Option<Cpu>, ex: Executor, enc: Encoder, z: Around, k: Kernel,
                 w: Caller, e: Env, q: Req,
                 steps: set<(nat, VState)>, st: VState, m: Machine, c: Cpu)
    returns (n: nat, c': Cpu)
    requires RunsCode(step, ex, enc, z, k, q) && Certified(e.b, q.p, steps) && (m.pc, st) in steps
    requires Interprets(turn, z, k, e.b, q.p)
    requires Together(enc, q, z, w, st, m, c) && turn(m).Exit?
    ensures Reaches(step, c, n, c') && Finished(z, w, m, c')
  {
    assert Stepped(e.b, q.p, m.pc, st);
    assert turn(m) == Turn(z, k, e.b, q.p, m);
    n, c' := ExitFollows(step, ex, enc, z, k, w, e.b, q, st, m, turn(m).r0, c);
  }

  lemma BothMove(turn: Machine -> Outcome, step: Cpu -> Option<Cpu>, ex: Executor, enc: Encoder, z: Around, k: Kernel,
                 w: Caller, e: Env, q: Req,
                 steps: set<(nat, VState)>, st: VState, m: Machine, m': Machine, c: Cpu)
    returns (st': VState, n: nat, c': Cpu)
    requires RunsCode(step, ex, enc, z, k, q) && q.b == e.b && EnvShared(e, q.p, z) && Interprets(turn, z, k, e.b, q.p)
    requires ValidEnv(e) && Certified(e.b, q.p, steps) && (m.pc, st) in steps && Gamma(e, st, m)
    requires RecordsShared(z, m.live)
    requires Together(enc, q, z, w, st, m, c) && HelperKeeps(e, q.p, z, k, m) && turn(m) == Next(m')
    ensures m.pc < m'.pc && (m'.pc, st') in steps && Gamma(e, st', m') && RecordsShared(z, m'.live)
    ensures Reaches(step, c, n, c') && Together(enc, q, z, w, st', m', c')
  {
    assert turn(m) == Turn(z, k, e.b, q.p, m);
    st', n, c' := BothStep(step, ex, enc, z, k, w, e, q, steps, st, m, m', c);
  }

  lemma StandsInside(b: Bounds, p: Prog, steps: set<(nat, VState)>, pc: nat, st: VState)
    requires Certified(b, p, steps) && (pc, st) in steps
    ensures pc < |p.insns|
  {
    assert Stepped(b, p, pc, st);
  }

  lemma {:induction false} RunFollows(turn: Machine -> Outcome, keeps: Machine -> bool, step: Cpu -> Option<Cpu>,
                                      ex: Executor, enc: Encoder,
                                      z: Around, k: Kernel, w: Caller, e: Env, q: Req, steps: set<(nat, VState)>,
                                          st: VState, m: Machine, c: Cpu)
    returns (c': Cpu)
    requires RunsCode(step, ex, enc, z, k, q) && q.b == e.b && EnvShared(e, q.p, z) && Interprets(turn, z, k, e.b, q.p)
    requires SaysKeeps(keeps, e, q.p, z, k) && Along(turn, keeps, |q.p.insns|, m)
    requires ValidEnv(e) && Certified(e.b, q.p, steps) && (m.pc, st) in steps && Gamma(e, st, m)
    requires RecordsShared(z, m.live)
    requires Together(enc, q, z, w, st, m, c)
    ensures RunFrom(turn, |q.p.insns|, m).Some? && GetsTo(step, c, c')
    ensures Finished(z, w, RunFrom(turn, |q.p.insns|, m).value, c')
    decreases |q.p.insns| - m.pc
  {
    StandsInside(e.b, q.p, steps, m.pc, st);
    assert HelperKeeps(e, q.p, z, k, m);
    NeverFaults(turn, e, q.p, z, k, steps, st, m);
    if turn(m).Exit? {
      var n;
      n, c' := BothExit(turn, step, ex, enc, z, k, w, e, q, steps, st, m, c);
    } else {
      var m' := turn(m).m;
      var st', n1, c1 := BothMove(turn, step, ex, enc, z, k, w, e, q, steps, st, m, m', c);
      c' := RunFollows(turn, keeps, step, ex, enc, z, k, w, e, q, steps, st', m', c1);
      GetsFarther(step, c, n1, c1, c');
    }
  }
}
