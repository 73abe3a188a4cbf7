/** The translation theorem, for a program the verifier has certified and the translator has compiled. */
module JitTheorem {
  import opened Words
  import opened Memory
  import opened BpfInsn
  import opened BpfVerifier
  import opened BpfMachine
  import opened BpfWellFormed
  import opened BpfSoundness
  import opened BpfSafety
  import opened X86
  import opened X86Machine
  import opened JitTranslate
  import opened JitExec
  import opened JitMemory
  import opened JitSim
  import opened JitEntry
  import opened JitInit
  import opened JitMeaning

  /** The machine bpf_run starts with, in memory `mem`. */
  ghost function Entered(e: Env, mem: Mem): Machine {
    Machine(0, ZeroRegs[1 := e.ctx][10 := e.fp], ZeroedFrame(mem, e.fp), map[], 0, 0, [])
  }

  lemma EnteredInitial(e: Env, mem: Mem)
    requires STACK_SIZE < e.fp
    ensures Initial(e, Entered(e, mem))
  {
    var m := Entered(e, mem);
    forall x: u64 | e.fp - STACK_SIZE <= x < e.fp
      ensures Rd(m.mem, x) == 0
    {
      assert Within(x, e.fp - STACK_SIZE, 512);
    }
  }

  lemma StartInited()
    ensures Inited(Start) == {1, 10}
  {
  }

  /** Code at the front of a larger buffer runs as it would alone. */
  lemma PrefixExecutes(step: Cpu -> Option<Cpu>, ex: Executor, enc: Encoder, code: seq<byte>, buf: seq<byte>)
    requires Executes(step, ex, enc, buf) && code <= buf
    ensures Executes(step, ex, enc, code)
  {
    forall off: nat, x, c: Cpu | Emittable(x) && c.rip == In(off) && Carries(enc, code, off, x)
      ensures step(c) == ex(x, off + |enc(x)|, c)
    {
      assert buf[off..off + |enc(x)|] == code[off..off + |enc(x)|];
      assert Carries(enc, buf, off, x);
    }
  }

  lemma PrologueSequential()
    ensures AllSequential(Prologue())
  {
  }

  lemma PrologueCarried(enc: Encoder, q: Req)
    ensures CarriesAll(enc, Code(enc, q), 0, Prologue())
  {
    JoinedGrows(EncodeAll(enc, Prologue()), Pieces(enc, q), 0, |q.p.insns|);
    var p := EncodeAll(enc, Prologue());
    assert p <= Code(enc, q);
    assert Code(enc, q)[0..|p|] == p;
  }

  /** Sequential code at the front runs through and leaves the processor just behind it. */
  lemma FrontReaches(step: Cpu -> Option<Cpu>, ex: Executor, enc: Encoder, code: seq<byte>, xs: seq<X>, c0: Cpu, c: Cpu)
    requires Executes(step, ex, enc, code) && GoesOn(ex) && AllSequential(xs) && CarriesAll(enc, code, 0, xs)
    requires c0.rip == In(0) && Ran(ex, enc, xs, 0, c0, c)
    ensures Reaches(step, c0, |xs|, c) && c.rip == In(|EncodeAll(enc, xs)|)
  {
    StretchRuns(step, ex, enc, code, 0, xs, c0);
    ExecRip(ex, enc, xs, 0, c0);
  }

  lemma FirstOffset(enc: Encoder, q: Req)
    requires |q.p.insns| > 0
    ensures OffsetOf(enc, q, 0) == |EncodeAll(enc, Prologue())|
  {
  }

  lemma EnterTogether(step: Cpu -> Option<Cpu>, ex: Executor, enc: Encoder, z: Around, k: Kernel, w: Caller, e: Env,
                      q: Req, steps: set<(nat, VState)>)
    returns (st: VState, c: Cpu)
    requires RunsCode(step, ex, enc, z, k, q) && ValidEnv(e) && Certified(e.b, q.p, steps) && z.fp == e.fp
    requires Called(z, w) && w.c.rip == In(0) && w.c.regs[7] == e.ctx && w.c.log == []
    ensures var m := Entered(e, w.c.mem); (0, st) in steps && Gamma(e, st, m) && Together(enc, q, z, w, st, m, c)
    ensures Reaches(step, w.c, |Prologue()|, c)
  {
    var m := Entered(e, w.c.mem);
    EnteredInitial(e, w.c.mem);
    StartDescribed(e, m);
    st := CoveringState(e, q.p, steps, Start, m);
    c := PrologueSetsUp(ex, enc, z, k, w, m);
    PrologueSequential();
    PrologueCarried(enc, q);
    FrontReaches(step, ex, enc, Code(enc, q), Prologue(), w.c, c);
    StartInited();
    CoversInit(st, Start);
    RelSmaller(z, w, {1, 10}, Inited(st), m, c);
    FirstOffset(enc, q);
  }

  /**
   * A program the verifier certified and the translator could translate, its code at the front of the buffer the
   * processor runs: called by the C convention with the context in rdi, the code returns to its caller, rax holding the
   * interpreter's result, callee-saved registers and stack restored, with the same helper calls made and the same
   * shared memory left as the interpreter leaves in the same frame.
   */
  lemma CompiledMeansInterpreted(z: Around, k: Kernel, w: Caller, e: Env, q: Req, steps: set<(nat, VState)>,
                                 buf: seq<byte>) returns (c: Cpu)
    requires ValidEnv(e) && Certified(e.b, q.p, steps) && EnvShared(e, q.p, z)
    requires KernelKeeps(e, q.p, z, k, Entered(e, w.c.mem))
    requires Translates(q) && Code(Encode, q) <= buf && |buf| < 0x8000_0000 && q.b == e.b && q.fn == k.entry
    requires Called(z, w) && w.c.rip == In(0) && w.c.regs[7] == e.ctx && w.c.log == []
    ensures var end := RunFrom(Interpreter(z, k, e.b, q.p), |q.p.insns|, Entered(e, w.c.mem));
            end.Some? && GetsTo(Processor(z, k, Decode, buf), w.c, c) && Finished(z, w, end.value, c)
  {
    var enc: Encoder, ex, step, turn := Encode, Semantics(z, k), Processor(z, k, Decode, buf),
        Interpreter(z, k, e.b, q.p);
    SetUp(z, k, q, buf);
    c := RunCompiled(turn, Keeping(e, q.p, z, k), step, ex, enc, z, k, w, e, q, steps);
  }

  lemma SetUp(z: Around, k: Kernel, q: Req, buf: seq<byte>)
    requires Translates(q) && Code(Encode, q) <= buf && |buf| < 0x8000_0000 && q.fn == k.entry
    ensures RunsCode(Processor(z, k, Decode, buf), Semantics(z, k), Encode, z, k, q)
  {
    EncodeDecodes();
    EncodeFixesJumps();
    SemanticsFaithful(z, k);
    FaithfulGoesOn(Semantics(z, k), z, k);
    ProcessorExecutes(z, k, Decode, Encode, buf);
    PrefixExecutes(Processor(z, k, Decode, buf), Semantics(z, k), Encode, Code(Encode, q), buf);
  }

  lemma RunCompiled(turn: Machine -> Outcome, keeps: Machine -> bool, step: Cpu -> Option<Cpu>, ex: Executor,
                    enc: Encoder, z: Around, k: Kernel, w: Caller, e: Env, q: Req,
                    steps: set<(nat, VState)>)
    returns (c: Cpu)
    requires RunsCode(step, ex, enc, z, k, q) && q.b == e.b && EnvShared(e, q.p, z) && Interprets(turn, z, k, e.b, q.p)
    requires SaysKeeps(keeps, e, q.p, z, k) && Along(turn, keeps, |q.p.insns|, Entered(e, w.c.mem))
    requires ValidEnv(e) && Certified(e.b, q.p, steps)
    requires Called(z, w) && w.c.rip == In(0) && w.c.regs[7] == e.ctx && w.c.log == []
    ensures RunFrom(turn, |q.p.insns|, Entered(e, w.c.mem)).Some? && GetsTo(step, w.c, c)
    ensures Finished(z, w, RunFrom(turn, |q.p.insns|, Entered(e, w.c.mem)).value, c)
  {
    var st, c1 := EnterTogether(step, ex, enc, z, k, w, e, q, steps);
    c := RunFollows(turn, keeps, step, ex, enc, z, k, w, e, q, steps, st, Entered(e, w.c.mem), c1);
    GetsFarther(step, w.c, |Prologue()|, c1, c);
  }
}
