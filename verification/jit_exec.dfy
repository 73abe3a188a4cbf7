/** Running a stretch of emitted instructions: the machine decodes what was encoded and executes it in order. */
module JitExec {
  import opened Words
  import opened Memory
  import opened BpfMachine
  import opened X86
  import opened X86Decode
  import opened X86Machine
  import opened JitTranslate

  /** The processor reads back the instruction that was encoded, whatever follows it. */
  ghost predicate Decodes(dec: Decoder, enc: Encoder) {
    forall x, rest :: Emittable(x) ==> dec(enc(x) + rest) == Some(Decoded(x, |enc(x)|))
  }

  lemma EncodeDecodes()
    ensures Decodes(Decode, Encode)
  {
    forall x, rest | Emittable(x)
      ensures Decode(Encode(x) + rest) == Some(Decoded(x, |Encode(x)|))
    {
      DecodeEncode(x, rest);
    }
  }

  lemma JccLength(cc: nib, rel: u32)
    ensures |Encode(Jcc(cc, rel))| == 6
  {
  }

  lemma JmpLength(rel: u32)
    ensures |Encode(Jmp(rel))| == 5
  {
  }

  lemma EncodeFixesJumps()
    ensures FixedJumps(Encode)
  {
    forall rel ensures |Encode(Jmp(rel))| == |Encode(Jmp(0))| {
      JmpLength(rel);
      JmpLength(0);
    }
    forall cc, rel ensures |Encode(Jcc(cc, rel))| == |Encode(Jcc(cc, 0))| {
      JccLength(cc, rel);
      JccLength(cc, 0);
    }
  }

  /** Leaves rip at the next instruction. */
  predicate Sequential(x: X) { !x.Jcc? && !x.Jmp? && !x.Ret? }

  /** What one instruction does, given where its successor starts. */
  type Executor = (X, nat, Cpu) -> Option<Cpu>

  function Semantics(z: Around, k: Kernel): Executor { (x: X, off: nat, c: Cpu) => Exec(z, k, x, off, c) }

  /** `ex` is the processor's own semantics. */
  ghost predicate Faithful(ex: Executor, z: Around, k: Kernel) {
    forall x, off: nat, c: Cpu {:trigger Exec(z, k, x, off, c)} :: ex(x, off, c) == Exec(z, k, x, off, c)
  }

  lemma SemanticsFaithful(z: Around, k: Kernel)
    ensures Faithful(Semantics(z, k), z, k)
  {
  }

  /** Execute `xs`, laid out from `off`, one after the other. */
  function ExecAll(ex: Executor, enc: Encoder, xs: seq<X>, off: nat, c: Cpu): Option<Cpu> {
    if xs == [] then Some(c)
    else match ex(xs[0], off + |enc(xs[0])|, c)
         case None => None
         case Some(c') => ExecAll(ex, enc, xs[1..], off + |enc(xs[0])|, c')
  }

  /** All but the last go on to the next. */
  predicate StraightLine(xs: seq<X>) {
    (forall j :: 0 <= j < |xs| ==> Emittable(xs[j])) && forall j :: 0 <= j < |xs| - 1 ==> Sequential(xs[j])
  }

  predicate Carries(enc: Encoder, code: seq<byte>, off: nat, x: X) {
    off + |enc(x)| <= |code| && code[off..off + |enc(x)|] == enc(x)
  }

  predicate CarriesAll(enc: Encoder, code: seq<byte>, off: nat, xs: seq<X>) {
    off + |EncodeAll(enc, xs)| <= |code| && code[off..off + |EncodeAll(enc, xs)|] == EncodeAll(enc, xs)
  }

  /** `step` executes the instruction it stands at, as `ex` says. */
  ghost predicate Executes(step: Cpu -> Option<Cpu>, ex: Executor, enc: Encoder, code: seq<byte>) {
    forall off: nat, x, c: Cpu :: Emittable(x) && c.rip == In(off) && Carries(enc, code, off, x) ==>
        step(c) == ex(x, off + |enc(x)|, c)
  }

  ghost predicate GoesOn(ex: Executor) {
    forall off: nat, x, c: Cpu :: Sequential(x) && ex(x, off, c).Some? ==> ex(x, off, c).value.rip == In(off)
  }

  lemma SequentialRip(z: Around, k: Kernel, x: X, off: nat, c: Cpu)
    requires Sequential(x) && Exec(z, k, x, off, c).Some?
    ensures Exec(z, k, x, off, c).value.rip == In(off)
  {
  }

  lemma FaithfulGoesOn(ex: Executor, z: Around, k: Kernel)
    requires Faithful(ex, z, k)
    ensures GoesOn(ex)
  {
    forall off: nat, x, c: Cpu | Sequential(x) && ex(x, off, c).Some?
      ensures ex(x, off, c).value.rip == In(off)
    {
      assert ex(x, off, c) == Exec(z, k, x, off, c);
      SequentialRip(z, k, x, off, c);
    }
  }

  lemma StepRuns(z: Around, k: Kernel, dec: Decoder, enc: Encoder, code: seq<byte>, off: nat, x: X, c: Cpu)
    requires Decodes(dec, enc) && Emittable(x) && c.rip == In(off) && Carries(enc, code, off, x)
    ensures StepX(z, k, dec, code, c) == Exec(z, k, x, off + |enc(x)|, c)
  {
    var rest := code[off + |enc(x)|..];
    assert code[off..] == enc(x) + rest;
  }

  lemma ProcessorExecutes(z: Around, k: Kernel, dec: Decoder, enc: Encoder, code: seq<byte>)
    requires Decodes(dec, enc)
    ensures Executes(Processor(z, k, dec, code), Semantics(z, k), enc, code)
  {
    var step, ex := Processor(z, k, dec, code), Semantics(z, k);
    forall off: nat, x, c: Cpu | Emittable(x) && c.rip == In(off) && Carries(enc, code, off, x)
      ensures step(c) == ex(x, off + |enc(x)|, c)
    {
      StepRuns(z, k, dec, enc, code, off, x, c);
    }
  }

  lemma {:induction false} ReachesMore(step: Cpu -> Option<Cpu>, c: Cpu, n: nat, c1: Cpu, n1: nat, c2: Cpu)
    requires Reaches(step, c, n, c1) && Reaches(step, c1, n1, c2)
    ensures Reaches(step, c, n + n1, c2)
    decreases n
  {
    if n > 0 { ReachesMore(step, step(c).value, n - 1, c1, n1, c2); }
  }

  /** Some number of steps lead from `c` to `c'`. */
  ghost predicate GetsTo(step: Cpu -> Option<Cpu>, c: Cpu, c': Cpu) { exists n: nat :: Reaches(step, c, n, c') }

  lemma GetsFarther(step: Cpu -> Option<Cpu>, c: Cpu, n: nat, c1: Cpu, c2: Cpu)
    requires Reaches(step, c, n, c1) && GetsTo(step, c1, c2)
    ensures GetsTo(step, c, c2)
  {
    var n1: nat :| Reaches(step, c1, n1, c2);
    ReachesMore(step, c, n, c1, n1, c2);
  }

  lemma Head(enc: Encoder, code: seq<byte>, off: nat, x: X, xs: seq<X>)
    requires CarriesAll(enc, code, off, [x] + xs)
    ensures Carries(enc, code, off, x) && CarriesAll(enc, code, off + |enc(x)|, xs)
  {
    EncodeAllSplit(enc, [x], xs);
    EncodeOne(enc, x);
    var all := code[off..off + |EncodeAll(enc, [x] + xs)|];
    assert all[..|enc(x)|] == enc(x) && all[|enc(x)|..] == EncodeAll(enc, xs);
  }

  /** Where the code holds `xs`, the machine gets through them as ExecAll says. */
  lemma {:induction false} StretchRuns(step: Cpu -> Option<Cpu>, ex: Executor, enc: Encoder, code: seq<byte>, off: nat,
                                       xs: seq<X>, c: Cpu)
    requires Executes(step, ex, enc, code) && GoesOn(ex) && StraightLine(xs) && c.rip == In(off)
    requires CarriesAll(enc, code, off, xs) && ExecAll(ex, enc, xs, off, c).Some?
    ensures Reaches(step, c, |xs|, ExecAll(ex, enc, xs, off, c).value)
    decreases |xs|
  {
    if xs != [] {
      var x, rest := xs[0], xs[1..];
      var next := off + |enc(x)|;
      assert xs == [x] + rest;
      Head(enc, code, off, x, rest);
      var c' := ex(x, next, c).value;
      if rest != [] { StretchRuns(step, ex, enc, code, next, rest, c'); }
    }
  }

  /** Executing a list is executing its front, then the rest. */
  lemma {:induction false} ExecSplit(ex: Executor, enc: Encoder, xs: seq<X>, ys: seq<X>, off: nat, c: Cpu)
    requires ExecAll(ex, enc, xs, off, c).Some?
    ensures ExecAll(ex, enc, xs + ys, off, c) == ExecAll(ex, enc, ys, off + |EncodeAll(enc, xs)|,
                                                         ExecAll(ex, enc, xs, off, c).value)
    decreases |xs|
  {
    if xs == [] {
      assert xs + ys == ys;
    } else {
      assert (xs + ys)[1..] == xs[1..] + ys;
      ExecSplit(ex, enc, xs[1..], ys, off + |enc(xs[0])|, ex(xs[0], off + |enc(xs[0])|, c).value);
    }
  }

  /** Sequential instructions leave rip just behind them. */
  lemma {:induction false} ExecRip(ex: Executor, enc: Encoder, xs: seq<X>, off: nat, c: Cpu)
    requires GoesOn(ex) && ExecAll(ex, enc, xs, off, c).Some? && c.rip == In(off)
    requires forall j :: 0 <= j < |xs| ==> Sequential(xs[j])
    ensures ExecAll(ex, enc, xs, off, c).value.rip == In(off + |EncodeAll(enc, xs)|)
    decreases |xs|
  {
    if xs != [] {
      ExecRip(ex, enc, xs[1..], off + |enc(xs[0])|, ex(xs[0], off + |enc(xs[0])|, c).value);
    }
  }

  lemma ExecCons(ex: Executor, enc: Encoder, x: X, xs: seq<X>, off: nat, c: Cpu)
    requires ex(x, off + |enc(x)|, c).Some?
    ensures ExecAll(ex, enc, [x] + xs, off, c) == ExecAll(ex, enc, xs, off + |enc(x)|, ex(x, off + |enc(x)|, c).value)
  {
    assert ([x] + xs)[1..] == xs;
  }

  lemma FourRun(ex: Executor, enc: Encoder, x1: X, x2: X, x3: X, x4: X, off: nat, c: Cpu, c1: Cpu, c2: Cpu, c3: Cpu,
                c4: Cpu)
    requires ex(x1, off + |enc(x1)|, c) == Some(c1)
    requires ex(x2, off + |enc(x1)| + |enc(x2)|, c1) == Some(c2)
    requires ex(x3, off + |enc(x1)| + |enc(x2)| + |enc(x3)|, c2) == Some(c3)
    requires ex(x4, off + |enc(x1)| + |enc(x2)| + |enc(x3)| + |enc(x4)|, c3) == Some(c4)
    ensures ExecAll(ex, enc, [x1, x2, x3, x4], off, c) == Some(c4)
  {
    assert [x1, x2, x3, x4] == [x1] + ([x2] + ([x3] + ([x4] + [])));
    ExecCons(ex, enc, x1, [x2] + ([x3] + ([x4] + [])), off, c);
    ExecCons(ex, enc, x2, [x3] + ([x4] + []), off + |enc(x1)|, c1);
    ExecCons(ex, enc, x3, [x4] + [], off + |enc(x1)| + |enc(x2)|, c2);
    ExecCons(ex, enc, x4, [], off + |enc(x1)| + |enc(x2)| + |enc(x3)|, c3);
  }
}
