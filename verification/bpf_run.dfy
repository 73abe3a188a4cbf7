/** bpf_run's loop, run in any world whose memory and helpers keep to their side. */
module BpfRun {
  import opened Words
  import opened Memory
  import opened BpfInsn
  import opened BpfVerifier
  import opened BpfMachine
  import opened BpfSafety

  /** What memory looks like before step `k`, and what the helper called there does. */
  datatype World = World(around: (nat, Machine) -> Mem, helper: (nat, Machine) -> HelperEffect)

  function Scene(w: World, k: nat, m: Machine): Machine { WithMem(m, w.around(k, m)) }

  /** The world leaves the frame to the program, and its helpers keep to their prototypes. */
  ghost predicate Honest(e: Env, p: Prog, w: World) {
    forall k: nat, m: Machine :: m.pc < |p.insns| ==>
      SameFrame(e, m.mem, w.around(k, m)) && HelperOk(e, p, p.insns[m.pc], Scene(w, k, m), w.helper(k, m))
  }

  /** A verified program, started the way the kernel starts it, in an honest world. */
  ghost predicate Proper(e: Env, p: Prog, w: World, start: Machine, steps: set<(nat, VState)>) {
    ValidEnv(e) && Certified(e.b, p, steps) && Honest(e, p, w) && Initial(e, start)
  }

  function StepOutcome(e: Env, p: Prog, w: World, k: nat, m: Machine): Outcome {
    if m.pc < |p.insns| then Step(e.b, p, Scene(w, k, m), w.helper(k, m)) else Fault
  }

  /** The machine stands at EXIT with `r0` for its answer, and has given back every record it reserved. */
  ghost predicate Leaves(p: Prog, m: Machine, r0: u64) {
    && m.pc < |p.insns| && ClassOf(p.insns[m.pc].code) in {JMP, JMP32} && JmpOpOf(p.insns[m.pc].code) == EXIT
    && r0 == m.regs[0] && m.live == map[] && m.reserved == m.committed
  }

  /** What one more turn of the loop makes of the run so far. */
  ghost predicate Extends(e: Env, p: Prog, tr: seq<Machine>, o: Outcome)
    requires |tr| > 0
  {
    match o
    case Fault => false
    case Next(m) => IsRun(e, p, tr + [m])
    case Exit(v) => Leaves(p, tr[|tr| - 1], v)
  }

  lemma ExitIsExit(b: Bounds, p: Prog, m: Machine, h: HelperEffect)
    requires m.pc < |p.insns| && Step(b, p, m, h).Exit?
    ensures ClassOf(p.insns[m.pc].code) in {JMP, JMP32} && JmpOpOf(p.insns[m.pc].code) == EXIT
    ensures Step(b, p, m, h).r0 == m.regs[0]
  {
  }

  /** One turn of the loop extends a proper run, or leaves it by EXIT. */
  lemma TurnProper(e: Env, p: Prog, w: World, steps: set<(nat, VState)>, tr: seq<Machine>)
    requires |tr| > 0 && Proper(e, p, w, tr[0], steps) && IsRun(e, p, tr)
    ensures tr[|tr| - 1].pc < |p.insns| && |tr| <= |p.insns| <= MAX_INSNS
    ensures Extends(e, p, tr, StepOutcome(e, p, w, |tr| - 1, tr[|tr| - 1]))
  {
    var m, k := tr[|tr| - 1], |tr| - 1;
    RunsAreSafe(e, p, steps, tr);
    assert StepSafe(e, p, tr[k]);
    var o := StepOutcome(e, p, w, k, m);
    assert StepsTo(e, p, m, w.around(k, m), w.helper(k, m), o);
    RunsEndAtExit(e, p, steps, tr, w.around(k, m), w.helper(k, m), o);
    if o.Exit? { ExitIsExit(e.b, p, Scene(w, k, m), w.helper(k, m)); }
  }

  // ---- the loop, for any property of runs that its turns carry on -----------

  ghost predicate CarriedTo(p: Prog, runs: seq<Machine> -> bool, tr: seq<Machine>, o: Outcome)
    requires |tr| > 0
  {
    match o
    case Fault => false
    case Next(m) => runs(tr + [m])
    case Exit(v) => Leaves(p, tr[|tr| - 1], v)
  }

  ghost predicate InTime(p: Prog, tr: seq<Machine>)
    requires |tr| > 0
  {
    tr[|tr| - 1].pc < |p.insns| && |tr| <= |p.insns| <= MAX_INSNS
  }

  ghost predicate CarriedAt(p: Prog, turn: (nat, Machine) -> Outcome, runs: seq<Machine> -> bool, tr: seq<Machine>) {
    |tr| > 0 && runs(tr) ==> InTime(p, tr) && CarriedTo(p, runs, tr, turn(|tr| - 1, tr[|tr| - 1]))
  }

  ghost predicate Carries(p: Prog, turn: (nat, Machine) -> Outcome, runs: seq<Machine> -> bool) {
    forall tr :: CarriedAt(p, turn, runs, tr)
  }

  /** `turn` is a turn of the loop. */
  ghost predicate Turns(e: Env, p: Prog, w: World, turn: (nat, Machine) -> Outcome) {
    forall k: nat, m {:trigger StepOutcome(e, p, w, k, m)} :: turn(k, m) == StepOutcome(e, p, w, k, m)
  }

  /** What the loop returns from its `k`-th turn on: r0 at EXIT or when a guard ends it, 0 for what it does not know. */
  function Result(turn: (nat, Machine) -> Outcome, cnt: nat, k: nat, m: Machine): u64
    decreases MAX_STEPS - k
  {
    if m.pc >= cnt || k >= MAX_STEPS then m.regs[0]
    else match turn(k, m)
         case Fault => 0
         case Exit(v) => v
         case Next(m') => Result(turn, cnt, k + 1, m')
  }

  /** One turn of bpf_run's loop, `good` if the run so far is one its turns carry on. */
  method Turn(e: Env, p: Prog, w: World, k: nat, m: Machine, ghost tr: seq<Machine>,
              ghost turn: (nat, Machine) -> Outcome, ghost runs: seq<Machine> -> bool, ghost good: bool)
      returns (o: Outcome)
    requires m.pc < |p.insns| && |tr| == k + 1 && tr[k] == m && Turns(e, p, w, turn)
    requires good ==> Carries(p, turn, runs) && runs(tr)
    ensures o == turn(k, m)
    ensures good ==> CarriedTo(p, runs, tr, o) && InTime(p, tr)
  {
    o := Step(e.b, p, Scene(w, k, m), w.helper(k, m));
    assert o == StepOutcome(e, p, w, k, m);
    assert good ==> CarriedAt(p, turn, runs, tr);
  }

  lemma GoesOn(p: Prog, turn: (nat, Machine) -> Outcome, k: nat, tr: seq<Machine>, runs: seq<Machine> -> bool)
    requires |tr| == k + 1 && Carries(p, turn, runs) && runs(tr)
    ensures InTime(p, tr)
  {
    assert CarriedAt(p, turn, runs, tr);
  }

  method Loop(e: Env, p: Prog, w: World, start: Machine,
              ghost turn: (nat, Machine) -> Outcome, ghost runs: seq<Machine> -> bool, ghost good: bool)
      returns (r0: u64, ghost tr: seq<Machine>)
    requires Turns(e, p, w, turn)
    requires good ==> Carries(p, turn, runs) && runs([start])
    ensures r0 == Result(turn, |p.insns|, 0, start)
    ensures |tr| > 0 && tr[0] == start
    ensures good ==> runs(tr) && Leaves(p, tr[|tr| - 1], r0) && InTime(p, tr)
  {
    var m := start;
    var count: nat := 0;
    tr := [m];
    while m.pc < |p.insns| && count < MAX_STEPS
      invariant |tr| == count + 1 && tr[0] == start && tr[count] == m
      invariant good ==> runs(tr)
      invariant Result(turn, |p.insns|, count, m) == Result(turn, |p.insns|, 0, start)
      decreases MAX_STEPS - count
    {
      var o := Turn(e, p, w, count, m, tr, turn, runs, good);
      if o.Exit? { return o.r0, tr; }
      if o.Fault? { return 0, tr; }
      m := o.m;
      tr := tr + [m];
      count := count + 1;
    }
    if good { GoesOn(p, turn, count, tr, runs); }
    return m.regs[0], tr;
  }

  ghost function Turning(e: Env, p: Prog, w: World): (nat, Machine) -> Outcome {
    (k: nat, m: Machine) => StepOutcome(e, p, w, k, m)
  }

  // ---- bpf_run --------------------------------------------------------------

  ghost predicate ProperRun(e: Env, p: Prog, w: World, steps: set<(nat, VState)>, tr: seq<Machine>) {
    |tr| > 0 && Proper(e, p, w, tr[0], steps) && IsRun(e, p, tr)
  }

  ghost predicate SaysProper(e: Env, p: Prog, w: World, steps: set<(nat, VState)>, runs: seq<Machine> -> bool) {
    forall tr {:trigger ProperRun(e, p, w, steps, tr)} :: runs(tr) == ProperRun(e, p, w, steps, tr)
  }

  lemma ProperCarries(e: Env, p: Prog, w: World, steps: set<(nat, VState)>, turn: (nat, Machine) -> Outcome,
                      runs: seq<Machine> -> bool)
    requires Turns(e, p, w, turn) && SaysProper(e, p, w, steps, runs)
    ensures Carries(p, turn, runs)
  {
    forall tr
      ensures CarriedAt(p, turn, runs, tr)
    {
      if |tr| > 0 && runs(tr) { CarriedOn(e, p, w, steps, turn, runs, |tr| - 1, tr); }
    }
  }

  lemma CarriedOn(e: Env, p: Prog, w: World, steps: set<(nat, VState)>, turn: (nat, Machine) -> Outcome,
                  runs: seq<Machine> -> bool,
                  k: nat, tr: seq<Machine>)
    requires Turns(e, p, w, turn) && SaysProper(e, p, w, steps, runs) && runs(tr) && |tr| == k + 1
    ensures InTime(p, tr) && CarriedTo(p, runs, tr, turn(k, tr[k]))
  {
    var o := StepOutcome(e, p, w, k, tr[k]);
    assert ProperRun(e, p, w, steps, tr) && turn(k, tr[k]) == o;
    TurnProper(e, p, w, steps, tr);
    if o.Next? {
      StillProper(e, p, w, steps, tr, o.m);
      assert runs(tr + [o.m]);
    }
  }

  lemma StillProper(e: Env, p: Prog, w: World, steps: set<(nat, VState)>, tr: seq<Machine>, m: Machine)
    requires |tr| > 0 && Proper(e, p, w, tr[0], steps) && IsRun(e, p, tr + [m])
    ensures ProperRun(e, p, w, steps, tr + [m])
  {
    assert (tr + [m])[0] == tr[0];
  }

  lemma RunStarts(e: Env, p: Prog, w: World, start: Machine, steps: set<(nat, VState)>)
    requires Proper(e, p, w, start, steps)
    ensures ProperRun(e, p, w, steps, [start])
  {
  }

  /**
   * bpf_run, on any program. For a verified program the loop's own guards never end it: the program leaves by EXIT,
   * within as many steps as it has instructions, holding no record (and every step is safe, by
   * RunsAreSafe).
   */
  method Run(e: Env, p: Prog, w: World, start: Machine, ghost steps: set<(nat, VState)>)
      returns (r0: u64, ghost tr: seq<Machine>)
    ensures r0 == Result(Turning(e, p, w), |p.insns|, 0, start)
    ensures |tr| > 0 && tr[0] == start
    ensures Proper(e, p, w, start, steps) ==> IsRun(e, p, tr) && Leaves(p, tr[|tr| - 1], r0) && |tr| <= |p.insns|
  {
    ghost var runs := (t: seq<Machine>) => ProperRun(e, p, w, steps, t);
    ghost var turn := Turning(e, p, w);
    ghost var good := Proper(e, p, w, start, steps);
    if good {
      RunStarts(e, p, w, start, steps);
      ProperCarries(e, p, w, steps, turn, runs);
    }
    r0, tr := Loop(e, p, w, start, turn, runs, good);
  }
}
