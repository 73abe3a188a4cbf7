/**
 * The walk itself: bpf_verify and verify_path, with their pending stack, pruning cache and the
 * rewriting of map loads. A walk that ends without error leaves a certificate for the program it
 * has rewritten.
 */
module BpfWalk {
  import opened Words
  import opened BpfInsn
  import opened BpfVerifier
  import opened BpfWellFormed
  import opened BpfSafety

  const VERIFY_BUDGET: nat := 262144
  const VERIFY_PENDING: nat := 512

  // ---- map loads ------------------------------------------------------------

  /** A map load that no path has resolved yet. */
  predicate Unresolved(p: Prog, pc: nat)
    requires pc < |p.insns|
  {
    var i := p.insns[pc];
    i.code == WIDE && i.src == 1 && !(0 <= i.off < |p.maps| && i.imm == RESOLVED)
  }

  /** `q` is `p` with the map load at `pc` rewritten to an index, and perhaps one more map held. */
  ghost predicate Rewrites(p: Prog, q: Prog, pc: nat) {
    && pc < |p.insns| == |q.insns| && Unresolved(p, pc) && q.ptype == p.ptype
    && (exists off: i16 :: q.insns == p.insns[pc := p.insns[pc].(off := off, imm := RESOLVED)])
    && p.maps <= q.maps
  }

  /** Instruction `k` of `q` is that of `p`, or is its map load pointed at the map its descriptor named. */
  ghost predicate ResolvedAt(fds: map<int, nat>, p: Prog, q: Prog, k: nat)
    requires k < |p.insns| == |q.insns|
  {
    var i, j := p.insns[k], q.insns[k];
    j == i || (Unresolved(p, k) && i.imm in fds && 0 <= j.off < |q.maps| && q.maps[j.off] == fds[i.imm]
               && j == i.(off := j.off, imm := RESOLVED))
  }

  /** `q` is `p` with some of its map loads resolved, and nothing else changed. */
  ghost predicate ResolvedFrom(fds: map<int, nat>, p: Prog, q: Prog) {
    && |p.insns| == |q.insns| && q.ptype == p.ptype && p.maps <= q.maps
    && forall k :: 0 <= k < |p.insns| ==> ResolvedAt(fds, p, q, k)
  }

  lemma ResolvedOn(fds: map<int, nat>, p: Prog, q: Prog, r: Prog)
    requires ResolvedFrom(fds, p, q) && ResolvedFrom(fds, q, r)
    ensures ResolvedFrom(fds, p, r)
  {
    forall k | 0 <= k < |p.insns|
      ensures ResolvedAt(fds, p, r, k)
    {
      assert ResolvedAt(fds, p, q, k) && ResolvedAt(fds, q, r, k);
    }
  }

  lemma RewritesIs(b: Bounds, fds: map<int, nat>, p: Prog, q: Prog, pc: nat, off: i16)
    requires ProgWf(b, p) && ProgWf(b, q) && pc < |p.insns| && Unresolved(p, pc) && q.ptype == p.ptype
    requires p.maps <= q.maps
    requires q.insns == p.insns[pc := p.insns[pc].(off := off, imm := RESOLVED)]
    requires p.insns[pc].imm in fds && 0 <= off < |q.maps| && q.maps[off] == fds[p.insns[pc].imm]
    ensures Rewrites(p, q, pc) && ResolvedFrom(fds, p, q) && !Unresolved(q, pc)
    ensures forall k :: 0 <= k < |p.insns| ==> Half(q.insns, k) == Half(p.insns, k)
  {
    forall k | 0 <= k < |p.insns|
      ensures Half(q.insns, k) == Half(p.insns, k)
    {
      HalfKept(p, q, pc, k);
    }
  }

  /** The last index at which a program's maps hold `m`; past the end if none does. */
  method Held(maps: seq<nat>, m: nat) returns (known: nat)
    ensures known <= |maps| && (known < |maps| ==> maps[known] == m) && (known == |maps| ==> m !in maps)
  {
    known := |maps|;
    for k := 0 to |maps|
      invariant known <= |maps| && (known < |maps| ==> maps[known] == m)
      invariant known == |maps| ==> m !in maps[..k]
    {
      if maps[k] == m { known := k; }
    }
  }

  lemma {:induction false} HalfKept(p: Prog, q: Prog, at: nat, pc: nat)
    requires Rewrites(p, q, at) && pc < |p.insns|
    ensures Half(q.insns, pc) == Half(p.insns, pc)
    decreases pc
  {
    if pc > 0 { HalfKept(p, q, at, pc - 1); }
  }

  lemma WfKept(b: Bounds, p: Prog, q: Prog, pc: nat, st: VState)
    requires StateWf(b, p, pc, st) && p.maps <= q.maps
    ensures StateWf(b, q, pc, st)
  {
    forall r | 0 <= r < REG_CNT
      ensures RegWf(b, q, pc, st.regs[r])
    {
      assert RegWf(b, p, pc, st.regs[r]);
    }
    forall s | 0 <= s < SLOTS
      ensures SlotWf(b, q, pc, st.slots[s])
    {
      assert SlotWf(b, p, pc, st.slots[s]);
    }
  }

  /** Resolving a load at an instruction not yet stepped changes no verdict already given. */
  lemma VerdictKept(b: Bounds, p: Prog, q: Prog, at: nat, pc: nat, st: VState)
    requires Rewrites(p, q, at) && !Half(p.insns, at) && Stepped(b, p, pc, st)
    ensures VerifyInsn(b, q, pc, st) == VerifyInsn(b, p, pc, st)
    ensures Stepped(b, q, pc, st)
  {
    HalfKept(p, q, at, pc);
    WfKept(b, p, q, pc, st);
    var i := p.insns[pc];
    assert pc != at;
    if ClassOf(i.code) == LD {
      assert i.code == WIDE && Half(p.insns, pc + 1);
      assert q.insns[pc + 1] == p.insns[pc + 1];
    } else if ClassOf(i.code) in {JMP, JMP32} {
      assert VerifyCondSame(p, q, pc, i, st);
    }
  }

  predicate VerifyCondSame(p: Prog, q: Prog, pc: nat, i: Insn, st: VState) {
    i.dst < REG_CNT && i.src < REG_CNT && |p.insns| == |q.insns| ==>
        VerifyCond(p, pc, i, st) == VerifyCond(q, pc, i, st)
  }

  // ---- loops of the verifier --------------------------------------------------

  /** state_covers, register by register and slot by slot. */
  method CheckCovers(o: VState, n: VState) returns (c: bool)
    ensures c == StateCovers(o, n)
  {
    for r := 0 to REG_CNT
      invariant forall k :: 0 <= k < r ==> RegCovers(o.regs[k], n.regs[k])
    {
      if !RegCovers(o.regs[r], n.regs[r]) { return false; }
    }
    for s := 0 to SLOTS
      invariant forall k :: 0 <= k < s ==> SlotCovers(o.slots[k], n.slots[k])
    {
      if !SlotCovers(o.slots[s], n.slots[s]) { return false; }
    }
    if |o.refs| != |n.refs| { return false; }
    for i := 0 to |o.refs|
      invariant forall k :: 0 <= k < i ==> o.refs[k] == n.refs[k]
    {
      if o.refs[i] != n.refs[i] { return false; }
    }
    return true;
  }

  /** The first scan of bpf_verify: mark the second half of every 16-byte load. */
  method MarkHalves(insns: seq<Insn>) returns (half: array<bool>)
    ensures fresh(half) && half.Length == |insns|
    ensures forall k :: 0 <= k < |insns| ==> half[k] == Half(insns, k)
  {
    half := new bool[|insns|](_ => false);
    var pc := 0;
    while pc + 1 < |insns|
      invariant 0 <= pc <= |insns| && half.Length == |insns|
      invariant pc < |insns| ==> !Half(insns, pc)
      invariant forall k :: 0 <= k < pc ==> half[k] == Half(insns, k)
      invariant forall k :: pc <= k < |insns| ==> !half[k]
    {
      if insns[pc].code == WIDE {
        pc := pc + 1;
        half[pc] := true;
      }
      pc := pc + 1;
    }
  }

  /** The argument loop of verify_call. */
  method ScanArgs(b: Bounds, proto: Proto, st: VState) returns (r: Option<Scan>)
    requires |proto.args| <= 5
    ensures r == CheckArgs(b, proto, 0, Scan(st, None, None))
  {
    var s := Scan(st, None, None);
    for a := 0 to |proto.args|
      invariant CheckArgs(b, proto, 0, Scan(st, None, None)) == CheckArgs(b, proto, a, s)
    {
      var next := CheckArg(b, proto, a, s);
      if next.None? { return None; }
      s := next.value;
    }
    return Some(s);
  }

  /** The byte loop of stack_write: every slot a byte of the write falls in becomes plain data. */
  method WriteBytes(slots: array<Slot>, lo: nat, bytes: nat)
    requires slots.Length == SLOTS && lo + bytes <= 8 * SLOTS
    modifies slots
    ensures slots[..] == WriteMisc(old(slots[..]), lo, bytes)
  {
    var b := lo;
    while b < lo + bytes
      invariant lo <= b <= lo + bytes
      invariant forall s :: 0 <= s < SLOTS ==> slots[s] == if Touches(lo, b - lo, s) then Misc else old(slots[s])
    {
      slots[b / 8] := Misc;
      b := b + 1;
    }
  }

  // ---- what a walk in progress has established ------------------------------

  datatype Pending = Pending(pc: nat, st: VState)

  /** (pc, st) needs no more work: it is covered, or waiting, or the path being walked. */
  ghost predicate Handled(stepped: set<(nat, VState)>, pend: seq<Pending>, here: Option<Pending>, pc: nat, st: VState) {
    Covered(stepped, pc, st) || Pending(pc, st) in pend || here == Some(Pending(pc, st))
  }

  ghost predicate SuccessorsHandled(b: Bounds, p: Prog, stepped: set<(nat, VState)>, pend: seq<Pending>,
                                    here: Option<Pending>, pc: nat, st: VState)
    requires pc < |p.insns|
  {
    forall pc', st' :: Continues(VerifyInsn(b, p, pc, st), pc', st') ==> Handled(stepped, pend, here, pc', st')
  }

  /**
   * Between steps, with `here` the path being walked: every state stepped was accepted, and nothing it leads to is
   * forgotten.
   */
  ghost predicate WalkInv(b: Bounds, p: Prog, stepped: set<(nat, VState)>, pend: seq<Pending>, here: Option<Pending>) {
    && ProgWf(b, p)
    && Handled(stepped, pend, here, 0, Start)
    && (forall pc, st :: (pc, st) in stepped ==>
        Stepped(b, p, pc, st) && SuccessorsHandled(b, p, stepped, pend, here, pc, st))
    && (forall q :: q in pend ==> StateWf(b, p, q.pc, q.st))
    && (here.Some? ==> StateWf(b, p, here.value.pc, here.value.st))
  }

  /** Handled work stays handled when `here` moves on, as long as what it was is accounted for. */
  lemma HandledKept(stepped: set<(nat, VState)>, pend: seq<Pending>, here: Option<Pending>,
                    stepped': set<(nat, VState)>, pend': seq<Pending>, here': Option<Pending>, pc: nat, st: VState)
    requires Handled(stepped, pend, here, pc, st) && stepped <= stepped'
    requires forall q :: q in pend ==> Handled(stepped', pend', here', q.pc, q.st)
    requires here.Some? ==> Handled(stepped', pend', here', here.value.pc, here.value.st)
    ensures Handled(stepped', pend', here', pc, st)
  {
    if Covered(stepped, pc, st) {
      var o: VState :| (pc, o) in stepped && StateCovers(o, st);
      assert (pc, o) in stepped';
    }
  }

  /** Replace `here`, the pending stack and the stepped set at once, and keep the invariant. */
  lemma WalkMoves(b: Bounds, p: Prog, stepped: set<(nat, VState)>, pend: seq<Pending>, here: Option<Pending>,
                  stepped': set<(nat, VState)>, pend': seq<Pending>, here': Option<Pending>)
    requires WalkInv(b, p, stepped, pend, here) && stepped <= stepped'
    requires forall q :: q in pend ==> Handled(stepped', pend', here', q.pc, q.st)
    requires here.Some? ==> Handled(stepped', pend', here', here.value.pc, here.value.st)
    requires forall pc, st :: (pc, st) in stepped' && (pc, st) !in stepped ==>
               Stepped(b, p, pc, st) && SuccessorsHandled(b, p, stepped', pend', here', pc, st)
    requires forall q :: q in pend' ==> StateWf(b, p, q.pc, q.st)
    requires here'.Some? ==> StateWf(b, p, here'.value.pc, here'.value.st)
    ensures WalkInv(b, p, stepped', pend', here')
  {
    HandledKept(stepped, pend, here, stepped', pend', here', 0, Start);
    forall pc, st | (pc, st) in stepped
      ensures SuccessorsHandled(b, p, stepped', pend', here', pc, st)
    {
      forall pc', st' | Continues(VerifyInsn(b, p, pc, st), pc', st')
        ensures Handled(stepped', pend', here', pc', st')
      {
        assert Handled(stepped, pend, here, pc', st');
        HandledKept(stepped, pend, here, stepped', pend', here', pc', st');
      }
    }
  }

  lemma CoversItself(stepped: set<(nat, VState)>, pc: nat, st: VState)
    requires (pc, st) in stepped
    ensures Covered(stepped, pc, st)
  {
    assert StateCovers(st, st);
  }

  /** Where the walk goes on after verdict `v`, and what it puts aside. */
  function NextHere(v: Verdict): Option<Pending> {
    match v case Go(pc, st) => Some(Pending(pc, st)) case Fork(pc, st, _, _) => Some(Pending(pc, st)) case _ => None
  }

  function NextPend(v: Verdict, pend: seq<Pending>): seq<Pending> {
    if v.Fork? then pend + [Pending(v.target, v.other)] else pend
  }

  /**
   * Stepping the state at `here` keeps the invariant: its successors are where the walk goes next or on the pending
   * stack.
   */
  lemma WalkSteps(b: Bounds, p: Prog, stepped: set<(nat, VState)>, pend: seq<Pending>, pc: nat, st: VState)
    requires WalkInv(b, p, stepped, pend, Some(Pending(pc, st))) && Stepped(b, p, pc, st)
    ensures WalkInv(b, p, stepped + {(pc, st)}, NextPend(VerifyInsn(b, p, pc, st), pend),
                    NextHere(VerifyInsn(b, p, pc, st)))
  {
    var v := VerifyInsn(b, p, pc, st);
    var stepped', pend', here' := stepped + {(pc, st)}, NextPend(v, pend), NextHere(v);
    CoversItself(stepped', pc, st);
    forall pc', st' | Continues(v, pc', st')
      ensures Handled(stepped', pend', here', pc', st') && StateWf(b, p, pc', st')
    {
      StepKeepsWf(b, p, pc, st, pc', st');
      if v.Fork? { assert pend'[|pend|] == Pending(v.target, v.other); }
    }
    assert SuccessorsHandled(b, p, stepped', pend', here', pc, st);
    assert here'.Some? ==> Continues(v, here'.value.pc, here'.value.st);
    assert v.Fork? ==> Continues(v, v.target, v.other);
    WalkMoves(b, p, stepped, pend, Some(Pending(pc, st)), stepped', pend', here');
  }

  /** A path that meets a covering state is done. */
  lemma WalkPrunes(b: Bounds, p: Prog, stepped: set<(nat, VState)>, pend: seq<Pending>, pc: nat, st: VState)
    requires WalkInv(b, p, stepped, pend, Some(Pending(pc, st))) && Covered(stepped, pc, st)
    ensures WalkInv(b, p, stepped, pend, None)
  {
    WalkMoves(b, p, stepped, pend, Some(Pending(pc, st)), stepped, pend, None);
  }

  /** Taking a path off the pending stack. */
  lemma WalkPops(b: Bounds, p: Prog, stepped: set<(nat, VState)>, pend: seq<Pending>)
    requires WalkInv(b, p, stepped, pend, None) && pend != []
    ensures WalkInv(b, p, stepped, pend[..|pend| - 1], Some(pend[|pend| - 1]))
  {
    WalkMoves(b, p, stepped, pend, None, stepped, pend[..|pend| - 1], Some(pend[|pend| - 1]));
  }

  /** The program changed under the walk; nothing it has established is lost. */
  lemma WalkRewrites(b: Bounds, p: Prog, q: Prog, at: nat, stepped: set<(nat, VState)>, pend: seq<Pending>,
                     here: Option<Pending>)
    requires WalkInv(b, p, stepped, pend, here) && Rewrites(p, q, at) && !Half(p.insns, at) && ProgWf(b, q)
    ensures WalkInv(b, q, stepped, pend, here)
  {
    forall pc, st | (pc, st) in stepped
      ensures Stepped(b, q, pc, st) && SuccessorsHandled(b, q, stepped, pend, here, pc, st)
    {
      assert SuccessorsHandled(b, p, stepped, pend, here, pc, st);
      VerdictKept(b, p, q, at, pc, st);
    }
    forall w | w in pend ensures StateWf(b, q, w.pc, w.st) { WfKept(b, p, q, w.pc, w.st); }
    if here.Some? { WfKept(b, p, q, here.value.pc, here.value.st); }
  }

  /** When nothing is left to walk, what was stepped is a certificate. */
  lemma WalkCertifies(b: Bounds, p: Prog, stepped: set<(nat, VState)>)
    requires WalkInv(b, p, stepped, [], None)
    ensures Certified(b, p, stepped)
  {
    forall pc, st | (pc, st) in stepped
      ensures SuccessorsCovered(b, p, stepped, pc, st)
    {
      assert SuccessorsHandled(b, p, stepped, [], None, pc, st);
      forall pc', st' | Continues(VerifyInsn(b, p, pc, st), pc', st')
        ensures Covered(stepped, pc', st')
      {
        assert Handled(stepped, [], None, pc', st');
      }
    }
  }

  // ---- where a walk has been ------------------------------------------------

  type Judge = (nat, VState) -> Verdict

  /** The verifier's verdicts on a program; past its end, refusal. */
  ghost function Verdicts(b: Bounds, p: Prog): Judge {
    (pc: nat, st: VState) => if pc < |p.insns| then VerifyInsn(b, p, pc, st) else Reject
  }

  /** The verdict on `o` hands on (pc, st). */
  ghost predicate Leads(judge: Judge, o: (nat, VState), pc: nat, st: VState) { Continues(judge(o.0, o.1), pc, st) }

  ghost predicate Reached(judge: Judge, root: VState, stepped: set<(nat, VState)>, pc: nat, st: VState) {
    (pc == 0 && st == root) || exists o :: o in stepped && Leads(judge, o, pc, st)
  }

  /** The walk invents no state: all it has stepped or still holds was handed on by a step it took. */
  ghost predicate Trail(judge: Judge, root: VState, stepped: set<(nat, VState)>, pend: seq<Pending>,
                        here: Option<Pending>) {
    && (forall pc, st :: (pc, st) in stepped ==> Reached(judge, root, stepped, pc, st))
    && (forall q :: q in pend ==> Reached(judge, root, stepped, q.pc, q.st))
    && (here.Some? ==> Reached(judge, root, stepped, here.value.pc, here.value.st))
  }

  lemma ReachedMore(judge: Judge, root: VState, stepped: set<(nat, VState)>, stepped': set<(nat, VState)>, pc: nat,
                    st: VState)
    requires Reached(judge, root, stepped, pc, st) && stepped <= stepped'
    ensures Reached(judge, root, stepped', pc, st)
  {
    if !(pc == 0 && st == root) {
      var o :| o in stepped && Leads(judge, o, pc, st);
      assert o in stepped';
    }
  }

  lemma ReachedNext(judge: Judge, root: VState, stepped: set<(nat, VState)>, o: (nat, VState), pc: nat, st: VState)
    requires o in stepped && Leads(judge, o, pc, st)
    ensures Reached(judge, root, stepped, pc, st)
  {
  }

  lemma TrailHere(judge: Judge, root: VState, stepped: set<(nat, VState)>, pc: nat, st: VState)
    requires (pc, st) in stepped
    ensures var here := NextHere(judge(pc, st));
            here.Some? ==> Reached(judge, root, stepped, here.value.pc, here.value.st)
    ensures var v := judge(pc, st); v.Fork? ==> Reached(judge, root, stepped, v.target, v.other)
  {
    var v := judge(pc, st);
    if NextHere(v).Some? { ReachedNext(judge, root, stepped, (pc, st), NextHere(v).value.pc, NextHere(v).value.st); }
    if v.Fork? { ReachedNext(judge, root, stepped, (pc, st), v.target, v.other); }
  }

  lemma TrailSteps(judge: Judge, root: VState, stepped: set<(nat, VState)>, pend: seq<Pending>, pc: nat, st: VState)
    requires Trail(judge, root, stepped, pend, Some(Pending(pc, st)))
    ensures Trail(judge, root, stepped + {(pc, st)}, NextPend(judge(pc, st), pend), NextHere(judge(pc, st)))
  {
    var v, stepped' := judge(pc, st), stepped + {(pc, st)};
    forall pc', st' | (pc', st') in stepped'
      ensures Reached(judge, root, stepped', pc', st')
    {
      ReachedMore(judge, root, stepped, stepped', pc', st');
    }
    forall q | q in pend
      ensures Reached(judge, root, stepped', q.pc, q.st)
    {
      ReachedMore(judge, root, stepped, stepped', q.pc, q.st);
    }
    TrailHere(judge, root, stepped', pc, st);
  }

  ghost predicate Agree(judge: Judge, judge': Judge, stepped: set<(nat, VState)>) {
    forall pc, st :: (pc, st) in stepped ==> judge(pc, st) == judge'(pc, st)
  }

  lemma ReachedKept(judge: Judge, judge': Judge, root: VState, stepped: set<(nat, VState)>, pc: nat, st: VState)
    requires Reached(judge, root, stepped, pc, st) && Agree(judge, judge', stepped)
    ensures Reached(judge', root, stepped, pc, st)
  {
    if !(pc == 0 && st == root) {
      var o :| o in stepped && Leads(judge, o, pc, st);
      assert (o.0, o.1) in stepped;
      assert Leads(judge', o, pc, st);
    }
  }

  lemma TrailKept(judge: Judge, judge': Judge, root: VState, stepped: set<(nat, VState)>, pend: seq<Pending>,
                  here: Option<Pending>)
    requires Trail(judge, root, stepped, pend, here) && Agree(judge, judge', stepped)
    ensures Trail(judge', root, stepped, pend, here)
  {
    forall pc, st | (pc, st) in stepped
      ensures Reached(judge', root, stepped, pc, st)
    {
      ReachedKept(judge, judge', root, stepped, pc, st);
    }
    forall w | w in pend
      ensures Reached(judge', root, stepped, w.pc, w.st)
    {
      ReachedKept(judge, judge', root, stepped, w.pc, w.st);
    }
    if here.Some? { ReachedKept(judge, judge', root, stepped, here.value.pc, here.value.st); }
  }

  /** Resolving a map load keeps the trail. */
  lemma TrailRewrites(b: Bounds, p: Prog, q: Prog, at: nat, root: VState, stepped: set<(nat, VState)>,
                      pend: seq<Pending>, here: Option<Pending>)
    requires Trail(Verdicts(b, p), root, stepped, pend, here) && Rewrites(p, q, at) && !Half(p.insns, at)
    requires forall pc, st :: (pc, st) in stepped ==> Stepped(b, p, pc, st)
    ensures Trail(Verdicts(b, q), root, stepped, pend, here)
  {
    forall pc, st | (pc, st) in stepped
      ensures Verdicts(b, p)(pc, st) == Verdicts(b, q)(pc, st)
    {
      VerdictKept(b, p, q, at, pc, st);
    }
    TrailKept(Verdicts(b, p), Verdicts(b, q), root, stepped, pend, here);
  }

  /** A path of the abstract machine from the entry state: each state is handed on by the one before. */
  ghost predicate AbstractPath(judge: Judge, root: VState, path: seq<(nat, VState)>) {
    && path != [] && path[0] == (0, root)
    && forall k :: 0 <= k < |path| - 1 ==> Leads(judge, path[k], path[k + 1].0, path[k + 1].1)
  }

  ghost predicate Forward(judge: Judge, stepped: set<(nat, VState)>) {
    forall o, pc, st :: o in stepped && Leads(judge, o, pc, st) ==> o.0 < pc
  }

  /** Whatever the walk reached, a path of accepted instructions leads to from the entry. */
  lemma {:induction false} TrailIsPath(judge: Judge, root: VState, stepped: set<(nat, VState)>, pc: nat,
                                       st: VState) returns (path: seq<(nat, VState)>)
    requires Trail(judge, root, stepped, [], None) && Reached(judge, root, stepped, pc, st) && Forward(judge, stepped)
    ensures AbstractPath(judge, root, path) && path[|path| - 1] == (pc, st)
    decreases pc
  {
    if pc == 0 && st == root {
      path := [(0, root)];
    } else {
      var o :| o in stepped && Leads(judge, o, pc, st);
      assert (o.0, o.1) in stepped;
      var before := TrailIsPath(judge, root, stepped, o.0, o.1);
      path := before + [(pc, st)];
    }
  }

  lemma StepsForward(b: Bounds, p: Prog, stepped: set<(nat, VState)>)
    requires ProgWf(b, p) && forall pc, st :: (pc, st) in stepped ==> Stepped(b, p, pc, st)
    ensures Forward(Verdicts(b, p), stepped)
  {
    forall o, pc, st | o in stepped && Leads(Verdicts(b, p), o, pc, st)
      ensures o.0 < pc
    {
      assert (o.0, o.1) in stepped;
      StepKeepsWf(b, p, o.0, o.1, pc, st);
    }
  }

  /** The map load at `pc` cannot be resolved: its descriptor names no map, or one the program has no room to hold. */
  ghost predicate Unresolvable(b: Bounds, fds: map<int, nat>, p: Prog, pc: nat)
    requires pc < |p.insns|
  {
    var i := p.insns[pc];
    Unresolved(p, pc)
    && (i.imm !in fds || fds[i.imm] >= |b.defs| || (fds[i.imm] !in p.maps && |p.maps| >= PROG_MAX_MAPS))
  }

  /** What verify_path and verify_insn refuse at (pc, st), with `waiting` paths put aside. */
  ghost predicate Bad(b: Bounds, fds: map<int, nat>, p: Prog, waiting: nat, pc: nat, st: VState) {
    || pc >= |p.insns| || Half(p.insns, pc) || Unresolvable(b, fds, p, pc) || VerifyInsn(b, p, pc, st) == Reject
    || (VerifyInsn(b, p, pc, st).Fork? && waiting >= VERIFY_PENDING)
  }

  /** A refusal has its reason: the step budget is spent, or a path from the entry leads to a state that is refused. */
  ghost predicate Refused(b: Bounds, fds: map<int, nat>, p: Prog, steps: nat, waiting: nat) {
    steps > VERIFY_BUDGET || exists path: seq<(nat, VState)> ::
        AbstractPath(Verdicts(b, p), Start, path) && Bad(b, fds, p, waiting, path[|path| - 1].0, path[|path| - 1].1)
  }

  lemma RefusedHere(b: Bounds, fds: map<int, nat>, p: Prog, steps: nat, stepped: set<(nat, VState)>, pend: seq<Pending>,
                    pc: nat, st: VState)
    requires WalkInv(b, p, stepped, pend, Some(Pending(pc, st)))
    requires Trail(Verdicts(b, p), Start, stepped, pend, Some(Pending(pc, st)))
    requires Bad(b, fds, p, |pend|, pc, st)
    ensures Refused(b, fds, p, steps, |pend|)
  {
    StepsForward(b, p, stepped);
    var path := TrailIsPath(Verdicts(b, p), Start, stepped, pc, st);
  }

  // ---- the walk -----------------------------------------------------------------

  class Walk {
    const b: Bounds
    /** The loader's descriptors that name maps. */
    const fds: map<int, nat>
    var prog: Prog
    var half: array<bool>
    var cache: array<Option<VState>>
    var pend: seq<Pending>
    var steps: nat
    /** Every state the walk has stepped. */
    ghost var stepped: set<(nat, VState)>

    ghost predicate Tables()
      reads `prog, `half, `cache, `pend, `stepped, half, cache
    {
      && half.Length == cache.Length == |prog.insns|
      && (forall k :: 0 <= k < |prog.insns| ==> half[k] == Half(prog.insns, k))
      && (forall k :: 0 <= k < |prog.insns| && cache[k].Some? ==> (k, cache[k].value) in stepped)
    }

    ghost predicate Valid(here: Option<Pending>)
      reads `prog, `half, `cache, `pend, `stepped, half, cache
    {
      Tables() && WalkInv(b, prog, stepped, pend, here) && Trail(Verdicts(b, prog), Start, stepped, pend, here)
    }

    constructor (defs: seq<MapDef>, prog: Prog, fds: map<int, nat>)
      requires ProgWf(Bounds(defs, CtxSize(prog.ptype)), prog)
      ensures Valid(Some(Pending(0, Start)))
      ensures b == Bounds(defs, CtxSize(prog.ptype)) && this.fds == fds && this.prog == prog
      ensures pend == [] && steps == 0 && fresh(half) && fresh(cache)
    {
      b, this.prog, this.fds := Bounds(defs, CtxSize(prog.ptype)), prog, fds;
      pend, steps, stepped := [], 0, {};
      var marks := MarkHalves(prog.insns);
      half := marks;
      cache := new Option<VState>[|prog.insns|](_ => None);
      new;
      StartWf(b, prog);
    }

    /** Resolve the map load at `pc`, if it is one and no path has: the BPF_PSEUDO_MAP_FD half of verify_insn. */
    method Resolve(pc: nat, ghost here: Pending) returns (ok: bool)
      requires Valid(Some(here)) && pc < |prog.insns| && !Half(prog.insns, pc)
      modifies this`prog
      ensures Valid(Some(here)) && ResolvedFrom(fds, old(prog), prog)
      ensures if ok then !Unresolved(prog, pc) else prog == old(prog) && Unresolvable(b, fds, prog, pc)
    {
      if !Unresolved(prog, pc) { return true; }
      var i := prog.insns[pc];
      if i.imm !in fds || fds[i.imm] >= |b.defs| { return false; }
      var m := fds[i.imm];
      var known := Held(prog.maps, m);
      if known == |prog.maps| && |prog.maps| >= PROG_MAX_MAPS { return false; }
      ghost var p := prog;
      var maps := if known < |prog.maps| then prog.maps else prog.maps + [m];
      var off: i16 := known;
      prog := Prog(prog.insns[pc := i.(off := off, imm := RESOLVED)], maps, prog.ptype);
      RewritesIs(b, fds, p, prog, pc, off);
      WalkRewrites(b, p, prog, pc, stepped, pend, Some(here));
      TrailRewrites(b, p, prog, pc, Start, stepped, pend, Some(here));
      ok := true;
    }

    /** Whether a state at least as general as `st` was stepped here before. */
    method Pruned(pc: nat, st: VState) returns (seen: bool)
      requires Valid(Some(Pending(pc, st))) && pc < |prog.insns|
      ensures seen ==> Valid(None)
    {
      if cache[pc].None? { return false; }
      seen := CheckCovers(cache[pc].value, st);
      if seen { WalkPrunes(b, prog, stepped, pend, pc, st); }
    }

    /** verify_insn on a resolved instruction, and vpush's limit on the paths put aside. */
    method Judged(pc: nat, st: VState) returns (v: Verdict)
      requires Valid(Some(Pending(pc, st))) && pc < |prog.insns| && !Half(prog.insns, pc)
      ensures v == Reject ==> Refused(b, fds, prog, steps, |pend|)
      ensures v != Reject ==>
                && WalkInv(b, prog, stepped + {(pc, st)}, NextPend(v, pend), NextHere(v))
                && Trail(Verdicts(b, prog), Start, stepped + {(pc, st)}, NextPend(v, pend), NextHere(v))
    {
      v := VerifyInsn(b, prog, pc, st);
      if v == Reject || (v.Fork? && |pend| >= VERIFY_PENDING) {
        RefusedHere(b, fds, prog, steps, stepped, pend, pc, st);
        return Reject;
      }
      WalkSteps(b, prog, stepped, pend, pc, st);
      TrailSteps(Verdicts(b, prog), Start, stepped, pend, pc, st);
    }

    /**
     * Step the instruction at `pc` in state `st`: resolve it, verify it, remember the state and put the
     * other arm aside. A refusal throws the cache away, so it is written once the instruction has passed.
     */
    method Take(pc: nat, st: VState) returns (v: Verdict)
      requires Valid(Some(Pending(pc, st))) && pc < |prog.insns| && !half[pc]
      modifies this`prog, this`pend, this`stepped, cache
      ensures v != Reject ==> Valid(NextHere(v))
      ensures v == Reject ==> Refused(b, fds, prog, steps, |pend|)
      ensures ResolvedFrom(fds, old(prog), prog)
    {
      var resolved := Resolve(pc, Pending(pc, st));
      if !resolved {
        RefusedHere(b, fds, prog, steps, stepped, pend, pc, st);
        return Reject;
      }
      v := Judged(pc, st);
      if v == Reject { return; }
      cache[pc] := Some(st);
      stepped := stepped + {(pc, st)};
      pend := NextPend(v, pend);
    }

    /** One turn of verify_path's loop; None refuses the program, Some(here) says where the walk then is. */
    method Turn(at: Pending) returns (r: Option<Option<Pending>>)
      requires Valid(Some(at)) && steps <= VERIFY_BUDGET
      modifies this`prog, this`pend, this`steps, this`stepped, cache
      ensures r.Some? ==> Valid(r.value) && steps == old(steps) + 1 && steps <= VERIFY_BUDGET
      ensures r.None? ==> Refused(b, fds, prog, steps, |pend|)
      ensures ResolvedFrom(fds, old(prog), prog)
    {
      steps := steps + 1;
      if steps > VERIFY_BUDGET { return None; }
      if at.pc >= |prog.insns| || half[at.pc] {
        RefusedHere(b, fds, prog, steps, stepped, pend, at.pc, at.st);
        return None;
      }
      var seen := Pruned(at.pc, at.st);
      if seen { return Some(None); }
      var v := Take(at.pc, at.st);
      return if v == Reject then None else Some(NextHere(v));
    }

    /** verify_path: walk from `start` until the path ends, meets a covering state, or is refused. */
    method VerifyPath(start: Pending) returns (ok: bool)
      requires Valid(Some(start)) && steps <= VERIFY_BUDGET
      modifies this`prog, this`pend, this`steps, this`stepped, cache
      ensures ok ==> Valid(None) && old(steps) < steps <= VERIFY_BUDGET
      ensures !ok ==> Refused(b, fds, prog, steps, |pend|)
      ensures ResolvedFrom(fds, old(prog), prog)
    {
      var here := Some(start);
      while here.Some?
        invariant Valid(here) && old(steps) <= steps <= VERIFY_BUDGET
        invariant here.None? ==> old(steps) < steps
        invariant ResolvedFrom(fds, old(prog), prog)
        decreases VERIFY_BUDGET - steps
      {
        ghost var p := prog;
        var r := Turn(here.value);
        ResolvedOn(fds, old(prog), p, prog);
        if r.None? { return false; }
        here := r.value;
      }
      return true;
    }

    /**
     * bpf_verify: walk the program, then every path put aside, until none is left. It accepts with a
     * certificate, refuses only for a reason, and changes nothing of the program but its map loads.
     */
    method Verify() returns (ok: bool)
      requires Valid(Some(Pending(0, Start))) && pend == [] && steps == 0
      modifies this`prog, this`pend, this`steps, this`stepped, cache
      ensures ok ==> Certified(b, prog, stepped)
      ensures !ok ==> Refused(b, fds, prog, steps, |pend|)
      ensures ResolvedFrom(fds, old(prog), prog)
    {
      ok := VerifyPath(Pending(0, Start));
      while ok && pend != []
        invariant ok ==> Valid(None) && steps <= VERIFY_BUDGET
        invariant !ok ==> Refused(b, fds, prog, steps, |pend|)
        invariant ResolvedFrom(fds, old(prog), prog)
        decreases if ok then VERIFY_BUDGET + 1 - steps else 0
      {
        var q := pend[|pend| - 1];
        WalkPops(b, prog, stepped, pend);
        pend := pend[..|pend| - 1];
        ghost var p := prog;
        ok := VerifyPath(q);
        ResolvedOn(fds, old(prog), p, prog);
      }
      if ok { WalkCertifies(b, prog, stepped); }
    }
  }
}
