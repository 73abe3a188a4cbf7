/**
 * The I/O priority gate of kernel/dev/blk.c: one task at a time has a device, and the next is the best of those
 * waiting.
 */
module IoGate {
  import opened Words

  const AGE_TICKS: nat := 2
  const AGE_STEP: nat := 512

  datatype Waiter = Waiter(used: bool, admitted: bool, task: nat, prio: nat, queuedAt: nat)

  // ---- priorities -----------------------------------------------------------

  /** blk_io_prio_of_current: class above level, an unset class counting as best-effort; lower is better. */
  function PrioOf(raw: int): (p: nat)
    ensures 8192 <= p < 65536
  {
    var r := if raw < 0 then 0 else raw;
    var cls := r / 8192 % 8;
    (if cls == 0 then 2 else cls) * 8192 + r % 8192
  }

  /** blk_io_effective_prio: better by 512 for every two ticks waited, down to 0. */
  function Effective(w: Waiter, now: nat): nat {
    var waited := if now > w.queuedAt then now - w.queuedAt else 0;
    var boost := waited / AGE_TICKS * AGE_STEP;
    if boost >= w.prio then 0 else w.prio - boost
  }

  predicate Eligible(w: Waiter) { w.used && !w.admitted }

  /** The choice of blk_io_end: the first of the best among those waiting. */
  ghost predicate Best(ws: seq<Waiter>, now: nat, i: nat) {
    && i < |ws| && Eligible(ws[i])
    && (forall j :: 0 <= j < |ws| && Eligible(ws[j]) ==> Effective(ws[i], now) <= Effective(ws[j], now))
    && (forall j :: 0 <= j < i && Eligible(ws[j]) ==> Effective(ws[i], now) < Effective(ws[j], now))
  }

  method Choose(ws: seq<Waiter>, now: nat) returns (best: Option<nat>)
    ensures best.None? <==> forall j :: 0 <= j < |ws| ==> !Eligible(ws[j])
    ensures best.Some? ==> Best(ws, now, best.value)
  {
    best := None;
    var bestPrio := 0;
    for i := 0 to |ws|
      invariant best.None? ==> forall j :: 0 <= j < i ==> !Eligible(ws[j])
      invariant best.Some? ==>
                best.value < i && Best(ws[..i], now, best.value) && bestPrio == Effective(ws[best.value], now)
    {
      assert ws[..i + 1] == ws[..i] + [ws[i]];
      if Eligible(ws[i]) {
        var p := Effective(ws[i], now);
        if best.None? || p < bestPrio { best, bestPrio := Some(i), p; }
      }
    }
    assert ws[..|ws|] == ws;
  }

  lemma FreshPositive(w: Waiter, now: nat)
    requires 8192 <= w.prio
    ensures now < w.queuedAt + 32 ==> Effective(w, now) > 0
  {
  }

  /** Two and a half seconds of waiting beats anything that has waited less than a third of one. */
  lemma NotPassedOver(ws: seq<Waiter>, now: nat, i: nat, j: nat)
    requires Best(ws, now, i) && j < |ws| && Eligible(ws[j])
    requires ws[i].queuedAt <= now && ws[j].queuedAt + 256 <= now && 8192 <= ws[i].prio && ws[j].prio < 65536
    ensures now - ws[i].queuedAt >= 32
  {
    assert (now - ws[j].queuedAt) / AGE_TICKS >= 128;
    assert Effective(ws[j], now) == 0;
    FreshPositive(ws[i], now);
  }

  // ---- the gate -------------------------------------------------------------

  datatype Task = Away | Holding | Queued(slot: nat) | Spinning

  /** One device's gate, what every task is doing about it, and the clock. */
  datatype Gate = Gate(busy: bool, waiters: seq<Waiter>, tasks: seq<Task>, now: nat)

  /** A lock-held section of blk_io_begin or blk_io_end, or the clock moving on. */
  datatype Step =
    | Enter(t: nat)
    | Queue(t: nat, slot: nat, raw: int)
    | Spin(t: nat)
    | Grab(t: nat)
    | Go(t: nat)
    | End(t: nat)
    | Tick

  ghost predicate Guard(g: Gate, s: Step) {
    match s
    case Enter(t) => t < |g.tasks| && g.tasks[t] == Away && !g.busy
    case Queue(t, i, _) => t < |g.tasks| && g.tasks[t] == Away && g.busy && i < |g.waiters| && !g.waiters[i].used
    case Spin(t) => t < |g.tasks| && g.tasks[t] == Away && g.busy && forall i :: 0 <= i < |g.waiters| ==>
        g.waiters[i].used
    case Grab(t) => t < |g.tasks| && g.tasks[t] == Spinning && !g.busy
    case Go(t) =>
        t < |g.tasks| && g.tasks[t].Queued? && g.tasks[t].slot < |g.waiters| && g.waiters[g.tasks[t].slot].admitted
    case End(t) => t < |g.tasks| && g.tasks[t] == Holding
    case Tick => true
  }

  /** The gate after a section; an end hands over to `next`, the best waiter, if anyone waits. */
  ghost predicate Moves(g: Gate, s: Step, next: Option<nat>, g': Gate) {
    && Guard(g, s)
    && match s
       case Enter(t) => g' == g.(busy := true, tasks := g.tasks[t := Holding])
       case Queue(t, i, raw) =>
         g' == g.(waiters := g.waiters[i := Waiter(true, false, t, PrioOf(raw), g.now)],
                  tasks := g.tasks[t := Queued(i)])
       case Spin(t) => g' == g.(tasks := g.tasks[t := Spinning])
       case Grab(t) => g' == g.(busy := true, tasks := g.tasks[t := Holding])
       case Go(t) =>
         var i := g.tasks[t].slot;
         g' == g.(waiters := g.waiters[i := g.waiters[i].(used := false, admitted := false)],
                  tasks := g.tasks[t := Holding])
       case End(t) =>
         (match next
          case None =>
              (forall j :: 0 <= j < |g.waiters| ==> !Eligible(g.waiters[j]))
                  && g' == g.(busy := false, tasks := g.tasks[t := Away])
          case Some(i) =>
            && Best(g.waiters, g.now, i)
            && g' == g.(waiters := g.waiters[i := g.waiters[i].(admitted := true)], tasks := g.tasks[t := Away]))
       case Tick => g' == g.(now := g.now + 1)
  }

  // ---- what always holds ----------------------------------------------------

  /** Task `t` has the gate, or has been given it and not yet noticed. */
  predicate Has(g: Gate, t: nat) {
    && t < |g.tasks|
    && (g.tasks[t] == Holding
        || (g.tasks[t].Queued? && g.tasks[t].slot < |g.waiters| && g.waiters[g.tasks[t].slot].admitted))
  }

  ghost predicate SlotsOk(g: Gate) {
    && (forall i :: 0 <= i < |g.waiters| && g.waiters[i].used ==>
          g.waiters[i].task < |g.tasks| && g.tasks[g.waiters[i].task] == Queued(i) && g.waiters[i].queuedAt <= g.now
          && 8192 <= g.waiters[i].prio < 65536)
    && (forall i :: 0 <= i < |g.waiters| && g.waiters[i].admitted ==> g.waiters[i].used)
    && (forall t :: 0 <= t < |g.tasks| && g.tasks[t].Queued? ==>
          g.tasks[t].slot < |g.waiters| && g.waiters[g.tasks[t].slot].used && g.waiters[g.tasks[t].slot].task == t)
  }

  ghost predicate Inv(g: Gate) {
    && SlotsOk(g)
    && (forall t: nat, t': nat :: Has(g, t) && Has(g, t') ==> t == t')
    && (g.busy <==> exists t: nat :: Has(g, t))
  }

  lemma SlotsKept(g: Gate, s: Step, next: Option<nat>, g': Gate)
    requires Inv(g) && Moves(g, s, next, g')
    ensures SlotsOk(g')
  {
  }

  /** Who has the gate after a section, given who had it before. */
  lemma OwnerAfter(g: Gate, s: Step, next: Option<nat>, g': Gate, t: nat)
    requires Inv(g) && Moves(g, s, next, g')
    ensures match s
            case Enter(u) => Has(g', t) <==> t == u
            case Grab(u) => Has(g', t) <==> t == u
            case End(_) =>
                if next.None? then !Has(g', t)
                    else next.value < |g.waiters| && (Has(g', t) <==> t == g.waiters[next.value].task)
            case _ => Has(g', t) <==> Has(g, t)
  {
    match s
    case Enter(u) => assert !Has(g, t);
    case Grab(u) => assert !Has(g, t);
    case Queue(u, i, raw) =>
    case Spin(u) =>
    case Go(u) => assert Has(g, u);
    case End(u) => assert Has(g, u) && (Has(g, t) ==> t == u);
    case Tick =>
  }

  lemma StepKeeps(g: Gate, s: Step, next: Option<nat>, g': Gate)
    requires Inv(g) && Moves(g, s, next, g')
    ensures Inv(g')
  {
    SlotsKept(g, s, next, g');
    forall t: nat, t': nat | Has(g', t) && Has(g', t') ensures t == t' {
      OwnerAfter(g, s, next, g', t);
      OwnerAfter(g, s, next, g', t');
    }
    BusyKept(g, s, next, g');
  }

  lemma BusyKept(g: Gate, s: Step, next: Option<nat>, g': Gate)
    requires Inv(g) && Moves(g, s, next, g')
    ensures g'.busy <==> exists t: nat :: Has(g', t)
  {
    forall t: nat
      ensures match s
              case Enter(u) => Has(g', t) <==> t == u
              case Grab(u) => Has(g', t) <==> t == u
              case End(_) =>
                  if next.None? then !Has(g', t)
                      else next.value < |g.waiters| && (Has(g', t) <==> t == g.waiters[next.value].task)
              case _ => Has(g', t) <==> Has(g, t)
    {
      OwnerAfter(g, s, next, g', t);
    }
    match s
    case Enter(u) => assert Has(g', u);
    case Grab(u) => assert Has(g', u);
    case End(u) =>
      assert Has(g, u);
      if next.Some? { assert Has(g', g.waiters[next.value].task); }
    case _ =>
      if g.busy {
        var t: nat :| Has(g, t);
        assert Has(g', t);
      }
  }

  ghost predicate Initial(g: Gate) {
    !g.busy && (forall i :: 0 <= i < |g.waiters| ==> !g.waiters[i].used && !g.waiters[i].admitted) && forall t ::
        0 <= t < |g.tasks| ==> g.tasks[t] == Away
  }

  ghost predicate IsRun(tr: seq<Gate>, ss: seq<Step>, nexts: seq<Option<nat>>) {
    && |tr| == |ss| + 1 && |nexts| == |ss| && Initial(tr[0])
    && forall k :: 0 <= k < |ss| ==> Moves(tr[k], ss[k], nexts[k], tr[k + 1])
  }

  lemma {:induction false} RunsKeepInv(tr: seq<Gate>, ss: seq<Step>, nexts: seq<Option<nat>>, k: nat)
    requires IsRun(tr, ss, nexts) && k < |tr|
    ensures Inv(tr[k])
    decreases k
  {
    if k > 0 {
      RunsKeepInv(tr, ss, nexts, k - 1);
      assert Moves(tr[k - 1], ss[k - 1], nexts[k - 1], tr[k - 1 + 1]);
      StepKeeps(tr[k - 1], ss[k - 1], nexts[k - 1], tr[k]);
    }
  }

  /**
   * In any run at most one task has the device, and while anyone waits unadmitted somebody has it, so none is stranded.
   */
  lemma GateHolds(tr: seq<Gate>, ss: seq<Step>, nexts: seq<Option<nat>>, k: nat)
    requires IsRun(tr, ss, nexts) && k < |tr|
    ensures forall t, t' :: 0 <= t < |tr[k].tasks| && 0 <= t' < |tr[k].tasks| ==>
              tr[k].tasks[t] == Holding && tr[k].tasks[t'] == Holding ==> t == t'
    ensures (exists i :: 0 <= i < |tr[k].waiters| && Eligible(tr[k].waiters[i])) ==>
            tr[k].busy && exists t: nat :: Has(tr[k], t)
  {
    RunsKeepInv(tr, ss, nexts, k);
    var g := tr[k];
    forall t, t' | 0 <= t < |g.tasks| && 0 <= t' < |g.tasks| && g.tasks[t] == Holding && g.tasks[t'] == Holding
      ensures t == t'
    {
      assert Has(g, t) && Has(g, t');
    }
    WaitersMeanBusy(tr, ss, nexts, k);
  }

  lemma {:induction false} WaitersMeanBusy(tr: seq<Gate>, ss: seq<Step>, nexts: seq<Option<nat>>, k: nat)
    requires IsRun(tr, ss, nexts) && k < |tr|
    ensures (exists i :: 0 <= i < |tr[k].waiters| && Eligible(tr[k].waiters[i])) ==> tr[k].busy
    decreases k
  {
    if k > 0 {
      WaitersMeanBusy(tr, ss, nexts, k - 1);
      RunsKeepInv(tr, ss, nexts, k - 1);
      assert Moves(tr[k - 1], ss[k - 1], nexts[k - 1], tr[k - 1 + 1]);
      WaitersStep(tr[k - 1], ss[k - 1], nexts[k - 1], tr[k]);
    }
  }

  lemma WaitersStep(g: Gate, s: Step, next: Option<nat>, g': Gate)
    requires Inv(g) && Moves(g, s, next, g')
    requires (exists i :: 0 <= i < |g.waiters| && Eligible(g.waiters[i])) ==> g.busy
    ensures (exists i :: 0 <= i < |g'.waiters| && Eligible(g'.waiters[i])) ==> g'.busy
  {
    if i :| 0 <= i < |g'.waiters| && Eligible(g'.waiters[i]) {
      if !(s.Queue? && i == s.slot) { assert Eligible(g.waiters[i]); }
      if s.End? { assert Has(g, s.t); }
    }
  }

  /** Each hand-over goes to the best effective priority waiting,
      and never past a request that has waited 256 ticks for one
      that has waited fewer than 32. */
  lemma HandOverIsFair(tr: seq<Gate>, ss: seq<Step>, nexts: seq<Option<nat>>, k: nat, j: nat)
    requires IsRun(tr, ss, nexts) && k < |ss| && ss[k].End? && j < |tr[k].waiters| && Eligible(tr[k].waiters[j])
    ensures nexts[k].Some? && nexts[k].value < |tr[k].waiters|
    ensures Effective(tr[k].waiters[nexts[k].value], tr[k].now) <= Effective(tr[k].waiters[j], tr[k].now)
    ensures tr[k].waiters[j].queuedAt + 256 <= tr[k].now ==> tr[k].now - tr[k].waiters[nexts[k].value].queuedAt >= 32
  {
    RunsKeepInv(tr, ss, nexts, k);
    assert Moves(tr[k], ss[k], nexts[k], tr[k + 1]);
    var g, i := tr[k], nexts[k].value;
    assert Best(g.waiters, g.now, i);
    if g.waiters[j].queuedAt + 256 <= g.now { NotPassedOver(g.waiters, g.now, i, j); }
  }
}
