/**
 * General-purpose events of kernel/dev/acpi_event.c: the SCI handler, the kacpid thread and the hardware, step by step.
 * The enable registers are changed under a lock, so each register access of the handler and of kacpid is a step of its
 * own.
 */
module Gpe {
  /** One event with a method: its kind, its status and enable bits, and whether the handler has left it for kacpid. */
  datatype Event = Event(edge: bool, status: bool, enabled: bool, pending: bool)

  /** kacpid with event `n`: its method is running, or its status has been dealt with. */
  datatype Service = None | Running(n: nat) | Cleared(n: nat)

  /**
   * `hit` are the events of the register the handler is at, `cleared` those of them whose edge it has cleared; `taken`
   * are the events kacpid has collected and not come to; `owed` are edges raised that no method run has started after.
   */
  datatype State = State(events: seq<Event>, hit: set<nat>, cleared: set<nat>, taken: set<nat>, service: Service,
                         owed: set<nat>)

  datatype Step =
    | Raise(n: nat)
    | Sample(reg: set<nat>)
    | ClearEdge(n: nat)
    | Post(n: nat)
    | Take(word: set<nat>)
    | Start(n: nat)
    | ClearLevel(n: nat)
    | Enable(n: nat)

  function Update(s: State, n: nat, e: Event): State
    requires n < |s.events|
  {
    s.(events := s.events[n := e])
  }

  /** The events of `who` whose interrupt is asserted. */
  function Asserted(s: State, who: set<nat>): set<nat> {
    set n | n in who && n < |s.events| && s.events[n].status && s.events[n].enabled
  }

  function Masked(s: State, who: set<nat>): seq<Event> {
    seq(|s.events|, n requires 0 <= n < |s.events| => if n in who then s.events[n].(enabled := false) else s.events[n])
  }

  function Waiting(s: State, word: set<nat>): set<nat> { set n | n in word && n < |s.events| && s.events[n].pending }

  function Collected(s: State, who: set<nat>): seq<Event> {
    seq(|s.events|, n requires 0 <= n < |s.events| => if n in who then s.events[n].(pending := false) else s.events[n])
  }

  predicate Guard(s: State, t: Step) {
    match t
    case Raise(n) => n < |s.events|
    case Sample(_) => s.hit == {}
    case ClearEdge(n) => n in s.hit && n < |s.events| && s.events[n].edge && n !in s.cleared
    case Post(n) => n in s.hit && n < |s.events| && (s.events[n].edge ==> n in s.cleared)
    case Take(_) => s.taken == {} && s.service == None
    case Start(n) => n in s.taken && n < |s.events| && s.service == None
    case ClearLevel(n) => s.service == Running(n) && n < |s.events|
    case Enable(n) => s.service == Cleared(n) && n < |s.events|
  }

  function Apply(s: State, t: Step): State
    requires Guard(s, t)
  {
    match t
    case Raise(n) =>
        Update(s, n, s.events[n].(status := true)).(owed := if s.events[n].edge then s.owed + {n} else s.owed)
    // acpi_sci_irq, one register: what is asserted is masked until it has been serviced.
    case Sample(reg) => s.(events := Masked(s, Asserted(s, reg)), hit := Asserted(s, reg), cleared := {})
    // An edge is cleared before its method.
    case ClearEdge(n) => Update(s, n, s.events[n].(status := false)).(cleared := s.cleared + {n})
    case Post(n) => Update(s, n, s.events[n].(pending := true)).(hit := s.hit - {n}, cleared := s.cleared - {n})
    // kacpid, one word of pending events.
    case Take(word) => s.(events := Collected(s, Waiting(s, word)), taken := Waiting(s, word))
    case Start(n) => s.(taken := s.taken - {n}, service := Running(n), owed := s.owed - {n})
    // run_gpe after the method: a level is cleared now, an edge was before.
    case ClearLevel(n) =>
      Update(s, n, if s.events[n].edge then s.events[n] else s.events[n].(status := false)).(service := Cleared(n))
    case Enable(n) => Update(s, n, s.events[n].(enabled := true)).(service := None)
  }

  // ---- what always holds ----------------------------------------------------

  predicate Served(s: State, n: nat) { s.service == Running(n) || s.service == Cleared(n) }

  /** Left for kacpid, or in the hands of the handler or of kacpid. */
  predicate InHand(s: State, n: nat)
    requires n < |s.events|
  {
    s.events[n].pending || n in s.hit || n in s.taken || Served(s, n)
  }

  /** In one pair of hands at most. */
  predicate OneHand(s: State, n: nat)
    requires n < |s.events|
  {
    && (s.events[n].pending ==> n !in s.hit && n !in s.taken && !Served(s, n))
    && (n in s.hit ==> n !in s.taken && !Served(s, n))
    && (n in s.taken ==> !Served(s, n))
  }

  /** An edge no method run has started after is still written down somewhere. */
  predicate Recorded(s: State, n: nat)
    requires n < |s.events|
  {
    s.events[n].status || n in s.cleared || s.events[n].pending || n in s.taken
  }

  ghost predicate EventOk(s: State, n: nat)
    requires n < |s.events|
  {
    && (s.events[n].enabled <==> !InHand(s, n)) && OneHand(s, n)
    && (n in s.hit && n !in s.cleared && s.events[n].edge ==> s.events[n].status)
    && (n in s.owed ==> s.events[n].edge && Recorded(s, n))
  }

  ghost predicate Inv(s: State) {
    && (forall n :: 0 <= n < |s.events| ==> EventOk(s, n))
    && s.cleared <= s.hit && (forall n :: n in s.hit || n in s.taken || n in s.owed ==> n < |s.events|)
    && (forall n: nat :: Served(s, n) ==> n < |s.events|)
  }

  lemma StepKeeps(s: State, t: Step)
    requires Inv(s) && Guard(s, t)
    ensures Inv(Apply(s, t))
  {
    var s' := Apply(s, t);
    forall n | 0 <= n < |s'.events|
      ensures EventOk(s', n)
    {
      assert EventOk(s, n);
    }
    forall n: nat | Served(s', n) ensures n < |s'.events| { assert Served(s, n) || t == Start(n); }
  }

  /** Every event armed: enabled, and in nobody's hands. */
  ghost predicate Initial(s: State) {
    && (forall n :: 0 <= n < |s.events| ==> s.events[n].enabled && !s.events[n].pending)
    && s.hit == {} && s.cleared == {} && s.taken == {} && s.service == None && s.owed == {}
  }

  ghost predicate IsRun(tr: seq<State>, ts: seq<Step>) {
    && |tr| == |ts| + 1 && Initial(tr[0])
    && forall i :: 0 <= i < |ts| ==> Guard(tr[i], ts[i]) && tr[i + 1] == Apply(tr[i], ts[i])
  }

  lemma {:induction false} RunsKeepInv(tr: seq<State>, ts: seq<Step>, i: nat)
    requires IsRun(tr, ts) && i < |tr|
    ensures Inv(tr[i])
    decreases i
  {
    if i > 0 {
      RunsKeepInv(tr, ts, i - 1);
      assert Guard(tr[i - 1], ts[i - 1]) && tr[i - 1 + 1] == Apply(tr[i - 1], ts[i - 1]);
      StepKeeps(tr[i - 1], ts[i - 1]);
    }
  }

  /** In every reachable state an armed event is masked exactly while it is pending or being serviced. */
  lemma MaskedExactlyInService(tr: seq<State>, ts: seq<Step>, i: nat, n: nat)
    requires IsRun(tr, ts) && i < |tr| && n < |tr[i].events|
    ensures tr[i].events[n].enabled <==> !InHand(tr[i], n)
  {
    RunsKeepInv(tr, ts, i);
    assert EventOk(tr[i], n);
  }

  /** An edge raised in step `i`, no run of its method having started by state `j`, is still recorded there. */
  lemma EdgesRecorded(tr: seq<State>, ts: seq<Step>, i: nat, j: nat, n: nat)
    requires IsRun(tr, ts) && i < j < |tr| && ts[i] == Raise(n) && n < |tr[i].events| && tr[i].events[n].edge
    requires forall k :: i < k < j ==> ts[k] != Start(n)
    ensures n < |tr[j].events| && Recorded(tr[j], n)
  {
    StillOwed(tr, ts, i, j, n);
    RunsKeepInv(tr, ts, j);
    assert EventOk(tr[j], n);
  }

  lemma {:induction false} StillOwed(tr: seq<State>, ts: seq<Step>, i: nat, j: nat, n: nat)
    requires IsRun(tr, ts) && i < j < |tr| && ts[i] == Raise(n) && n < |tr[i].events| && tr[i].events[n].edge
    requires forall k :: i < k < j ==> ts[k] != Start(n)
    ensures n in tr[j].owed && n < |tr[j].events|
    decreases j
  {
    assert Guard(tr[j - 1], ts[j - 1]) && tr[j - 1 + 1] == Apply(tr[j - 1], ts[j - 1]);
    if j > i + 1 { StillOwed(tr, ts, i, j - 1, n); }
  }

  /** With handler and kacpid idle, an owed edge asserts its interrupt: nothing is stranded. */
  lemma NothingStranded(tr: seq<State>, ts: seq<Step>, i: nat, n: nat)
    requires IsRun(tr, ts) && i < |tr| && n in tr[i].owed
    requires tr[i].hit == {} && tr[i].taken == {} && tr[i].service == None
    requires n < |tr[i].events| && !tr[i].events[n].pending
    ensures n in Asserted(tr[i], {n})
  {
    RunsKeepInv(tr, ts, i);
    assert EventOk(tr[i], n);
  }
}
