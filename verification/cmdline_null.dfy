/**
 * Questions asked with a null pointer. The scans answer them, but a null key is also what marks a slot free: it is
 * claimed without being taken, and its answer stays behind for whoever takes the slot next.
 */
module CmdlineNull {
  import opened Words
  import opened Cmdline

  /** Some run of the questions, null ones among them only if `nulls`, comes to `m`. */
  ghost predicate Comes(use: Use, nulls: bool, scan: nat -> bool, m: Memo) {
    exists tr, ss :: IsRun(use, tr, ss, scan) && (nulls || NoNull(ss)) && tr[|tr| - 1] == m
  }

  /** Every finished question has the answer a fresh scan gives. */
  predicate Agree(scan: nat -> bool, m: Memo) {
    forall t :: t in m.tasks && m.tasks[t].Done? ==> m.tasks[t].rc == scan(m.tasks[t].key)
  }

  ghost predicate AlwaysAgree(use: Use, nulls: bool) {
    forall scan: nat -> bool, m :: Comes(use, nulls, scan, m) && !scan(0) ==> Agree(scan, m)
  }

  lemma Goes(use: Use, scan: nat -> bool, m: Memo, s: Step, m': Memo)
    requires Comes(use, true, scan, m) && StepsTo(use, m, scan, s, m')
    ensures Comes(use, true, scan, m')
  {
    var tr, ss :| IsRun(use, tr, ss, scan) && tr[|tr| - 1] == m;
    var tr', ss' := tr + [m'], ss + [s];
    forall k | 0 <= k < |ss'|
      ensures StepsTo(use, tr'[k], scan, ss'[k], tr'[k + 1])
    {
      if k < |ss| { assert StepsTo(use, tr[k], scan, ss[k], tr[k + 1]); }
    }
    assert IsRun(use, tr', ss', scan);
  }

  // ---- a run with a null question -------------------------------------------

  /** An empty table but for one slot. */
  function Table(i: nat, s: Slot): seq<Slot> { seq(MEMO, j => if j == i then s else Slot(0, false, false)) }

  lemma TableSet(i: nat, s: Slot, s': Slot)
    requires i < MEMO
    ensures Table(i, s)[i := s'] == Table(i, s')
  {
  }

  /** Task `t`, at `p`, moves to `p'`, and the slot from `s` to `s'`. */
  lemma Moved(scan: nat -> bool, i: nat, s: Slot, s': Slot, tasks: map<nat, Task>, t: nat, p: Task, p': Task)
    requires Comes(Flags, true, scan, Memo(Table(i, s), tasks[t := p])) && !p.Done?
    requires NextTask(Flags, Table(i, s), scan, p) == p' && NextSlots(Table(i, s), p) == Table(i, s')
    ensures Comes(Flags, true, scan, Memo(Table(i, s'), tasks[t := p']))
  {
    var m, m' := Memo(Table(i, s), tasks[t := p]), Memo(Table(i, s'), tasks[t := p']);
    assert tasks[t := p][t := p'] == tasks[t := p'];
    Goes(Flags, scan, m, Move(t), m');
  }

  lemma Begun(scan: nat -> bool, slots: seq<Slot>, tasks: map<nat, Task>, t: nat, key: nat)
    requires Comes(Flags, true, scan, Memo(slots, tasks)) && t !in tasks && |slots| == MEMO
    ensures Comes(Flags, true, scan, Memo(slots, tasks[t := LoadKey(key, 0)]))
  {
    Goes(Flags, scan, Memo(slots, tasks), Begin(t, key), Memo(slots, tasks[t := LoadKey(key, 0)]));
  }

  /** The null question finds nothing ready. */
  lemma NullScanned(scan: nat -> bool, i: nat)
    requires !scan(0) && i == At(0, 0)
    ensures Comes(Flags, true, scan, Memo(Table(i, Slot(0, false, false)), map[][1 := Probing(0, false, 0)]))
  {
    var s, none := Slot(0, false, false), map[];
    assert IsRun(Flags, [Memo(Table(i, s), none)], [], scan);
    assert Comes(Flags, true, scan, Memo(Table(i, s), none));
    Begun(scan, Table(i, s), none, 1, 0);
    Moved(scan, i, s, s, none, 1, LoadKey(0, 0), LoadReady(0, i));
    Moved(scan, i, s, s, none, 1, LoadReady(0, i), Scanning(0));
    Moved(scan, i, s, s, none, 1, Scanning(0), Probing(0, false, 0));
  }

  /** It claims its first slot without taking it, and leaves an answer there. */
  lemma NullAsked(scan: nat -> bool, i: nat)
    requires !scan(0) && i == At(0, 0)
    ensures Comes(Flags, true, scan, Memo(Table(i, Slot(0, false, true)), map[1 := Done(0, false)]))
  {
    var s, r, none := Slot(0, false, false), Slot(0, false, true), map[];
    NullScanned(scan, i);
    TableSet(i, s, s);
    TableSet(i, s, r);
    Moved(scan, i, s, s, none, 1, Probing(0, false, 0), Claimed(0, false, i));
    Moved(scan, i, s, s, none, 1, Claimed(0, false, i), Answered(0, false, i));
    Moved(scan, i, s, r, none, 1, Answered(0, false, i), Done(0, false));
  }

  /** A question for the same slot is scanned and takes it: its key is there now, with the other answer ready. */
  lemma KeyTaken(scan: nat -> bool, i: nat, key: nat, tasks: map<nat, Task>)
    requires key != 0 && scan(key) && i == At(key, 0) && 2 !in tasks
    requires Comes(Flags, true, scan, Memo(Table(i, Slot(0, false, true)), tasks))
    ensures Comes(Flags, true, scan, Memo(Table(i, Slot(key, false, true)), tasks[2 := Claimed(key, true, i)]))
  {
    var s, r := Slot(0, false, true), Slot(key, false, true);
    TableSet(i, s, r);
    Begun(scan, Table(i, s), tasks, 2, key);
    Moved(scan, i, s, s, tasks, 2, LoadKey(key, 0), Scanning(key));
    Moved(scan, i, s, s, tasks, 2, Scanning(key), Probing(key, true, 0));
    Moved(scan, i, s, r, tasks, 2, Probing(key, true, 0), Claimed(key, true, i));
  }

  /** Another task with that question is told what the null question was. */
  lemma KeyAsked(scan: nat -> bool, i: nat, key: nat, tasks: map<nat, Task>)
    requires key != 0 && i == At(key, 0) && 3 !in tasks
    requires Comes(Flags, true, scan, Memo(Table(i, Slot(key, false, true)), tasks))
    ensures Comes(Flags, true, scan, Memo(Table(i, Slot(key, false, true)), tasks[3 := Done(key, false)]))
  {
    var s := Slot(key, false, true);
    Begun(scan, Table(i, s), tasks, 3, key);
    Moved(scan, i, s, s, tasks, 3, LoadKey(key, 0), LoadReady(key, i));
    Moved(scan, i, s, s, tasks, 3, LoadReady(key, i), LoadRc(key, i));
    Moved(scan, i, s, s, tasks, 3, LoadRc(key, i), Done(key, false));
  }

  /**
   * After one null question, a flag that is on the line can be answered as absent, for any key with null's first slot.
   */
  lemma NullMisleads(scan: nat -> bool, key: nat) returns (m: Memo)
    requires !scan(0) && key != 0 && scan(key) && At(key, 0) == At(0, 0)
    ensures Comes(Flags, true, scan, m) && 3 in m.tasks && m.tasks[3] == Done(key, false)
  {
    var i, tasks := At(0, 0), map[1 := Done(0, false)];
    NullAsked(scan, i);
    KeyTaken(scan, i, key, tasks);
    KeyAsked(scan, i, key, tasks[2 := Claimed(key, true, i)]);
    m := Memo(Table(i, Slot(key, false, true)), tasks[2 := Claimed(key, true, i)][3 := Done(key, false)]);
  }

  // ---- exactly when answers agree -------------------------------------------

  lemma {:induction false} SmallShifts(a: nat, k: nat)
    requires a < Pow2(k)
    ensures Shr(a, k) == 0
    decreases k
  {
    if k > 0 { SmallShifts(a / 2, k - 1); }
  }

  /** A product that stays below 2^k has nothing above bit k. */
  lemma TopGone(g: u64, key: nat, k: nat)
    requires (g * key) % M64 < Pow2(k)
    ensures Shr(Mul64(g, key), k) == 0
  {
    Mul64Multiplies(g, key);
    SmallShifts((g * key) % M64, k);
  }

  lemma HashesToZero(g: u64, key: nat, k: nat)
    requires g == 0x9e37_79b9_7f4a_7c15 && k == 56 && Wrap64(key) == key && (g * key) % M64 < Pow2(k)
    ensures Hash(key) == 0
  {
    TopGone(g, key, k);
  }

  lemma Below56(x: nat, k: nat)
    requires k == 56 && x < 0x100_0000_0000_0000
    ensures x < Pow2(k)
  {
    Pow2Values();
    Pow2Plus4(k);
    Pow2Plus4(k + 4);
  }

  /** Addresses that hash as null does exist: 233 is the first. */
  lemma SharedHash() returns (key: nat)
    ensures 0 < key < M64 && (0x9e37_79b9_7f4a_7c15 * key) % M64 < 0x100_0000_0000_0000
  {
    key := 233;
  }

  lemma NullHashes(g: u64, none: nat, k: nat)
    requires g == 0x9e37_79b9_7f4a_7c15 && k == 56 && none == 0
    ensures Hash(none) == 0
  {
    assert (g * none) % M64 == 0;
    HashesToZero(g, none, k);
  }

  lemma SharedSlot(g: u64, none: nat, k: nat) returns (key: nat)
    requires g == 0x9e37_79b9_7f4a_7c15 && k == 56 && none == 0
    ensures key != 0 && At(key, 0) == At(none, 0)
  {
    key := SharedHash();
    assert Hash(key) == 0 by {
      Below56((g * key) % M64, k);
      HashesToZero(g, key, k);
    }
    NullHashes(g, none, k);
  }

  lemma ComesAgree(use: Use, nulls: bool, scan: nat -> bool, m: Memo)
    requires Comes(use, nulls, scan, m) && !scan(0) && (use.Absences? || !nulls)
    ensures Agree(scan, m)
  {
    var tr, ss :| IsRun(use, tr, ss, scan) && (nulls || NoNull(ss)) && tr[|tr| - 1] == m;
    forall t | t in m.tasks && m.tasks[t].Done?
      ensures m.tasks[t].rc == scan(m.tasks[t].key)
    {
      AnswersAgree(use, tr, ss, scan, |tr| - 1, t);
    }
  }

  /**
   * Every question is always answered as a fresh scan answers it exactly for bootinfo_get_kv, and for bootinfo_has_flag
   * exactly as long as nobody asks with a null pointer.
   */
  lemma AgreeIff(use: Use, nulls: bool)
    ensures AlwaysAgree(use, nulls) <==> use.Absences? || !nulls
  {
    if use.Absences? || !nulls {
      forall scan: nat -> bool, m | Comes(use, nulls, scan, m) && !scan(0) ensures Agree(scan, m) {
        ComesAgree(use, nulls, scan, m);
      }
    } else {
      var key := SharedSlot(0x9e37_79b9_7f4a_7c15, 0, 56);
      var scan := (k: nat) => k == key;
      var m := NullMisleads(scan, key);
      assert !Agree(scan, m);
    }
  }
}
