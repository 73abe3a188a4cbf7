/**
 * Command-line questions (kernel/bootinfo/multiboot2.c): scans of the line's tokens, and the table that remembers
 * answers by the address of the question while any number of processors ask.
 */
module Cmdline {
  import opened Words

  // ---- tokens ---------------------------------------------------------------

  /** A maximal run of characters that are not spaces. */
  ghost predicate IsToken(cmd: string, start: nat, end: nat) {
    && start < end <= |cmd| && (forall k :: start <= k < end ==> cmd[k] != ' ')
    && (start == 0 || cmd[start - 1] == ' ') && (end == |cmd| || cmd[end] == ' ')
  }

  /** [start, end) is the first token from `from` on, or the empty rest of the line. */
  ghost predicate FirstFrom(cmd: string, from: nat, start: nat, end: nat) {
    && from <= start <= end <= |cmd| && (forall k :: from <= k < start ==> cmd[k] == ' ')
    && (forall k :: start <= k < end ==> cmd[k] != ' ') && (end == |cmd| || cmd[end] == ' ')
         && (start == end ==> end == |cmd|)
  }

  /** Every token from `from` on is that one, or lies behind it. */
  lemma TokenAfter(cmd: string, from: nat, start: nat, end: nat, s: nat, e: nat)
    requires FirstFrom(cmd, from, start, end) && IsToken(cmd, s, e) && from <= s
    ensures start < end && start <= s && (s == start ==> e == end) && (start < s ==> end <= s)
  {
    assert cmd[s] != ' ';
  }

  method NextToken(cmd: string, from: nat) returns (start: nat, end: nat)
    requires from <= |cmd| && (from == 0 || from == |cmd| || cmd[from] == ' ')
    ensures FirstFrom(cmd, from, start, end) && (start < end ==> IsToken(cmd, start, end))
  {
    start := from;
    while start < |cmd| && cmd[start] == ' '
      invariant from <= start <= |cmd| && forall k :: from <= k < start ==> cmd[k] == ' '
    {
      start := start + 1;
    }
    end := start;
    while end < |cmd| && cmd[end] != ' '
      invariant start <= end <= |cmd| && forall k :: start <= k < end ==> cmd[k] != ' '
    {
      end := end + 1;
    }
  }

  ghost predicate IsFlag(cmd: string, flag: string, s: nat, e: nat) { IsToken(cmd, s, e) && cmd[s..e] == flag }

  /** `flag` is one of the line's tokens. */
  ghost predicate HasToken(cmd: string, flag: string) { exists s: nat, e: nat :: IsFlag(cmd, flag, s, e) }

  /** flag_scan */
  method FlagScan(cmd: string, flag: string) returns (r: bool)
    ensures r <==> HasToken(cmd, flag)
  {
    if flag == "" { return false; }
    var i := 0;
    while i < |cmd|
      invariant i <= |cmd| && (i == 0 || i == |cmd| || cmd[i] == ' ')
      invariant forall s: nat, e: nat :: IsFlag(cmd, flag, s, e) ==> i <= s
      decreases |cmd| - i
    {
      var start, end := NextToken(cmd, i);
      forall s: nat, e: nat | IsToken(cmd, s, e) && i <= s
        ensures start < end && start <= s && (s == start ==> e == end) && (start < s ==> end <= s)
      {
        TokenAfter(cmd, i, start, end, s, e);
      }
      if start == end { return false; }
      if end - start == |flag| && cmd[start..end] == flag {
        assert IsFlag(cmd, flag, start, end);
        return true;
      }
      i := end;
    }
    return false;
  }

  /** Token [s, e) is key=value. */
  ghost predicate IsPair(cmd: string, key: string, s: nat, e: nat) {
    IsToken(cmd, s, e) && e - s > |key| && cmd[s + |key|] == '=' && cmd[s..s + |key|] == key
  }

  /** The first of the line's tokens that gives `key` a value. */
  ghost predicate FirstPair(cmd: string, key: string, s: nat, e: nat) {
    IsPair(cmd, key, s, e) && forall s': nat, e': nat :: IsPair(cmd, key, s', e') ==> s <= s'
  }

  /** kv_scan: the value's text, cut to the room there is for it. */
  method KvScan(cmd: string, key: string, room: nat) returns (r: Option<string>)
    ensures key == "" ==> r.None?
    ensures key != "" ==> (r.None? <==> forall s: nat, e: nat :: !IsPair(cmd, key, s, e))
    ensures r.Some? ==>
            exists s: nat, e: nat :: FirstPair(cmd, key, s, e) && r.value == Cut(cmd[s + |key| + 1..e], room)
  {
    if key == "" { return None; }
    var i := 0;
    while i < |cmd|
      invariant i <= |cmd| && (i == 0 || i == |cmd| || cmd[i] == ' ')
      invariant forall s: nat, e: nat :: IsPair(cmd, key, s, e) ==> i <= s
      decreases |cmd| - i
    {
      var start, end := NextToken(cmd, i);
      forall s: nat, e: nat | IsToken(cmd, s, e) && i <= s
        ensures start < end && start <= s && (s == start ==> e == end) && (start < s ==> end <= s)
      {
        TokenAfter(cmd, i, start, end, s, e);
      }
      if start == end { return None; }
      if end - start > |key| && cmd[start + |key|] == '=' && cmd[start..start + |key|] == key {
        assert IsPair(cmd, key, start, end);
        assert FirstPair(cmd, key, start, end);
        return Some(Cut(cmd[start + |key| + 1..end], room));
      }
      i := end;
    }
    return None;
  }

  /** What fits in `room` characters, the last being the terminator; with no room, nothing is copied. */
  function Cut(s: string, room: nat): string { if |s| < room then s else if room > 0 then s[..room - 1] else "" }

  // ---- the memo -------------------------------------------------------------

  const MEMO: nat := 256
  const PROBES: nat := 8

  /** A slot: the question's address (0: free), the answer, and whether the answer is there. */
  datatype Slot = Slot(key: nat, rc: bool, ready: bool)

  /** What a table is for: both answers of bootinfo_has_flag, or the noes of bootinfo_get_kv. */
  datatype Use = Flags | Absences

  /**
   * A task with a question: about to load the key of its `probe`-th slot, the ready flag or the answer of slot `at`;
   * about to scan the line; putting the scan's answer away; or finished.
   */
  datatype Task =
    | LoadKey(key: nat, probe: nat)
    | LoadReady(key: nat, at: nat)
    | LoadRc(key: nat, at: nat)
    | Scanning(key: nat)
    | Probing(key: nat, rc: bool, probe: nat)
    | Claimed(key: nat, rc: bool, at: nat)
    | Answered(key: nat, rc: bool, at: nat)
    | Done(key: nat, rc: bool)

  datatype Memo = Memo(slots: seq<Slot>, tasks: map<nat, Task>)

  /** One task's next load, scan, compare-and-swap or store, of memo_get, the scan, or memo_put. */
  datatype Step = Begin(t: nat, key: nat) | Move(t: nat)

  /** Where the `probe`-th look for a key goes; `h` is its hash. */
  function Place(h: nat, probe: nat): (i: nat)
    ensures i < MEMO
  {
    (h + probe) % MEMO
  }

  /** The top byte of key * 0x9e3779b97f4a7c15 */
  function Hash(key: nat): nat { Shr(Mul64(0x9e37_79b9_7f4a_7c15, Wrap64(key)), 56) }

  function At(key: nat, probe: nat): nat { Place(Hash(key), probe) }

  // ---- one task's moves -----------------------------------------------------

  /** What a task does next, on a table it finds as `slots`; `scan` is what a fresh scan answers. */
  ghost function NextTask(use: Use, slots: seq<Slot>, scan: nat -> bool, p: Task): Task
    requires |slots| == MEMO
  {
    match p
    case LoadKey(key, n) =>
      if n >= PROBES then Scanning(key)
      else
        var i := At(key, n);
        if slots[i].key == key then LoadReady(key, i) else if slots[i].key == 0 then Scanning(key)
            else LoadKey(key, n + 1)
    case LoadReady(key, at) => if at < MEMO && slots[at].ready then LoadRc(key, at) else Scanning(key)
    case LoadRc(key, at) => Done(key, use.Flags? && at < MEMO && slots[at].rc)
    case Scanning(key) => if use.Absences? && scan(key) then Done(key, true) else Probing(key, scan(key), 0)
    case Probing(key, rc, n) =>
      if n >= PROBES then Done(key, rc)
      else
        var i := At(key, n);
        if slots[i].key == 0 then Claimed(key, rc, i) else if slots[i].key == key then Done(key, rc)
            else Probing(key, rc, n + 1)
    case Claimed(key, rc, at) => Answered(key, rc, at)
    case Answered(key, rc, at) => Done(key, rc)
    case Done(_, _) => p
  }

  /** The table after that move: a claim sets the key, then the answer is stored, then the ready flag. */
  function NextSlots(slots: seq<Slot>, p: Task): seq<Slot>
    requires |slots| == MEMO
  {
    match p
    case Probing(key, _, n) =>
      if n < PROBES && slots[At(key, n)].key == 0 then slots[At(key, n) := slots[At(key, n)].(key := key)] else slots
    case Claimed(_, rc, at) => if at < MEMO then slots[at := slots[at].(rc := rc)] else slots
    case Answered(_, _, at) => if at < MEMO then slots[at := slots[at].(ready := true)] else slots
    case _ => slots
  }

  ghost predicate Guard(m: Memo, s: Step) {
    match s
    case Begin(t, _) => t in m.tasks ==> m.tasks[t].Done?
    case Move(t) => t in m.tasks && !m.tasks[t].Done?
  }

  ghost function Apply(use: Use, m: Memo, scan: nat -> bool, s: Step): Memo
    requires Guard(m, s) && |m.slots| == MEMO
  {
    match s
    case Begin(t, key) => m.(tasks := m.tasks[t := LoadKey(key, 0)])
    case Move(t) => Memo(NextSlots(m.slots, m.tasks[t]), m.tasks[t := NextTask(use, m.slots, scan, m.tasks[t])])
  }

  // ---- tables only fill -----------------------------------------------------

  /** A key once there stays, and so do a ready flag and the answer it vouches for. */
  predicate Grows(a: seq<Slot>, b: seq<Slot>)
    requires |a| == MEMO && |b| == MEMO
  {
    forall i :: 0 <= i < MEMO ==> SlotGrows(a[i], b[i])
  }

  predicate SlotGrows(a: Slot, b: Slot) {
    && (a.key != 0 ==> b.key == a.key)
    && (a.key != 0 && a.ready ==> b.ready && b.rc == a.rc)
  }

  lemma GrowsOn(a: seq<Slot>, b: seq<Slot>, c: seq<Slot>)
    requires |a| == MEMO && |b| == MEMO && |c| == MEMO && Grows(a, b) && Grows(b, c)
    ensures Grows(a, c)
  {
    forall i | 0 <= i < MEMO ensures SlotGrows(a[i], c[i]) { assert SlotGrows(a[i], b[i]) && SlotGrows(b[i], c[i]); }
  }

  /** The looks before `n` for `key` met other keys. */
  predicate Passed(slots: seq<Slot>, key: nat, n: nat)
    requires |slots| == MEMO
  {
    forall i :: 0 <= i < n ==> slots[At(key, i)].key != 0 && slots[At(key, i)].key != key
  }

  /** A look that met another key would meet it again. */
  lemma PassedKept(a: seq<Slot>, b: seq<Slot>, key: nat, n: nat)
    requires |a| == MEMO && |b| == MEMO && Grows(a, b) && Passed(a, key, n)
    ensures Passed(b, key, n)
  {
    forall i | 0 <= i < n
      ensures b[At(key, i)].key != 0 && b[At(key, i)].key != key
    {
      assert SlotGrows(a[At(key, i)], b[At(key, i)]);
    }
  }

  // ---- the invariant --------------------------------------------------------

  /** An answer a table may hold for a key. */
  ghost predicate RightFor(use: Use, scan: nat -> bool, key: nat, rc: bool) {
    rc == scan(key) && (use.Absences? ==> !rc)
  }

  /** Slot `i` was claimed by the first look that found it free, and a ready answer is the scan's. */
  ghost predicate SlotOk(use: Use, slots: seq<Slot>, scan: nat -> bool, i: nat)
    requires |slots| == MEMO && i < MEMO
  {
    var s := slots[i];
    && (s.key != 0 ==> exists n :: 0 <= n < PROBES && At(s.key, n) == i && Passed(slots, s.key, n))
    && (s.ready ==> s.key != 0 && RightFor(use, scan, s.key, s.rc))
  }

  ghost predicate TableOk(use: Use, slots: seq<Slot>, scan: nat -> bool) {
    |slots| == MEMO && forall i :: 0 <= i < MEMO ==> SlotOk(use, slots, scan, i)
  }

  ghost predicate TaskOk(use: Use, slots: seq<Slot>, scan: nat -> bool, p: Task)
    requires |slots| == MEMO
  {
    p.key != 0 && match p
    case LoadKey(key, n) => n <= PROBES && Passed(slots, key, n)
    case LoadReady(key, at) => at < MEMO && slots[at].key == key
    case LoadRc(key, at) => at < MEMO && slots[at].key == key && slots[at].ready
    case Scanning(_) => true
    case Probing(key, rc, n) => RightFor(use, scan, key, rc) && n <= PROBES && Passed(slots, key, n)
    case Claimed(key, rc, at) => RightFor(use, scan, key, rc) && at < MEMO && slots[at].key == key && !slots[at].ready
    case Answered(key, rc, at) =>
      RightFor(use, scan, key, rc) && at < MEMO && slots[at].key == key && !slots[at].ready && slots[at].rc == rc
    case Done(key, rc) => rc == scan(key)
  }

  predicate Claims(p: Task, i: nat) { (p.Claimed? || p.Answered?) && p.at == i }

  /** Only one task has claimed a slot. */
  predicate Owns(m: Memo, t: nat, i: nat) { t in m.tasks && Claims(m.tasks[t], i) }

  ghost predicate OneOwner(m: Memo) { forall t: nat, t': nat, i: nat :: Owns(m, t, i) && Owns(m, t', i) ==> t == t' }

  ghost predicate Inv(use: Use, m: Memo, scan: nat -> bool) {
    && TableOk(use, m.slots, scan)
    && (forall t :: t in m.tasks ==> TaskOk(use, m.slots, scan, m.tasks[t]))
    && OneOwner(m)
  }

  /** A key has one slot at most. */
  lemma OneSlot(use: Use, slots: seq<Slot>, scan: nat -> bool, i: nat, j: nat)
    requires TableOk(use, slots, scan) && i < MEMO && j < MEMO && slots[i].key != 0 && slots[i].key == slots[j].key
    ensures i == j
  {
    assert SlotOk(use, slots, scan, i) && SlotOk(use, slots, scan, j);
    var key := slots[i].key;
    var n :| 0 <= n < PROBES && At(key, n) == i && Passed(slots, key, n);
    var k :| 0 <= k < PROBES && At(key, k) == j && Passed(slots, key, k);
  }

  lemma SlotKept(use: Use, a: seq<Slot>, b: seq<Slot>, scan: nat -> bool, i: nat)
    requires |a| == MEMO && |b| == MEMO && i < MEMO && SlotOk(use, a, scan, i) && Grows(a, b)
    requires b[i].key == a[i].key && (b[i].ready ==> b[i].key != 0 && RightFor(use, scan, b[i].key, b[i].rc))
    ensures SlotOk(use, b, scan, i)
  {
    var key := a[i].key;
    if key != 0 {
      var n :| 0 <= n < PROBES && At(key, n) == i && Passed(a, key, n);
      PassedKept(a, b, key, n);
    }
  }

  /** What a task knows of the table stays so, unless it is its own claim that is answered. */
  lemma TaskKept(use: Use, a: seq<Slot>, b: seq<Slot>, scan: nat -> bool, p: Task)
    requires |a| == MEMO && |b| == MEMO && Grows(a, b) && TaskOk(use, a, scan, p)
    requires (p.Claimed? || p.Answered?) && p.at < MEMO ==> b[p.at] == a[p.at]
    ensures TaskOk(use, b, scan, p)
  {
    match p
    case LoadKey(key, n) => PassedKept(a, b, key, n);
    case Probing(key, _, n) => PassedKept(a, b, key, n);
    case LoadReady(_, at) => assert SlotGrows(a[at], b[at]);
    case LoadRc(_, at) => assert SlotGrows(a[at], b[at]);
    case _ =>
  }

  // ---- the table after a move -----------------------------------------------

  lemma MoveGrows(use: Use, slots: seq<Slot>, scan: nat -> bool, p: Task)
    requires TableOk(use, slots, scan) && TaskOk(use, slots, scan, p)
    ensures Grows(slots, NextSlots(slots, p))
  {
  }

  /** A claim: the first look that finds a slot free. */
  lemma ClaimTable(use: Use, slots: seq<Slot>, scan: nat -> bool, key: nat, rc: bool, n: nat)
    requires TableOk(use, slots, scan) && TaskOk(use, slots, scan, Probing(key, rc, n)) && n < PROBES
    requires slots[At(key, n)].key == 0
    ensures TableOk(use, NextSlots(slots, Probing(key, rc, n)), scan)
  {
    var i, b := At(key, n), NextSlots(slots, Probing(key, rc, n));
    MoveGrows(use, slots, scan, Probing(key, rc, n));
    PassedKept(slots, b, key, n);
    forall j | 0 <= j < MEMO
      ensures SlotOk(use, b, scan, j)
    {
      assert SlotOk(use, slots, scan, j);
      if j != i { SlotKept(use, slots, b, scan, j); }
    }
  }

  lemma OwnTable(use: Use, slots: seq<Slot>, scan: nat -> bool, p: Task)
    requires TableOk(use, slots, scan) && TaskOk(use, slots, scan, p) && (p.Claimed? || p.Answered?)
    ensures TableOk(use, NextSlots(slots, p), scan)
  {
    var b := NextSlots(slots, p);
    MoveGrows(use, slots, scan, p);
    forall j | 0 <= j < MEMO
      ensures SlotOk(use, b, scan, j)
    {
      assert SlotOk(use, slots, scan, j);
      SlotKept(use, slots, b, scan, j);
    }
  }

  lemma MoveTable(use: Use, slots: seq<Slot>, scan: nat -> bool, p: Task)
    requires TableOk(use, slots, scan) && TaskOk(use, slots, scan, p)
    ensures TableOk(use, NextSlots(slots, p), scan)
  {
    match p
    case Probing(key, rc, n) =>
        if n < PROBES && slots[At(key, n)].key == 0 { ClaimTable(use, slots, scan, key, rc, n); }
    case Claimed(_, _, _) => OwnTable(use, slots, scan, p);
    case Answered(_, _, _) => OwnTable(use, slots, scan, p);
    case _ =>
  }

  // ---- a task after its move ------------------------------------------------

  lemma ReaderMoves(use: Use, slots: seq<Slot>, scan: nat -> bool, p: Task)
    requires TableOk(use, slots, scan) && TaskOk(use, slots, scan, p)
    requires (p.LoadKey? || p.LoadReady? || p.LoadRc? || p.Scanning?)
    ensures NextSlots(slots, p) == slots && TaskOk(use, slots, scan, NextTask(use, slots, scan, p))
  {
    if p.LoadRc? { assert SlotOk(use, slots, scan, p.at); }
  }

  lemma WriterMoves(use: Use, slots: seq<Slot>, scan: nat -> bool, p: Task)
    requires TableOk(use, slots, scan) && TaskOk(use, slots, scan, p) && (p.Probing? || p.Claimed? || p.Answered?)
    ensures TaskOk(use, NextSlots(slots, p), scan, NextTask(use, slots, scan, p))
  {
    if p.Probing? && p.probe < PROBES { assert SlotOk(use, slots, scan, At(p.key, p.probe)); }
  }

  /** A slot a task has claimed, another's move leaves alone. */
  lemma OthersClaim(use: Use, m: Memo, scan: nat -> bool, t: nat, u: nat)
    requires Inv(use, m, scan) && t in m.tasks && u in m.tasks && u != t
    requires (m.tasks[u].Claimed? || m.tasks[u].Answered?)
    ensures m.tasks[u].at < MEMO && NextSlots(m.slots, m.tasks[t])[m.tasks[u].at] == m.slots[m.tasks[u].at]
  {
    var p, q := m.tasks[t], m.tasks[u];
    assert TaskOk(use, m.slots, scan, q) && TaskOk(use, m.slots, scan, p);
    assert Owns(m, u, q.at);
    if p.Claimed? || p.Answered? { assert Owns(m, t, p.at); }
  }

  lemma MoveTasks(use: Use, m: Memo, scan: nat -> bool, t: nat)
    requires Inv(use, m, scan) && Guard(m, Move(t))
    ensures var m' := Apply(use, m, scan, Move(t));
            forall u :: u in m'.tasks ==> TaskOk(use, m'.slots, scan, m'.tasks[u])
  {
    var m' := Apply(use, m, scan, Move(t));
    var p := m.tasks[t];
    MoveGrows(use, m.slots, scan, p);
    if p.Probing? || p.Claimed? || p.Answered? {
      WriterMoves(use, m.slots, scan, p);
    } else {
      ReaderMoves(use, m.slots, scan, p);
    }
    forall u | u in m'.tasks && u != t
      ensures TaskOk(use, m'.slots, scan, m'.tasks[u])
    {
      if m.tasks[u].Claimed? || m.tasks[u].Answered? { OthersClaim(use, m, scan, t, u); }
      TaskKept(use, m.slots, m'.slots, scan, m.tasks[u]);
    }
  }

  lemma MoveOwners(use: Use, m: Memo, scan: nat -> bool, t: nat)
    requires Inv(use, m, scan) && Guard(m, Move(t))
    ensures OneOwner(Apply(use, m, scan, Move(t)))
  {
    var m' := Apply(use, m, scan, Move(t));
    forall u: nat, v: nat, i: nat | Owns(m', u, i) && Owns(m', v, i)
      ensures u == v
    {
      assert u != t ==> Owns(m, u, i) && TaskOk(use, m.slots, scan, m.tasks[u]);
      assert v != t ==> Owns(m, v, i) && TaskOk(use, m.slots, scan, m.tasks[v]);
      assert (m.tasks[t].Claimed? && Owns(m', t, i)) ==> Owns(m, t, i);
    }
  }

  /** Every load, compare-and-swap and store of every task keeps the invariant, while no null question is asked. */
  lemma StepKeeps(use: Use, m: Memo, scan: nat -> bool, s: Step)
    requires Inv(use, m, scan) && Guard(m, s) && (s.Begin? ==> s.key != 0)
    ensures Inv(use, Apply(use, m, scan, s), scan) && Grows(m.slots, Apply(use, m, scan, s).slots)
  {
    match s
    case Begin(t, key) =>
      var m' := Apply(use, m, scan, s);
      forall u: nat, v: nat, i: nat | Owns(m', u, i) && Owns(m', v, i)
        ensures u == v
      {
        assert Owns(m, u, i) && Owns(m, v, i);
      }
    case Move(t) =>
      assert TaskOk(use, m.slots, scan, m.tasks[t]);
      MoveTable(use, m.slots, scan, m.tasks[t]);
      MoveGrows(use, m.slots, scan, m.tasks[t]);
      MoveTasks(use, m, scan, t);
      MoveOwners(use, m, scan, t);
  }

  // ---- runs -----------------------------------------------------------------

  ghost predicate Empty(m: Memo) {
    |m.slots| == MEMO && (forall i :: 0 <= i < MEMO ==> m.slots[i] == Slot(0, false, false)) && m.tasks == map[]
  }

  ghost predicate StepsTo(use: Use, m: Memo, scan: nat -> bool, s: Step, m': Memo) {
    |m.slots| == MEMO && Guard(m, s) && m' == Apply(use, m, scan, s)
  }

  /** Any interleaving of any number of tasks' lookups, from an empty table. */
  ghost predicate IsRun(use: Use, tr: seq<Memo>, ss: seq<Step>, scan: nat -> bool) {
    && |tr| == |ss| + 1 && Empty(tr[0])
    && forall k :: 0 <= k < |ss| ==> StepsTo(use, tr[k], scan, ss[k], tr[k + 1])
  }

  /** No task asks with a null pointer. */
  predicate NoNull(ss: seq<Step>) { forall k :: 0 <= k < |ss| && ss[k].Begin? ==> ss[k].key != 0 }

  lemma EmptyInv(use: Use, m: Memo, scan: nat -> bool)
    requires Empty(m)
    ensures Inv(use, m, scan)
  {
    forall i | 0 <= i < MEMO ensures SlotOk(use, m.slots, scan, i) { assert m.slots[i] == Slot(0, false, false); }
  }

  lemma {:induction false} RunsKeepInv(use: Use, tr: seq<Memo>, ss: seq<Step>, scan: nat -> bool, k: nat)
    requires IsRun(use, tr, ss, scan) && NoNull(ss) && k < |tr|
    ensures Inv(use, tr[k], scan)
    decreases k
  {
    if k == 0 {
      EmptyInv(use, tr[0], scan);
    } else {
      RunsKeepInv(use, tr, ss, scan, k - 1);
      assert StepsTo(use, tr[k - 1], scan, ss[k - 1], tr[k - 1 + 1]);
      StepKeeps(use, tr[k - 1], scan, ss[k - 1]);
    }
  }

  /** Over a run the table only fills: keys, ready flags and their answers stay. */
  lemma {:induction false} RunsGrow(use: Use, tr: seq<Memo>, ss: seq<Step>, scan: nat -> bool, j: nat, k: nat)
    requires IsRun(use, tr, ss, scan) && NoNull(ss) && j <= k < |tr|
    ensures |tr[j].slots| == MEMO && |tr[k].slots| == MEMO && Grows(tr[j].slots, tr[k].slots)
    decreases k - j
  {
    RunsKeepInv(use, tr, ss, scan, k);
    RunsKeepInv(use, tr, ss, scan, j);
    if j < k {
      RunsGrow(use, tr, ss, scan, j, k - 1);
      RunsKeepInv(use, tr, ss, scan, k - 1);
      assert StepsTo(use, tr[k - 1], scan, ss[k - 1], tr[k - 1 + 1]);
      StepKeeps(use, tr[k - 1], scan, ss[k - 1]);
      GrowsOn(tr[j].slots, tr[k - 1].slots, tr[k].slots);
    }
  }

  /** A ready slot holds its key's scan result, and a key has one slot at most. */
  lemma MemoAgrees(use: Use, tr: seq<Memo>, ss: seq<Step>, scan: nat -> bool, k: nat, i: nat)
    requires IsRun(use, tr, ss, scan) && NoNull(ss) && k < |tr| && i < MEMO && |tr[k].slots| == MEMO
    ensures tr[k].slots[i].ready ==> tr[k].slots[i].rc == scan(tr[k].slots[i].key)
    ensures forall j :: 0 <= j < MEMO && tr[k].slots[i].key != 0 && tr[k].slots[j].key == tr[k].slots[i].key ==> j == i
  {
    RunsKeepInv(use, tr, ss, scan, k);
    assert SlotOk(use, tr[k].slots, scan, i);
    forall j | 0 <= j < MEMO && tr[k].slots[i].key != 0 && tr[k].slots[j].key == tr[k].slots[i].key
      ensures j == i
    {
      OneSlot(use, tr[k].slots, scan, i, j);
    }
  }

  // ---- a table of absences --------------------------------------------------

  /** No slot says of a key that it is on the line, or is for a key that is. */
  ghost predicate AbsentTable(scan: nat -> bool, slots: seq<Slot>) {
    |slots| == MEMO && forall i :: 0 <= i < MEMO ==> !slots[i].rc && !scan(slots[i].key)
  }

  ghost predicate AbsentTask(scan: nat -> bool, p: Task) {
    match p
    case LoadReady(key, _) => !scan(key)
    case LoadRc(key, _) => !scan(key)
    case Probing(key, rc, _) => !scan(key) && !rc
    case Claimed(key, rc, _) => !scan(key) && !rc
    case Answered(key, rc, _) => !scan(key) && !rc
    case Done(key, rc) => rc == scan(key)
    case _ => true
  }

  ghost predicate AbsentInv(scan: nat -> bool, m: Memo) {
    AbsentTable(scan, m.slots) && forall t :: t in m.tasks ==> AbsentTask(scan, m.tasks[t])
  }

  lemma AbsentStep(m: Memo, scan: nat -> bool, s: Step)
    requires AbsentInv(scan, m) && Guard(m, s)
    ensures AbsentInv(scan, Apply(Absences, m, scan, s))
  {
    var m' := Apply(Absences, m, scan, s);
    if s.Move? { assert AbsentTask(scan, m.tasks[s.t]); }
    forall t | t in m'.tasks && t != s.t ensures AbsentTask(scan, m'.tasks[t]) { assert m'.tasks[t] == m.tasks[t]; }
  }

  lemma {:induction false} AbsentRuns(tr: seq<Memo>, ss: seq<Step>, scan: nat -> bool, k: nat)
    requires IsRun(Absences, tr, ss, scan) && !scan(0) && k < |tr|
    ensures AbsentInv(scan, tr[k])
    decreases k
  {
    if k > 0 {
      AbsentRuns(tr, ss, scan, k - 1);
      assert StepsTo(Absences, tr[k - 1], scan, ss[k - 1], tr[k - 1 + 1]);
      AbsentStep(tr[k - 1], scan, ss[k - 1]);
    }
  }

  /** Over any run of bootinfo_get_kv, null questions or not, the table says of no key that it is on the line. */
  lemma AbsencesKept(tr: seq<Memo>, ss: seq<Step>, scan: nat -> bool, k: nat, i: nat)
    requires IsRun(Absences, tr, ss, scan) && !scan(0) && k < |tr| && i < MEMO
    ensures |tr[k].slots| == MEMO && !tr[k].slots[i].rc && !scan(tr[k].slots[i].key)
  {
    AbsentRuns(tr, ss, scan, k);
  }

  /**
   * Whatever the interleaving of loads and stores, every finished question has the answer a fresh scan of the line
   * gives, whether it came from the table or from a scan; for flags, if nobody asks with a null pointer.
   */
  lemma AnswersAgree(use: Use, tr: seq<Memo>, ss: seq<Step>, scan: nat -> bool, k: nat, t: nat)
    requires IsRun(use, tr, ss, scan) && !scan(0) && (use.Flags? ==> NoNull(ss))
    requires k < |tr| && t in tr[k].tasks && tr[k].tasks[t].Done?
    ensures tr[k].tasks[t].rc == scan(tr[k].tasks[t].key)
  {
    if use.Flags? {
      RunsKeepInv(use, tr, ss, scan, k);
      assert TaskOk(use, tr[k].slots, scan, tr[k].tasks[t]);
    } else {
      AbsentRuns(tr, ss, scan, k);
      assert AbsentTask(scan, tr[k].tasks[t]);
    }
  }

  // ---- the code, with the table moving under it -----------------------------

  /** The table as each of a task's loads finds it: right at every moment, and only filling. */
  ghost predicate Seen(use: Use, scan: nat -> bool, seen: nat -> seq<Slot>) {
    && (forall n: nat :: TableOk(use, seen(n), scan))
    && (forall n: nat, k: nat :: n <= k ==> Grows(seen(n), seen(k)))
  }

  /** The table does not move. */
  ghost predicate Still(seen: nat -> seq<Slot>) { forall n: nat :: seen(n) == seen(0) }

  /** The slot of the `n`-th look for the key has its answer. */
  predicate ReadyFor(slots: seq<Slot>, key: nat, n: nat)
    requires |slots| == MEMO
  {
    slots[At(key, n)].key == key && slots[At(key, n)].ready
  }

  /** Any moments of a run, in order, are what a task's loads may find. */
  lemma RunSeen(use: Use, tr: seq<Memo>, ss: seq<Step>, scan: nat -> bool, when: nat -> nat)
    requires IsRun(use, tr, ss, scan) && NoNull(ss) && InOrder(when, |tr|)
    ensures Seen(use, scan, Moments(tr, when))
  {
    var seen := Moments(tr, when);
    forall n: nat ensures TableOk(use, seen(n), scan) { RunsKeepInv(use, tr, ss, scan, when(n)); }
    forall n: nat, k: nat | n <= k ensures Grows(seen(n), seen(k)) { RunsGrow(use, tr, ss, scan, when(n), when(k)); }
  }

  /** For absences, null questions or not. */
  lemma RunSeenAbsent(tr: seq<Memo>, ss: seq<Step>, scan: nat -> bool, when: nat -> nat)
    requires IsRun(Absences, tr, ss, scan) && !scan(0) && InOrder(when, |tr|)
    ensures SeenAbsent(scan, Moments(tr, when))
  {
    forall n: nat ensures AbsentTable(scan, Moments(tr, when)(n)) { AbsentRuns(tr, ss, scan, when(n)); }
  }

  ghost predicate SeenAbsent(scan: nat -> bool, seen: nat -> seq<Slot>) { forall n: nat :: AbsentTable(scan, seen(n)) }

  ghost predicate InOrder(when: nat -> nat, len: nat) {
    (forall n: nat :: when(n) < len) && (forall n: nat, k: nat :: n <= k ==> when(n) <= when(k))
  }

  ghost function Moments(tr: seq<Memo>, when: nat -> nat): nat -> seq<Slot> {
    (n: nat) => if when(n) < |tr| then tr[when(n)].slots else []
  }

  /** What memo_get's loads come to from the `probe`-th slot on, the n-th finding the table as `seen(n)`. */
  function Lookup(seen: nat -> seq<Slot>, key: nat, probe: nat): Option<bool>
    requires forall n: nat :: |seen(n)| == MEMO
    decreases PROBES - probe
  {
    if probe >= PROBES then None
    else
      var i := At(key, probe);
      if seen(probe)[i].key == key then if seen(probe + 1)[i].ready then Some(seen(probe + 2)[i].rc) else None
      else if seen(probe)[i].key == 0 then None
      else Lookup(seen, key, probe + 1)
  }

  /** memo_get */
  method MemoGet(seen: nat -> seq<Slot>, key: nat) returns (r: Option<bool>)
    requires forall n: nat :: |seen(n)| == MEMO
    ensures r == Lookup(seen, key, 0)
  {
    for probe := 0 to PROBES
      invariant Lookup(seen, key, probe) == Lookup(seen, key, 0)
    {
      var i := At(key, probe);
      if seen(probe)[i].key == key {
        if !seen(probe + 1)[i].ready { return None; }
        return Some(seen(probe + 2)[i].rc);
      }
      if seen(probe)[i].key == 0 { return None; }
    }
    return None;
  }

  /** On a table of absences an answer means the key is not on the line. */
  lemma {:induction false} LookupAbsent(scan: nat -> bool, seen: nat -> seq<Slot>, key: nat, probe: nat)
    requires (forall n: nat :: |seen(n)| == MEMO) && SeenAbsent(scan, seen) && Lookup(seen, key, probe).Some?
    ensures !scan(key)
    decreases PROBES - probe
  {
    assert AbsentTable(scan, seen(probe));
    if probe < PROBES && seen(probe)[At(key, probe)].key != key { LookupAbsent(scan, seen, key, probe + 1); }
  }

  /**
   * An answer is the scan's, however the table moved; and what was ready within reach when the lookup began is found.
   */
  lemma {:induction false} LookupRight(use: Use, scan: nat -> bool, seen: nat -> seq<Slot>, key: nat, probe: nat)
    requires Seen(use, scan, seen) && (key != 0 || Still(seen)) && probe <= PROBES && Passed(seen(probe), key, probe)
    ensures var r := Lookup(seen, key, probe);
            if r.Some? then RightFor(use, scan, key, r.value)
            else forall n :: 0 <= n < PROBES && Passed(seen(0), key, n) ==> !ReadyFor(seen(0), key, n)
    decreases PROBES - probe
  {
    if probe == PROBES {
      AllPassed(use, scan, seen, key);
    } else {
      var i := At(key, probe);
      assert Grows(seen(probe), seen(probe + 1)) && Grows(seen(probe + 1), seen(probe + 2));
      assert SlotGrows(seen(probe)[i], seen(probe + 1)[i]) && SlotGrows(seen(probe + 1)[i], seen(probe + 2)[i]);
      assert SlotOk(use, seen(probe + 2), scan, i);
      assert key == 0 ==> seen(probe + 1) == seen(probe) && seen(probe + 2) == seen(probe);
      if seen(probe)[i].key == key {
        if !seen(probe + 1)[i].ready { Reached(use, scan, seen, key, probe); }
      } else if seen(probe)[i].key == 0 {
        NothingThere(use, scan, seen, key, probe);
      } else {
        PassedKept(seen(probe), seen(probe + 1), key, probe);
        LookupRight(use, scan, seen, key, probe + 1);
      }
    }
  }

  /** Of the slots within reach at first, those before the one the lookup has come to hold other keys. */
  lemma Reached(use: Use, scan: nat -> bool, seen: nat -> seq<Slot>, key: nat, probe: nat)
    requires Seen(use, scan, seen) && probe < PROBES && Passed(seen(probe), key, probe)
    requires seen(probe)[At(key, probe)].key == key && !seen(probe + 1)[At(key, probe)].ready
    ensures forall n :: 0 <= n < PROBES && Passed(seen(0), key, n) ==> !ReadyFor(seen(0), key, n)
  {
    forall n | 0 <= n < PROBES && Passed(seen(0), key, n)
      ensures !ReadyFor(seen(0), key, n)
    {
      assert SlotOk(use, seen(0), scan, At(key, n));
      assert SlotGrows(seen(0)[At(key, n)], seen(probe)[At(key, n)])
             && SlotGrows(seen(0)[At(key, n)], seen(probe + 1)[At(key, n)]);
    }
  }

  lemma NothingThere(use: Use, scan: nat -> bool, seen: nat -> seq<Slot>, key: nat, probe: nat)
    requires Seen(use, scan, seen) && probe < PROBES && Passed(seen(probe), key, probe)
    requires seen(probe)[At(key, probe)].key == 0
    ensures forall n :: 0 <= n < PROBES && Passed(seen(0), key, n) ==> !ReadyFor(seen(0), key, n)
  {
    forall n | 0 <= n < PROBES && Passed(seen(0), key, n)
      ensures !ReadyFor(seen(0), key, n)
    {
      assert SlotOk(use, seen(0), scan, At(key, n));
      assert SlotGrows(seen(0)[At(key, n)], seen(probe)[At(key, n)]);
    }
  }

  lemma AllPassed(use: Use, scan: nat -> bool, seen: nat -> seq<Slot>, key: nat)
    requires Seen(use, scan, seen) && Passed(seen(PROBES), key, PROBES)
    ensures forall n :: 0 <= n < PROBES && Passed(seen(0), key, n) ==> !ReadyFor(seen(0), key, n)
  {
    forall n | 0 <= n < PROBES && Passed(seen(0), key, n)
      ensures !ReadyFor(seen(0), key, n)
    {
      assert SlotOk(use, seen(0), scan, At(key, n));
      assert SlotGrows(seen(0)[At(key, n)], seen(PROBES)[At(key, n)]);
    }
  }

  /**
   * bootinfo_has_flag: from the table or by a scan, the same answer. `line` is the command line, `text` what each
   * address holds.
   */
  method HasFlag(seen: nat -> seq<Slot>, line: string, text: nat -> string, key: nat,
                 ghost scan: nat -> bool) returns (r: bool)
    requires Seen(Flags, scan, seen) && forall k :: scan(k) <==> HasToken(line, text(k))
    ensures key != 0 || Still(seen) ==> (r <==> HasToken(line, text(key)))
  {
    var known := MemoGet(seen, key);
    if key != 0 || Still(seen) { LookupRight(Flags, scan, seen, key, 0); }
    if known.Some? { return known.value; }
    r := FlagScan(line, text(key));
  }

  ghost predicate HasPair(line: string, key: string) { key != "" && exists s: nat, e: nat :: IsPair(line, key, s, e) }

  /** bootinfo_get_kv: the value as a scan finds it, or an empty one for a key that is not on the line. */
  method GetKv(seen: nat -> seq<Slot>, line: string, text: nat -> string, key: nat, room: nat, ghost scan: nat -> bool)
    returns (r: bool, out: string)
    requires SeenAbsent(scan, seen) && forall k :: scan(k) <==> HasPair(line, text(k))
    ensures r <==> HasPair(line, text(key))
    ensures r ==>
            exists s: nat, e: nat :: FirstPair(line, text(key), s, e) && out == Cut(line[s + |text(key)| + 1..e], room)
    ensures !r ==> out == ""
  {
    out := "";
    var known := MemoGet(seen, key);
    if known.Some? {
      LookupAbsent(scan, seen, key, 0);
      return false, "";
    }
    var found := KvScan(line, text(key), room);
    if found.None? { return false, ""; }
    return true, found.value;
  }
}
