/**
 * The collect-sort-write flush of blk_flush_matching: claim every dirty slot of a range, put the claims in block order,
 * cut them into runs of consecutive blocks and send each run as one command.
 */
module CacheFlush {
  import opened Words
  import opened CacheState
  import opened CacheProtocol
  import opened CachePool
  import opened CacheSerial

  // ---- sorting --------------------------------------------------------------

  /** By device, then by block. */
  predicate Before(a: Key, b: Key) { a.dev < b.dev || (a.dev == b.dev && a.blk <= b.blk) }

  ghost predicate SlotsIn(slots: seq<Slot>, set_: seq<nat>) { forall k :: 0 <= k < |set_| ==> set_[k] < |slots| }

  ghost predicate Ordered(slots: seq<Slot>, set_: seq<nat>)
    requires SlotsIn(slots, set_)
  {
    forall i, j :: 0 <= i < j < |set_| ==> Before(slots[set_[i]].key, slots[set_[j]].key)
  }

  /** Moving the hole one place down moves no element out of the sequence. */
  lemma HoleMoves(r: seq<nat>, j: nat, v: nat)
    requires 0 < j < |r|
    ensures multiset(r[j := r[j - 1]][j - 1 := v]) == multiset(r[j := v])
  {
    var a, b := r[j := r[j - 1]][j - 1 := v], r[j := v];
    assert a == r[..j - 1] + [v, r[j - 1]] + r[j + 1..];
    assert b == r[..j - 1] + [r[j - 1], v] + r[j + 1..];
  }

  /** The prefix up to `i` with a hole at `j` for `v`, everything past the hole belonging after `v`. */
  ghost predicate Holed(slots: seq<Slot>, r: seq<nat>, i: nat, j: nat, v: nat) {
    && SlotsIn(slots, r) && v < |slots| && j <= i < |r|
    && (forall a, b :: 0 <= a < b <= i && a != j && b != j ==> Before(slots[r[a]].key, slots[r[b]].key))
    && (forall b :: j < b <= i ==> Before(slots[v].key, slots[r[b]].key))
  }

  /** The insertion sort of blk_flush_sorted. */
  method SortSet(slots: seq<Slot>, set_: seq<nat>) returns (r: seq<nat>)
    requires SlotsIn(slots, set_)
    ensures multiset(r) == multiset(set_) && SlotsIn(slots, r) && Ordered(slots, r)
  {
    r := set_;
    var i := 1;
    while i < |r|
      invariant |r| == |set_| && multiset(r) == multiset(set_) && SlotsIn(slots, r)
      invariant i >= 1 && forall a, b :: 0 <= a < b < i && b < |r| ==> Before(slots[r[a]].key, slots[r[b]].key)
    {
      r := InsertAt(slots, r, i);
      i := i + 1;
    }
  }

  method InsertAt(slots: seq<Slot>, set_: seq<nat>, i: nat) returns (r: seq<nat>)
    requires SlotsIn(slots, set_) && i < |set_|
    requires forall a, b :: 0 <= a < b < i ==> Before(slots[set_[a]].key, slots[set_[b]].key)
    ensures |r| == |set_| && multiset(r) == multiset(set_) && SlotsIn(slots, r)
    ensures forall a, b :: 0 <= a < b <= i ==> Before(slots[r[a]].key, slots[r[b]].key)
  {
    r := set_;
    var v, j := r[i], i;
    assert r[i := v] == r;
    while j > 0 && !Before(slots[r[j - 1]].key, slots[v].key)
      invariant |r| == |set_| && Holed(slots, r, i, j, v) && multiset(r[j := v]) == multiset(set_)
    {
      HoleMoves(r, j, v);
      HoleKept(slots, r, i, j, v);
      r := r[j := r[j - 1]];
      j := j - 1;
    }
    HoleFilled(slots, r, i, j, v, r[j := v]);
    r := r[j := v];
  }

  lemma HoleKept(slots: seq<Slot>, r: seq<nat>, i: nat, j: nat, v: nat)
    requires Holed(slots, r, i, j, v) && j > 0 && !Before(slots[r[j - 1]].key, slots[v].key)
    ensures Holed(slots, r[j := r[j - 1]], i, j - 1, v)
  {
  }

  lemma HoleFilled(slots: seq<Slot>, r: seq<nat>, i: nat, j: nat, v: nat, r': seq<nat>)
    requires Holed(slots, r, i, j, v) && (j > 0 ==> Before(slots[r[j - 1]].key, slots[v].key)) && r' == r[j := v]
    ensures SlotsIn(slots, r')
    ensures forall a, b :: 0 <= a < b <= i ==> Before(slots[r'[a]].key, slots[r'[b]].key)
  {
    forall a, b | 0 <= a < b <= i
      ensures Before(slots[r'[a]].key, slots[r'[b]].key)
    {
      if b == j {
        assert a == j - 1 || Before(slots[r[a]].key, slots[r[j - 1]].key);
      }
    }
  }

  // ---- claims, one command each ---------------------------------------------

  /** Slots in `wait` are claimed for writing, those in `sent` are on the medium; nothing else is in flight. */
  ghost predicate Flushing(s: Cache, wait: set<nat>, sent: set<nat>) {
    && Inv(s) && wait !! sent && s.ops.Keys == wait + sent
    && (forall i :: i in wait ==> i < |s.slots| && s.ops[i] == Write([i], [s.slots[i].data], false))
    && (forall i :: i in sent ==> i < |s.slots| && s.ops[i] == Write([i], [s.slots[i].data], true))
  }

  /** A slot claimed for a write of its own is a step of the protocol. */
  lemma ClaimMoves(s: Cache, s': Cache, i: nat)
    requires Inv(s) && i !in s.ops && i < |s.slots| && Writable(s.slots[i])
    requires s'.slots == s.slots[i := s.slots[i].(busy := true)]
    requires s'.ops == s.ops[i := Write([i], [s.slots[i].data], false)]
    requires s'.chains == s.chains && s'.medium == s.medium && s'.logical == s.logical
    ensures Inv(s')
  {
    assert Claimed(s.slots, [i], true, false) == s'.slots;
    assert Copies(s.slots, [i]) == [s.slots[i].data];
    WriteStartIs(s, s', i, [i]);
  }

  lemma ClaimIs(s: Cache, s': Cache, i: nat, wait: set<nat>)
    requires Flushing(s, wait, {}) && i < |s.slots| && Writable(s.slots[i])
    requires s'.slots == s.slots[i := s.slots[i].(busy := true)]
    requires s'.ops == s.ops[i := Write([i], [s.slots[i].data], false)]
    requires s'.chains == s.chains && s'.medium == s.medium && s'.logical == s.logical
    ensures Flushing(s', wait + {i}, {})
  {
    Unclaimed(s, wait, i);
    ClaimMoves(s, s', i);
  }

  lemma Unclaimed(s: Cache, wait: set<nat>, i: nat)
    requires Flushing(s, wait, {}) && i < |s.slots| && !s.slots[i].busy
    ensures i !in s.ops
  {
    if i in wait { assert Owns(s, i, i); }
  }

  lemma SendIs(s: Cache, s': Cache, i: nat, wait: set<nat>, sent: set<nat>)
    requires Flushing(s, wait, sent) && i in wait
    requires s'.medium == s.medium[s.slots[i].key := s.slots[i].data]
    requires s'.ops == s.ops[i := Write([i], [s.slots[i].data], true)]
    requires s'.slots == s.slots && s'.chains == s.chains && s'.logical == s.logical
    ensures Flushing(s', wait - {i}, sent + {i})
  {
    assert Landed(s.medium, s.slots, [i], [s.slots[i].data], 1) == s'.medium by {
      assert Landed(s.medium, s.slots, [i], [s.slots[i].data], 0) == s.medium;
    }
    WriteLandIs(s, s', i);
  }

  lemma ReleaseIs(s: Cache, s': Cache, i: nat, wait: set<nat>, sent: set<nat>)
    requires Flushing(s, wait, sent) && i in sent
    requires s'.slots == s.slots[i := s.slots[i].(busy := false, dirty := false)] && s'.ops == s.ops - {i}
    requires s'.chains == s.chains && s'.medium == s.medium && s'.logical == s.logical
    ensures Flushing(s', wait, sent - {i})
  {
    assert Claimed(s.slots, [i], false, true) == s'.slots;
    WriteEndIs(s, s', i, [i], true, map[]);
  }

  // ---- runs -----------------------------------------------------------------

  ghost function SetOf(xs: seq<nat>): set<nat> { set x | x in xs }

  lemma SetOfSplit(xs: seq<nat>, k: nat)
    requires Distinct(xs) && k < |xs|
    ensures SetOf(xs[..k + 1]) == SetOf(xs[..k]) + {xs[k]} && xs[k] !in SetOf(xs[..k])
    ensures SetOf(xs[k..]) == SetOf(xs[k + 1..]) + {xs[k]} && xs[k] !in SetOf(xs[k + 1..])
  {
    assert xs[..k + 1] == xs[..k] + [xs[k]];
    assert xs[k..] == [xs[k]] + xs[k + 1..];
  }

  /** The medium with the first `n` blocks of the run sent to block `base` of the device and on. */
  function Sent(medium: map<Key, Block>, slots: seq<Slot>, run: seq<nat>, dev: nat, base: nat, n: nat): map<Key, Block>
    requires n <= |run|
  {
    if n == 0 then medium
    else
      var m := Sent(medium, slots, run, dev, base, n - 1);
      if run[n - 1] < |slots| then m[Key(dev, base + n - 1) := slots[run[n - 1]].data] else m
  }

  /** The claims with the first `n` of the run noted as on the medium. */
  ghost function SentOps(ops: map<nat, Op>, slots: seq<Slot>, run: seq<nat>, n: nat): map<nat, Op>
    requires n <= |run|
  {
    if n == 0 then ops
    else
      var o := SentOps(ops, slots, run, n - 1);
      if run[n - 1] < |slots| then o[run[n - 1] := Write([run[n - 1]], [slots[run[n - 1]].data], true)] else o
  }

  ghost function SentState(s: Cache, run: seq<nat>, dev: nat, base: nat, n: nat): Cache
    requires n <= |run|
  {
    s.(medium := Sent(s.medium, s.slots, run, dev, base, n), ops := SentOps(s.ops, s.slots, run, n))
  }

  /** Block after block, each slot of the run reaches its own block. */
  lemma {:induction false} RunSent(s: Cache, run: seq<nat>, dev: nat, base: nat, wait: set<nat>, n: nat)
    requires Flushing(s, wait, {}) && Distinct(run) && SetOf(run) <= wait && Consecutive(s.slots, run, dev, base)
    requires n <= |run|
    ensures Flushing(SentState(s, run, dev, base, n), wait - SetOf(run[..n]), SetOf(run[..n]))
    decreases n
  {
    if n == 0 {
      assert SentState(s, run, dev, base, 0) == s;
    } else {
      RunSent(s, run, dev, base, wait, n - 1);
      SetOfSplit(run, n - 1);
      assert run[n - 1] in SetOf(run);
      SendIs(SentState(s, run, dev, base, n - 1), SentState(s, run, dev, base, n), run[n - 1],
             wait - SetOf(run[..n - 1]), SetOf(run[..n - 1]));
      assert wait - SetOf(run[..n]) == wait - SetOf(run[..n - 1]) - {run[n - 1]};
    }
  }

  ghost function ReleasedState(s: Cache, run: seq<nat>, n: nat): Cache
    requires n <= |run|
  {
    s.(slots := Claimed(s.slots, run[..n], false, true), ops := s.ops - SetOf(run[..n]))
  }

  lemma ReleasedNext(s: Cache, run: seq<nat>, n: nat, i: nat)
    requires Distinct(run) && n < |run| && i == run[n] && i < |s.slots|
    ensures ReleasedState(s, run, n + 1).slots
         == ReleasedState(s, run, n).slots[i := ReleasedState(s, run, n).slots[i].(busy := false, dirty := false)]
    ensures ReleasedState(s, run, n + 1).ops == ReleasedState(s, run, n).ops - {i}
  {
    ReleasedOneMore(s.slots, run[..n], i, true);
    assert run[..n + 1] == run[..n] + [i];
    SetOfSplit(run, n);
  }

  lemma {:induction false} RunReleased(s: Cache, run: seq<nat>, wait: set<nat>, n: nat)
    requires Flushing(s, wait, SetOf(run)) && Distinct(run) && n <= |run|
    ensures Flushing(ReleasedState(s, run, n), wait, SetOf(run[n..]))
    decreases n
  {
    if n == 0 {
      assert run[0..] == run;
      assert ReleasedState(s, run, 0) == s;
    } else {
      RunReleased(s, run, wait, n - 1);
      SetOfSplit(run, n - 1);
      var i := run[n - 1];
      assert i in SetOf(run);
      ReleasedNext(s, run, n - 1, i);
      ReleaseIs(ReleasedState(s, run, n - 1), ReleasedState(s, run, n), i, wait, SetOf(run[n - 1..]));
      assert SetOf(run[n..]) == SetOf(run[n - 1..]) - {i};
    }
  }

  /** One command: the run's bytes, end to end, from block `base` of the device on. */
  method SendRun(p: Pool, run: seq<nat>, dev: nat, base: nat)
    requires SlotsIn(p.slots, run)
    modifies p`medium, p`ops
    ensures p.medium == Sent(old(p.medium), p.slots, run, dev, base, |run|)
    ensures p.ops == SentOps(old(p.ops), p.slots, run, |run|)
  {
    for k := 0 to |run|
      invariant p.medium == Sent(old(p.medium), p.slots, run, dev, base, k)
      invariant p.ops == SentOps(old(p.ops), p.slots, run, k)
    {
      p.medium := p.medium[Key(dev, base + k) := p.slots[run[k]].data];
      p.ops := p.ops[run[k] := Write([run[k]], [p.slots[run[k]].data], true)];
    }
  }

  /** blk_flush_release: the claims of a run that landed are given back, clean. */
  method ReleaseSent(p: Pool, run: seq<nat>)
    requires SlotsIn(p.slots, run) && Distinct(run)
    modifies p`slots, p`ops
    ensures p.slots == Claimed(old(p.slots), run, false, true) && p.ops == old(p.ops) - SetOf(run)
  {
    p.ReleaseRun(run, true);
    p.ops := p.ops - SetOf(run);
  }

  // ---- refused commands -----------------------------------------------------

  /**
   * How a device answers during a flush, which sends no command twice: whether it takes one of so many blocks from a
   * block on, and what refused ones leave behind.
   */
  datatype Taking = Taking(takes: (Key, nat) -> bool, junk: map<Key, Block>)

  /** A claim given back: the slot is clean unless the device refused its block by itself. */
  predicate Settled(b: Slot, b': Slot, d: Taking) {
    b' == b.(busy := false, dirty := b'.dirty) && (b'.dirty ==> b.dirty && !d.takes(b.key, 1))
  }

  ghost predicate Cleared(slots: seq<Slot>, slots': seq<Slot>, done: set<nat>, d: Taking) {
    && |slots'| == |slots|
    && forall i :: 0 <= i < |slots| ==> if i in done then Settled(slots[i], slots'[i], d) else slots'[i] == slots[i]
  }

  lemma ClearedMore(s0: seq<Slot>, s1: seq<Slot>, s2: seq<Slot>, a: set<nat>, b: set<nat>, d: Taking)
    requires Cleared(s0, s1, a, d) && Cleared(s1, s2, b, d) && a !! b
    ensures Cleared(s0, s2, a + b, d)
  {
  }

  lemma ClaimedClears(slots: seq<Slot>, run: seq<nat>, d: Taking)
    ensures Cleared(slots, Claimed(slots, run, false, true), SetOf(run), d)
  {
  }

  lemma RefuseIs(s: Cache, s': Cache, i: nat, wait: set<nat>, junk: map<Key, Block>)
    requires Flushing(s, wait, {}) && i in wait
    requires s'.slots == s.slots[i := s.slots[i].(busy := false)] && s'.ops == s.ops - {i}
    requires s'.medium == Spoiled(s.medium, s.slots, [i], junk) && s'.chains == s.chains && s'.logical == s.logical
    ensures Flushing(s', wait - {i}, {})
  {
    assert OpOk(s, s.ops[i]);
    assert Claimed(s.slots, [i], false, false) == s'.slots;
    WriteEndIs(s, s', i, [i], false, junk);
  }

  /**
   * A command refused while its claims are kept: the device may hold anything there, readers are owed what they were.
   */
  lemma SpoilIs(s: Cache, s': Cache, run: seq<nat>, wait: set<nat>, junk: map<Key, Block>)
    requires Flushing(s, wait, {}) && SetOf(run) <= wait
    requires s' == s.(medium := Spoiled(s.medium, s.slots, run, junk))
    ensures Flushing(s', wait, {})
  {
    forall k | 0 <= k < |run|
      ensures run[k] < |s.slots| && s.slots[run[k]].valid && s.slots[run[k]].dirty && s.slots[run[k]].hashed
    {
      assert run[k] in SetOf(run);
      assert OpOk(s, s.ops[run[k]]) && s.ops[run[k]].run[0] == run[k];
      assert FlagsOk(s.slots[run[k]]);
    }
    forall id | id in s'.ops
      ensures OpOk(s', s'.ops[id])
    {
      assert id in wait && OpOk(s, s.ops[id]);
    }
    SpoilFresh(s, s', run, junk);
    assert forall b :: 0 <= b < |s.chains| ==> BucketOk(s, b) ==> BucketOk(s', b);
    assert forall id: nat, i: nat :: Owns(s', id, i) <==> Owns(s, id, i);
  }

  lemma SpoilFresh(s: Cache, s': Cache, run: seq<nat>, junk: map<Key, Block>)
    requires Inv(s) && s' == s.(medium := Spoiled(s.medium, s.slots, run, junk))
    requires forall k :: 0 <= k < |run| ==>
             run[k] < |s.slots| && s.slots[run[k]].valid && s.slots[run[k]].dirty && s.slots[run[k]].hashed
    ensures Fresh(s')
  {
    SpoilOnlyRun(s, run, junk);
    forall i | 0 <= i < |s.slots|
      ensures SlotFresh(s', s'.slots[i])
    {
      assert SlotFresh(s, s.slots[i]) && FlagsOk(s.slots[i]);
    }
    forall k | !Held(s', k)
      ensures Get(s'.medium, k) == Get(s'.logical, k)
    {
      assert s'.slots == s.slots;
    }
  }

  /** The claims of a refused block are given back, still dirty. */
  method RefuseOne(p: Pool, i: nat, junk: map<Key, Block>, ghost wait: set<nat>)
    requires p.Valid() && Flushing(p.View(), wait, {}) && i in wait
    modifies p`medium, p`ops, p`slots
    ensures p.Valid() && Flushing(p.View(), wait - {i}, {})
    ensures p.slots == old(p.slots)[i := old(p.slots)[i].(busy := false)]
  {
    ghost var s := p.View();
    p.medium := Spoiled(p.medium, p.slots, [i], junk);
    p.slots := p.slots[i := p.slots[i].(busy := false)];
    p.ops := p.ops - {i};
    RefuseIs(s, p.View(), i, wait, junk);
  }

  /** A run sent as one command the device takes. */
  method FlushWhole(p: Pool, run: seq<nat>, dev: nat, base: nat, ghost wait: set<nat>)
    requires p.Valid() && Flushing(p.View(), wait, {}) && Distinct(run) && SetOf(run) <= wait
    requires Consecutive(p.slots, run, dev, base)
    modifies p`medium, p`ops, p`slots
    ensures p.Valid() && Flushing(p.View(), wait - SetOf(run), {}) && p.slots == Claimed(old(p.slots), run, false, true)
  {
    ghost var s := p.View();
    SendRun(p, run, dev, base);
    ghost var s1 := p.View();
    RunSent(s, run, dev, base, wait, |run|);
    assert run[..|run|] == run && run[|run|..] == [];
    assert s1 == SentState(s, run, dev, base, |run|);
    ReleaseSent(p, run);
    RunReleased(s1, run, wait - SetOf(run), |run|);
    assert p.View() == ReleasedState(s1, run, |run|);
  }

  /** One block by itself. */
  method FlushOne(p: Pool, i: nat, d: Taking, ghost wait: set<nat>)
    requires p.Valid() && Flushing(p.View(), wait, {}) && i in wait
    modifies p`medium, p`ops, p`slots
    ensures p.Valid() && Flushing(p.View(), wait - {i}, {}) && Cleared(old(p.slots), p.slots, {i}, d)
  {
    var k := p.slots[i].key;
    if d.takes(k, 1) {
      assert SetOf([i]) == {i};
      ClaimedClears(p.slots, [i], d);
      FlushWhole(p, [i], k.dev, k.blk, wait);
    } else {
      RefuseOne(p, i, d.junk, wait);
    }
  }

  /** Block by block, after a run was refused. */
  method FlushEach(p: Pool, run: seq<nat>, d: Taking, ghost wait: set<nat>)
    requires p.Valid() && Flushing(p.View(), wait, {}) && Distinct(run) && SetOf(run) <= wait
    modifies p`medium, p`ops, p`slots
    ensures p.Valid() && Flushing(p.View(), wait - SetOf(run), {}) && Cleared(old(p.slots), p.slots, SetOf(run), d)
  {
    assert SetOf(run[..0]) == {};
    for k := 0 to |run|
      invariant p.Valid() && Flushing(p.View(), wait - SetOf(run[..k]), {})
      invariant Cleared(old(p.slots), p.slots, SetOf(run[..k]), d)
    {
      ghost var was, left := p.slots, wait - SetOf(run[..k]);
      SetOfSplit(run, k);
      assert run[k] in SetOf(run);
      FlushOne(p, run[k], d, left);
      ClearedMore(old(p.slots), was, p.slots, SetOf(run[..k]), {run[k]}, d);
      assert left - {run[k]} == wait - SetOf(run[..k + 1]);
    }
    assert run[..|run|] == run;
  }

  /**
   * blk_flush_run: one command, or if the device refuses it one for each block; what is refused by itself keeps its
   * bytes in the cache, dirty.
   */
  method FlushRun(p: Pool, run: seq<nat>, dev: nat, base: nat, d: Taking, ghost wait: set<nat>)
    requires p.Valid() && Flushing(p.View(), wait, {}) && Distinct(run) && SetOf(run) <= wait
    requires Consecutive(p.slots, run, dev, base)
    modifies p`medium, p`ops, p`slots
    ensures p.Valid() && Flushing(p.View(), wait - SetOf(run), {}) && Cleared(old(p.slots), p.slots, SetOf(run), d)
    ensures d.takes(Key(dev, base), |run|) ==> p.slots == Claimed(old(p.slots), run, false, true)
  {
    if d.takes(Key(dev, base), |run|) {
      ClaimedClears(p.slots, run, d);
      FlushWhole(p, run, dev, base, wait);
    } else {
      if |run| > 1 {
        ghost var s := p.View();
        p.medium := Spoiled(p.medium, p.slots, run, d.junk);
        SpoilIs(s, p.View(), run, wait, d.junk);
      }
      FlushEach(p, run, d, wait);
    }
  }

  // ---- cutting --------------------------------------------------------------

  /** Whether a run that starts at `start` ends before position `i`. */
  predicate Breaks(slots: seq<Slot>, order: seq<nat>, start: nat, i: nat, cap: nat)
    requires SlotsIn(slots, order) && start < i <= |order|
  {
    || i == |order|
    || slots[order[i]].key.dev != slots[order[i - 1]].key.dev
    || slots[order[i]].key.blk != slots[order[i - 1]].key.blk + 1
    || i - start >= cap
  }

  lemma {:induction false} CountAtMostOne(xs: seq<nat>, x: nat)
    requires Distinct(xs)
    ensures multiset(xs)[x] <= 1
    decreases |xs|
  {
    if xs != [] {
      assert xs == [xs[0]] + xs[1..];
      CountAtMostOne(xs[1..], x);
      assert x == xs[0] ==> x !in xs[1..];
    }
  }

  lemma CountTwo(xs: seq<nat>, i: nat, j: nat)
    requires i < j < |xs| && xs[i] == xs[j]
    ensures multiset(xs)[xs[i]] >= 2
  {
    assert xs == xs[..j] + [xs[j]] + xs[j + 1..];
    assert xs[i] in xs[..j];
  }

  /** Sorting keeps claims distinct and loses none. */
  lemma SameElements(xs: seq<nat>, ys: seq<nat>)
    requires Distinct(xs) && multiset(xs) == multiset(ys)
    ensures Distinct(ys) && SetOf(ys) == SetOf(xs)
  {
    forall i, j | 0 <= i < j < |ys|
      ensures ys[i] != ys[j]
    {
      CountAtMostOne(xs, ys[i]);
      if ys[i] == ys[j] { CountTwo(ys, i, j); }
    }
    forall x: nat ensures x in xs <==> x in ys {
      assert x in xs <==> x in multiset(xs);
      assert x in ys <==> x in multiset(ys);
    }
  }

  function Concat(runs: seq<seq<nat>>): seq<nat> {
    if runs == [] then [] else Concat(runs[..|runs| - 1]) + runs[|runs| - 1]
  }

  /** One command's worth: consecutive blocks of one device, no more than it takes. */
  ghost predicate IsRunOf(slots: seq<Slot>, run: seq<nat>, cap: nat -> nat) {
    && |run| > 0 && run[0] < |slots| && Consecutive(slots, run, slots[run[0]].key.dev, slots[run[0]].key.blk)
    && (|run| <= cap(slots[run[0]].key.dev) || |run| == 1)
  }

  lemma RunGrows(slots: seq<Slot>, order: seq<nat>, start: nat, i: nat, cap: nat -> nat)
    requires SlotsIn(slots, order) && start < i < |order|
    requires !Breaks(slots, order, start, i, cap(slots[order[start]].key.dev))
    requires IsRunOf(slots, order[start..i], cap)
    ensures IsRunOf(slots, order[start..i + 1], cap)
  {
    var was, run := order[start..i], order[start..i + 1];
    assert was == run[..|run| - 1] && was[|was| - 1] == order[i - 1] && run[|run| - 1] == order[i];
    forall k | 0 <= k < |run|
      ensures run[k] < |slots| && slots[run[k]].key == Key(slots[run[0]].key.dev, slots[run[0]].key.blk + k)
    {
      if k < |was| { assert was[k] == run[k]; }
    }
  }

  /** Cut claims in block order into runs: all of them, in order, each a command the device takes. */
  method CutRuns(slots: seq<Slot>, order: seq<nat>, cap: nat -> nat) returns (runs: seq<seq<nat>>)
    requires SlotsIn(slots, order)
    ensures Concat(runs) == order && forall r :: 0 <= r < |runs| ==> IsRunOf(slots, runs[r], cap)
  {
    runs := [];
    if |order| == 0 { return; }
    var start, i := 0, 1;
    assert order[..0] == [];
    while i <= |order|
      invariant 1 <= i <= |order| + 1 && (if i > |order| then start == |order| else 0 <= start < i)
      invariant Concat(runs) == order[..start] && forall r :: 0 <= r < |runs| ==> IsRunOf(slots, runs[r], cap)
      invariant i <= |order| ==> IsRunOf(slots, order[start..i], cap)
      decreases |order| + 1 - i
    {
      if Breaks(slots, order, start, i, cap(slots[order[start]].key.dev)) {
        assert order[..i] == order[..start] + order[start..i];
        assert (runs + [order[start..i]])[..|runs|] == runs;
        runs := runs + [order[start..i]];
        start := i;
      } else {
        RunGrows(slots, order, start, i, cap);
      }
      i := i + 1;
    }
    assert order[..|order|] == order;
  }

  // ---- the whole flush ------------------------------------------------------

  lemma {:induction false} ConcatPrefix(runs: seq<seq<nat>>, r: nat)
    requires r <= |runs|
    ensures Concat(runs[..r]) <= Concat(runs)
    decreases |runs|
  {
    if r < |runs| {
      var init := runs[..|runs| - 1];
      ConcatPrefix(init, r);
      assert init[..r] == runs[..r];
    } else {
      assert runs[..r] == runs;
    }
  }

  /** The runs partition the claims. */
  lemma RunFacts(runs: seq<seq<nat>>, r: nat)
    requires Distinct(Concat(runs)) && r < |runs|
    ensures Distinct(runs[r]) && SetOf(runs[r]) <= SetOf(Concat(runs)) - SetOf(Concat(runs[..r]))
    ensures Concat(runs[..r + 1]) == Concat(runs[..r]) + runs[r]
  {
    assert runs[..r + 1][..r] == runs[..r] && runs[..r + 1][r] == runs[r];
    ConcatPrefix(runs, r + 1);
    PartFacts(Concat(runs[..r]), runs[r], Concat(runs));
  }

  lemma PartFacts(front: seq<nat>, part: seq<nat>, all: seq<nat>)
    requires Distinct(all) && front + part <= all
    ensures Distinct(part) && SetOf(part) <= SetOf(all) - SetOf(front)
  {
    forall k | 0 <= k < |part|
      ensures part[k] in all && part[k] !in front
    {
      assert all[|front| + k] == part[k];
      forall j | 0 <= j < |front| ensures front[j] != part[k] { assert all[j] == front[j]; }
    }
    forall i, j | 0 <= i < j < |part|
      ensures part[i] != part[j]
    {
      assert all[|front| + i] == part[i] && all[|front| + j] == part[j];
    }
  }

  lemma StillConsecutive(slots: seq<Slot>, slots': seq<Slot>, done: set<nat>, run: seq<nat>, cap: nat -> nat, d: Taking)
    requires IsRunOf(slots, run, cap) && Cleared(slots, slots', done, d)
    ensures IsRunOf(slots', run, cap)
  {
  }

  /** The runs before `r` are settled and given back; the rest are still claimed. */
  ghost predicate FlushedTo(s: Cache, s0: seq<Slot>, runs: seq<seq<nat>>, r: nat, d: Taking) {
    && r <= |runs| && Flushing(s, SetOf(Concat(runs)) - SetOf(Concat(runs[..r])), {})
    && Cleared(s0, s.slots, SetOf(Concat(runs[..r])), d)
  }

  method FlushNext(p: Pool, runs: seq<seq<nat>>, r: nat, cap: nat -> nat, d: Taking, ghost s0: seq<Slot>)
    requires p.Valid() && r < |runs| && Distinct(Concat(runs)) && FlushedTo(p.View(), s0, runs, r, d)
    requires IsRunOf(s0, runs[r], cap)
    modifies p`medium, p`ops, p`slots
    ensures p.Valid() && FlushedTo(p.View(), s0, runs, r + 1, d)
  {
    ghost var was, done := p.slots, SetOf(Concat(runs[..r]));
    ghost var wait := SetOf(Concat(runs)) - done;
    RunFacts(runs, r);
    StillConsecutive(s0, p.slots, done, runs[r], cap, d);
    FlushRun(p, runs[r], p.slots[runs[r][0]].key.dev, p.slots[runs[r][0]].key.blk, d, wait);
    ClearedMore(s0, was, p.slots, done, SetOf(runs[r]), d);
    assert done + SetOf(runs[r]) == SetOf(Concat(runs[..r + 1]));
    assert wait - SetOf(runs[r]) == SetOf(Concat(runs)) - SetOf(Concat(runs[..r + 1]));
  }

  /**
   * blk_flush_sorted on a claimed set: in block order, cut where the device or the sequence of blocks breaks off or the
   * device takes no more, every slot goes to its own block in exactly one run, and every claim is given back once.
   */
  method FlushSorted(p: Pool, set_: seq<nat>, cap: nat -> nat, d: Taking)
    requires p.Valid() && Distinct(set_) && Flushing(p.View(), SetOf(set_), {})
    modifies p`medium, p`ops, p`slots
    ensures Quiet(p) && Cleared(old(p.slots), p.slots, SetOf(set_), d)
  {
    ghost var s0 := p.slots;
    forall k | 0 <= k < |set_| ensures set_[k] < |p.slots| { assert set_[k] in SetOf(set_); }
    var order := SortSet(p.slots, set_);
    SameElements(set_, order);
    var runs := CutRuns(p.slots, order, cap);
    NothingFlushed(p.View(), runs, d);
    for r := 0 to |runs|
      invariant p.Valid() && FlushedTo(p.View(), s0, runs, r, d)
    {
      FlushNext(p, runs, r, cap, d, s0);
    }
    assert runs[..|runs|] == runs;
    assert SetOf(order) - SetOf(order) == {};
  }

  lemma NothingFlushed(s: Cache, runs: seq<seq<nat>>, d: Taking)
    requires Flushing(s, SetOf(Concat(runs)), {})
    ensures FlushedTo(s, s.slots, runs, 0, d)
  {
    assert runs[..0] == [] && SetOf([]) == {};
    assert SetOf(Concat(runs)) - {} == SetOf(Concat(runs));
  }

  /** Who dirtied a slot. */
  datatype Owner = Owner(fsid: nat, ino: nat)

  /** What a flush is for: blocks [first, last) of a device, of one file unless `ino` is 0. */
  datatype Want = Want(dev: nat, first: nat, last: nat, fsid: nat, ino: nat)

  /** A dirty slot of the range that may belong to the file. */
  predicate Wanted(b: Slot, o: Owner, w: Want) {
    && b.valid && b.dirty && b.key.dev == w.dev && w.first <= b.key.blk < w.last
    && (w.ino == 0 || o.ino == 0 || (o.ino == w.ino && o.fsid == w.fsid))
  }

  /** The longest set blk_flush_matching holds claims for. */
  const SET_MAX: nat := 512

  /** Claimed so far: exactly the wanted slots from `from` up to `i`. */
  ghost predicate Collected(slots: seq<Slot>, owners: nat -> Owner, set_: seq<nat>, w: Want, from: nat, i: nat) {
    && from <= i <= |slots| && |set_| <= SET_MAX && Distinct(set_)
    && (forall k :: 0 <= k < |set_| ==> from <= set_[k] < i && Wanted(slots[set_[k]], owners(set_[k]), w))
    && (forall j :: from <= j < i && Wanted(slots[j], owners(j), w) ==> j in set_)
  }

  lemma NotClaimed(s: Cache, set_: seq<nat>, i: nat)
    requires Flushing(s, SetOf(set_), {}) && i < |s.slots| && i !in set_
    ensures !s.slots[i].busy
  {
    forall id: nat ensures !Owns(s, id, i) {
      if id in s.ops {
        assert id in SetOf(set_);
        assert SlotsOf(s.ops[id]) == [id];
      }
    }
  }

  lemma TakenIn(slots: seq<Slot>, slots': seq<Slot>, owners: nat -> Owner, set_: seq<nat>, w: Want, from: nat, i: nat)
    requires i < |slots| && |set_| < SET_MAX && Collected(slots, owners, set_, w, from, i)
    requires Wanted(slots[i], owners(i), w)
    requires slots' == slots[i := slots[i].(busy := true)]
    ensures Collected(slots', owners, set_ + [i], w, from, i + 1)
  {
    var r := set_ + [i];
    forall j | from <= j < i + 1 && Wanted(slots'[j], owners(j), w)
      ensures j in r
    {
      assert j == i || Wanted(slots[j], owners(j), w);
    }
  }

  /** A slot of the scan: claim it if it is wanted. */
  method Consider(p: Pool, owners: nat -> Owner, set_: seq<nat>, w: Want, ghost from: nat, i: nat) returns (r: seq<nat>)
    requires p.Valid() && i < |p.slots| && |set_| < SET_MAX && Collected(p.slots, owners, set_, w, from, i)
    requires Flushing(p.View(), SetOf(set_), {})
    modifies p`slots, p`ops
    ensures p.Valid() && Collected(p.slots, owners, r, w, from, i + 1) && Flushing(p.View(), SetOf(r), {})
    ensures if Wanted(old(p.slots)[i], owners(i), w) then p.slots == old(p.slots)[i := old(p.slots)[i].(busy := true)]
            else p.slots == old(p.slots)
  {
    r := set_;
    if Wanted(p.slots[i], owners(i), w) {
      ghost var s := p.View();
      NotClaimed(s, set_, i);
      TakenIn(p.slots, p.slots[i := p.slots[i].(busy := true)], owners, set_, w, from, i);
      Claim(p, i, SetOf(set_));
      r := set_ + [i];
      assert SetOf(r) == SetOf(set_) + {i};
    }
  }

  method Claim(p: Pool, i: nat, ghost wait: set<nat>)
    requires p.Valid() && i < |p.slots| && Writable(p.slots[i]) && Flushing(p.View(), wait, {})
    modifies p`slots, p`ops
    ensures p.Valid() && Flushing(p.View(), wait + {i}, {})
    ensures p.slots == old(p.slots)[i := old(p.slots)[i].(busy := true)]
  {
    ghost var s := p.View();
    p.slots := p.slots[i := p.slots[i].(busy := true)];
    p.ops := p.ops[i := Write([i], [p.slots[i].data], false)];
    ClaimIs(s, p.View(), i, wait);
  }

  /** What is still wanted before `n` the device has refused. */
  ghost predicate CleanTo(slots: seq<Slot>, owners: nat -> Owner, w: Want, d: Taking, n: nat) {
    n <= |slots| && forall j :: 0 <= j < n && Wanted(slots[j], owners(j), w) ==> !d.takes(slots[j].key, 1)
  }

  /** Only flags of slots wanted at first have changed. */
  ghost predicate OnlyWanted(slots: seq<Slot>, slots': seq<Slot>, owners: nat -> Owner, w: Want) {
    && |slots'| == |slots|
    && forall j :: 0 <= j < |slots| ==>
         || slots'[j] == slots[j]
         || (Wanted(slots[j], owners(j), w) && slots'[j] == slots[j].(busy := slots'[j].busy, dirty := slots'[j].dirty))
  }

  lemma CleanedSet(slots: seq<Slot>, slots': seq<Slot>, owners: nat -> Owner, set_: seq<nat>, w: Want, d: Taking,
                   from: nat, i: nat)
    requires Collected(slots, owners, set_, w, from, i) && CleanTo(slots, owners, w, d, from)
    requires Cleared(slots, slots', SetOf(set_), d)
    ensures CleanTo(slots', owners, w, d, i)
  {
    forall j | 0 <= j < i && Wanted(slots'[j], owners(j), w)
      ensures !d.takes(slots'[j].key, 1)
    {
      assert Wanted(slots[j], owners(j), w);
      assert from <= j ==> j in SetOf(set_);
    }
  }

  lemma StillOnlyWanted(s0: seq<Slot>, slots: seq<Slot>, slots': seq<Slot>, owners: nat -> Owner, set_: seq<nat>,
                        w: Want, d: Taking, from: nat, i: nat)
    requires Collected(slots, owners, set_, w, from, i) && Cleared(slots, slots', SetOf(set_), d)
    requires OnlyWanted(s0, slots, owners, w)
    ensures OnlyWanted(s0, slots', owners, w)
  {
    forall j | 0 <= j < |s0|
      ensures || slots'[j] == s0[j]
              || (Wanted(s0[j], owners(j), w) && slots'[j] == s0[j].(busy := slots'[j].busy, dirty := slots'[j].dirty))
    {
      if j in SetOf(set_) {
        var k :| 0 <= k < |set_| && set_[k] == j;
        assert Wanted(slots[set_[k]], owners(set_[k]), w);
      }
    }
  }

  lemma NoneCollected(s: Cache, owners: nat -> Owner, w: Want, i: nat)
    requires Inv(s) && s.ops == map[] && i <= |s.slots|
    ensures Collected(s.slots, owners, [], w, i, i) && Flushing(s, SetOf([]), {})
  {
    assert SetOf([]) == {};
  }

  /** The scan at slot `i`: its set was begun at `from`, and what was wanted before that is settled. */
  ghost predicate Scanned(s: Cache, s0: seq<Slot>, owners: nat -> Owner, set_: seq<nat>, w: Want, d: Taking, from: nat,
                          i: nat) {
    && Collected(s.slots, owners, set_, w, from, i) && CleanTo(s.slots, owners, w, d, from)
    && Flushing(s, SetOf(set_), {}) && OnlyWanted(s0, s.slots, owners, w)
  }

  /** Write the set and begin another. */
  method Drain(p: Pool, owners: nat -> Owner, set_: seq<nat>, w: Want, cap: nat -> nat, d: Taking, ghost s0: seq<Slot>,
               ghost from: nat, ghost i: nat)
    requires p.Valid() && Scanned(p.View(), s0, owners, set_, w, d, from, i)
    modifies p`medium, p`ops, p`slots
    ensures Quiet(p) && Scanned(p.View(), s0, owners, [], w, d, i, i)
  {
    ghost var was := p.slots;
    FlushSorted(p, set_, cap, d);
    CleanedSet(was, p.slots, owners, set_, w, d, from, i);
    StillOnlyWanted(s0, was, p.slots, owners, set_, w, d, from, i);
    NoneCollected(p.View(), owners, w, i);
  }

  lemma StillScanned(s: Cache, s': Cache, s0: seq<Slot>, owners: nat -> Owner, w: Want, d: Taking, from: nat, i: nat)
    requires CleanTo(s.slots, owners, w, d, from) && OnlyWanted(s0, s.slots, owners, w) && from <= i < |s.slots|
    requires s'.slots == if Wanted(s.slots[i], owners(i), w) then s.slots[i := s.slots[i].(busy := true)] else s.slots
    ensures CleanTo(s'.slots, owners, w, d, from) && OnlyWanted(s0, s'.slots, owners, w)
  {
  }

  /** One slot of the scan; a full set is written first, and the slot looked at again. */
  method ScanSlot(p: Pool, owners: nat -> Owner, set_: seq<nat>, w: Want, cap: nat -> nat, d: Taking,
                  ghost s0: seq<Slot>, ghost from: nat, i: nat)
    returns (r: seq<nat>, ghost from': nat)
    requires p.Valid() && i < |p.slots| && Scanned(p.View(), s0, owners, set_, w, d, from, i)
    modifies p`medium, p`ops, p`slots
    ensures p.Valid() && Scanned(p.View(), s0, owners, r, w, d, from', i + 1) && |p.slots| == |old(p.slots)|
  {
    r, from' := set_, from;
    if |set_| == SET_MAX {
      Drain(p, owners, set_, w, cap, d, s0, from, i);
      r, from' := [], i;
    }
    ghost var s := p.View();
    r := Consider(p, owners, r, w, from', i);
    StillScanned(s, p.View(), s0, owners, w, d, from', i);
  }

  method Scan(p: Pool, owners: nat -> Owner, w: Want, cap: nat -> nat, d: Taking) returns (set_: seq<nat>)
    requires Quiet(p)
    modifies p`medium, p`ops, p`slots
    ensures p.Valid() && exists from :: Scanned(p.View(), old(p.slots), owners, set_, w, d, from, |p.slots|)
  {
    set_ := [];
    ghost var from, s0 := 0, p.slots;
    NoneCollected(p.View(), owners, w, 0);
    var i := 0;
    while i < |p.slots|
      invariant p.Valid() && i <= |p.slots| && Scanned(p.View(), s0, owners, set_, w, d, from, i)
      decreases |p.slots| - i
    {
      set_, from := ScanSlot(p, owners, set_, w, cap, d, s0, from, i);
      i := i + 1;
    }
  }

  /**
   * blk_flush_matching: when it returns, no wanted slot is dirty unless the device refused its block, no other slot has
   * changed, readers are owed what they were owed, and without a file named the device holds every block it did not
   * refuse.
   */
  method Flush(p: Pool, owners: nat -> Owner, w: Want, cap: nat -> nat, d: Taking)
    requires Quiet(p)
    modifies p`medium, p`ops, p`slots
    ensures Quiet(p) && OnlyWanted(old(p.slots), p.slots, owners, w)
    ensures forall i :: 0 <= i < |p.slots| && Wanted(p.slots[i], owners(i), w) ==> !d.takes(p.slots[i].key, 1)
    ensures w.ino == 0 ==>
              forall b :: w.first <= b < w.last && d.takes(Key(w.dev, b), 1) ==>
                  Get(p.medium, Key(w.dev, b)) == Get(p.logical, Key(w.dev, b))
  {
    ghost var s0 := p.slots;
    var set_ := Scan(p, owners, w, cap, d);
    ghost var from :| Scanned(p.View(), s0, owners, set_, w, d, from, |p.slots|);
    Drain(p, owners, set_, w, cap, d, s0, from, |p.slots|);
    if w.ino == 0 {
      forall b | w.first <= b < w.last && d.takes(Key(w.dev, b), 1)
        ensures Get(p.medium, Key(w.dev, b)) == Get(p.logical, Key(w.dev, b))
      {
        CleanOnMedium(p.View(), owners, w, d, b);
      }
    }
  }

  lemma CleanOnMedium(s: Cache, owners: nat -> Owner, w: Want, d: Taking, b: nat)
    requires Inv(s) && CleanTo(s.slots, owners, w, d, |s.slots|) && w.ino == 0 && w.first <= b < w.last
    requires d.takes(Key(w.dev, b), 1)
    ensures Get(s.medium, Key(w.dev, b)) == Get(s.logical, Key(w.dev, b))
  {
    var k := Key(w.dev, b);
    if Held(s, k) {
      var i :| 0 <= i < |s.slots| && s.slots[i].valid && s.slots[i].key == k;
      assert SlotFresh(s, s.slots[i]);
      assert !Wanted(s.slots[i], owners(i), w);
    }
  }
}
