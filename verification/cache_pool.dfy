/**
 * The pool itself: buckets of slots linked through hash_next, and the lock-held sections of blk_read_cached,
 * blk_write_cached, bcache_evict, bcache_writeback_run, bcache_flush_one and blk_cache_invalidate, each proved to be
 * steps of the protocol.
 */
module CachePool {
  import opened Words
  import opened CacheState
  import opened CacheProtocol

  // ---- linked chains --------------------------------------------------------

  /** Following hash_next from `head` gives exactly `chain`. */
  ghost predicate Linked(next: seq<int>, head: int, chain: seq<nat>)
    decreases |chain|
  {
    if chain == [] then head == -1
    else head == chain[0] && chain[0] < |next| && Linked(next, next[chain[0]], chain[1..])
  }

  lemma {:induction false} LinkedElsewhere(next: seq<int>, head: int, chain: seq<nat>, i: nat, v: int)
    requires Linked(next, head, chain) && i < |next| && i !in chain
    ensures Linked(next[i := v], head, chain)
    decreases |chain|
  {
    if chain != [] { LinkedElsewhere(next, next[chain[0]], chain[1..], i, v); }
  }

  /** Cutting slot `i`, at position `p`, out of a chain: its predecessor points past it. */
  lemma {:induction false} CutOut(next: seq<int>, head: int, chain: seq<nat>, p: nat, i: nat)
    requires Linked(next, head, chain) && Distinct(chain) && p < |chain| && chain[p] == i && i < |next|
    ensures p == 0 ==> Linked(next[i := -1], next[i], WithoutSlot(chain, i))
    ensures p > 0 ==>
            chain[p - 1] < |next| && Linked(next[chain[p - 1] := next[i]][i := -1], head, WithoutSlot(chain, i))
    decreases |chain|
  {
    var rest := chain[1..];
    assert chain == [chain[0]] + rest;
    if p == 0 {
      assert i !in rest;
      LinkedElsewhere(next, next[i], rest, i, -1);
    } else {
      assert rest[p - 1] == i;
      CutOut(next, next[chain[0]], rest, p - 1, i);
      if p == 1 {
        var after := WithoutSlot(rest, i);
        assert after == rest[1..] && chain[0] !in after && i !in after;
        LinkedElsewhere(next[i := -1], next[i], after, chain[0], next[i]);
        assert next[i := -1][chain[0] := next[i]] == next[chain[0] := next[i]][i := -1];
      } else {
        assert rest[p - 2] == chain[p - 1] && chain[0] != chain[p - 1] && chain[0] != i;
      }
    }
  }

  /** Every bucket's list is linked up. */
  ghost predicate AllLinked(next: seq<int>, heads: seq<int>, chains: seq<seq<nat>>) {
    |heads| == |chains| && forall b :: 0 <= b < |heads| ==> Linked(next, heads[b], chains[b])
  }

  lemma InsertLinked(next: seq<int>, heads: seq<int>, chains: seq<seq<nat>>, i: nat, k: Key)
    requires AllLinked(next, heads, chains) && |chains| > 0 && i < |next|
    requires forall b :: 0 <= b < |chains| ==> i !in chains[b]
    ensures var h := Bucket(k, |chains|); AllLinked(next[i := heads[h]], heads[h := i], Insert(chains, i, k))
  {
    var h := Bucket(k, |chains|);
    forall b | 0 <= b < |heads|
      ensures Linked(next[i := heads[h]], heads[h := i][b], Insert(chains, i, k)[b])
    {
      LinkedElsewhere(next, heads[b], chains[b], i, heads[h]);
      if b == h { assert ([i] + chains[h])[1..] == chains[h]; }
    }
  }

  /** Slots are on one chain each. */
  lemma OtherChains(s: Cache, i: nat, b: nat)
    requires ChainsOk(s) && i < |s.slots| && b < |s.chains|
    requires (s.slots[i].hashed ==> b != Bucket(s.slots[i].key, |s.chains|))
    ensures i !in s.chains[b]
  {
    assert BucketOk(s, b);
  }

  /** Cutting slot `i` out of bucket `h` leaves every bucket linked. */
  lemma RemoveLinked(s: Cache, next: seq<int>, heads: seq<int>, i: nat, h: nat, p: nat)
    requires ChainsOk(s) && AllLinked(next, heads, s.chains) && |next| == |s.slots| && i < |s.slots|
    requires s.slots[i].hashed
    requires h == Bucket(s.slots[i].key, |s.chains|) && p < |s.chains[h]| && s.chains[h][p] == i
    ensures p == 0 ==> AllLinked(next[i := -1], heads[h := next[i]], Remove(s.chains, i, s.slots[i]))
    ensures p > 0 ==> s.chains[h][p - 1] < |next|
    ensures p > 0 ==> AllLinked(next[s.chains[h][p - 1] := next[i]][i := -1], heads, Remove(s.chains, i, s.slots[i]))
  {
    assert BucketOk(s, h);
    CutOut(next, heads[h], s.chains[h], p, i);
    forall b | 0 <= b < |heads| && b != h
      ensures Linked(next[i := -1], heads[b], s.chains[b])
      ensures p > 0 ==> Linked(next[s.chains[h][p - 1] := next[i]][i := -1], heads[b], s.chains[b])
    {
      OtherChains(s, i, b);
      LinkedElsewhere(next, heads[b], s.chains[b], i, -1);
      if p > 0 {
        var q := s.chains[h][p - 1];
        assert q in s.chains[h];
        OtherChains(s, q, b);
        LinkedElsewhere(next, heads[b], s.chains[b], q, next[i]);
        LinkedElsewhere(next[q := next[i]], heads[b], s.chains[b], i, -1);
      }
    }
  }

  /** What is not in its bucket is not linked at all. */
  lemma NotInBucket(s: Cache, k: Key)
    requires ChainsOk(s)
    requires forall i :: i in s.chains[Bucket(k, |s.chains|)] && i < |s.slots| ==> s.slots[i].key != k
    ensures Absent(s, k)
  {
    forall i | 0 <= i < |s.slots| && s.slots[i].hashed
      ensures s.slots[i].key != k
    {
      assert i in s.chains[Bucket(s.slots[i].key, |s.chains|)];
    }
  }

  // ---- the pool -------------------------------------------------------------

  /** What a lock-held section of a cached read or write came to. */
  datatype Outcome = Hit(data: Block) | Wait | Filling(slot: nat) | MustWrite(slot: nat) | Done(slot: nat)

  /** A valid slot unlinked and let go of; an idle one as it is. */
  ghost function Vacated(s: Cache, v: nat): Cache
    requires |s.chains| > 0 && OpsOk(s) && v < |s.slots| && !s.slots[v].busy && !s.slots[v].dirty
  {
    if s.slots[v].valid then Apply(s, Evict(v)) else s
  }

  /** The blocks of the run follow one another on one device. */
  predicate Consecutive(slots: seq<Slot>, run: seq<nat>, dev: nat, base: nat) {
    forall k :: 0 <= k < |run| ==> run[k] < |slots| && slots[run[k]].key == Key(dev, base + k)
  }

  predicate Writable(b: Slot) { b.valid && b.dirty && !b.busy }

  class Pool {
    var slots: seq<Slot>
    var next: seq<int>
    var heads: seq<int>
    var hand: nat
    ghost var chains: seq<seq<nat>>
    var medium: map<Key, Block>
    ghost var ops: map<nat, Op>
    ghost var logical: map<Key, Block>

    ghost function View(): Cache
      reads this
    {
      Cache(slots, chains, medium, ops, logical)
    }

    /** The links alone: they agree with the flags and keys. */
    ghost predicate Linkage()
      reads this
    {
      ChainsOk(View()) && |next| == |slots| && AllLinked(next, heads, chains)
    }

    ghost predicate Valid()
      reads this
    {
      Inv(View()) && Linkage()
    }

    /** An empty pool of `n` slots and `buckets` buckets over devices holding `disks`. */
    constructor (n: nat, buckets: nat, disks: map<Key, Block>)
      requires buckets > 0
      ensures Valid() && Initial(View()) && medium == disks && |slots| == n
    {
      slots := seq(n, _ => Slot(Key(0, 0), false, false, false, false, []));
      next := seq(n, _ => -1);
      heads := seq(buckets, _ => -1);
      hand := 0;
      chains := seq(buckets, _ => []);
      medium, ops, logical := disks, map[], disks;
      new;
      InitialInv(View());
    }

    /** bcache_hash_insert */
    method HashInsert(i: nat)
      requires Linkage() && i < |slots| && !slots[i].hashed
      modifies `slots, `next, `heads, `chains
      ensures Linkage() && slots == old(slots)[i := old(slots)[i].(hashed := true)]
      ensures chains == Insert(old(chains), i, old(slots)[i].key)
    {
      ghost var s := View();
      forall b | 0 <= b < |chains| ensures i !in chains[b] { OtherChains(s, i, b); }
      InsertLinked(next, heads, chains, i, slots[i].key);
      var h := Bucket(slots[i].key, |heads|);
      next := next[i := heads[h]];
      heads := heads[h := i];
      chains := Insert(chains, i, slots[i].key);
      slots := slots[i := slots[i].(hashed := true)];
      InsertKeeps(s, View(), i, slots[i]);
    }

    /** bcache_hash_remove: walk the bucket to the link that points at `i`, and point it past. */
    method HashRemove(i: nat)
      requires Linkage() && i < |slots|
      modifies `slots, `next, `heads, `chains
      ensures Linkage() && slots == old(slots)[i := old(slots)[i].(hashed := false)]
      ensures chains == Remove(old(chains), i, old(slots)[i])
    {
      if !slots[i].hashed { return; }
      ghost var s := View();
      var h := Bucket(slots[i].key, |heads|);
      ghost var chain := chains[h];
      assert BucketOk(s, h) && i in chain;
      var at := heads[h];
      var before := -1;
      ghost var p := 0;
      while at != i
        invariant 0 <= p < |chain| && Linked(next, at, chain[p..]) && i in chain[p..]
        invariant if p == 0 then before == -1 else before == chain[p - 1]
        decreases |chain| - p
      {
        assert chain[p..] != [] && at == chain[p];
        assert chain[p + 1..] == chain[p..][1..];
        before := at;
        at := next[at];
        p := p + 1;
      }
      assert chain[p] == i;
      RemoveLinked(s, next, heads, i, h, p);
      var after := next[i];
      if before == -1 {
        heads := heads[h := after];
      } else {
        next := next[before := after];
      }
      next := next[i := -1];
      chains := Remove(chains, i, slots[i]);
      slots := slots[i := slots[i].(hashed := false)];
      RemoveKeeps(s, View(), i, slots[i]);
    }

    /** bcache_find: the linked slot of a block, or none. */
    method Find(k: Key) returns (r: Option<nat>)
      requires Linkage() && AllFlagsOk(View())
      ensures r.Some? ==> Finds(View(), k, r.value)
      ensures r.None? ==> Absent(View(), k)
    {
      var h := Bucket(k, |heads|);
      ghost var chain := chains[h];
      assert BucketOk(View(), h);
      var at := heads[h];
      ghost var p := 0;
      while at >= 0
        invariant 0 <= p <= |chain| && Linked(next, at, chain[p..])
        invariant forall q :: 0 <= q < p ==> chain[q] < |slots| && slots[chain[q]].key != k
        decreases |chain| - p
      {
        assert chain[p..] != [] && at == chain[p] && chain[p] in chain;
        assert FlagsOk(slots[at]);
        if (slots[at].valid || slots[at].busy) && slots[at].key == k { return Some(at); }
        assert chain[p + 1..] == chain[p..][1..];
        at := next[at];
        p := p + 1;
      }
      assert chain[p..] == [];
      NotInBucket(View(), k);
      return None;
    }

    /**
     * The CLOCK sweep of bcache_evict: the first slot at the hand or after it that is idle or valid and clean, else the
     * first dirty one that is not claimed, else none.
     */
    method Sweep() returns (v: Option<nat>)
      modifies `hand
      ensures v.None? ==> forall i :: 0 <= i < |slots| ==> slots[i].busy
      ensures v.Some? ==> v.value < |slots| && !slots[v.value].busy
      ensures v.Some? && slots[v.value].valid && slots[v.value].dirty ==>
        forall i :: 0 <= i < |slots| ==> slots[i].busy || (slots[i].valid && slots[i].dirty)
      ensures v.Some? ==> FirstFrom(slots, if old(hand) < |slots| then old(hand) else 0, v.value)
      ensures v.Some? && !(slots[v.value].valid && slots[v.value].dirty) ==>
              hand == if v.value + 1 < |slots| then v.value + 1 else 0
    {
      var dirty: Option<nat> := None;
      var start := if hand < |slots| then hand else 0;
      hand := start;
      for scanned := 0 to |slots|
        invariant |slots| > 0 ==>
                  hand == (if start + scanned < |slots| then start + scanned else start + scanned - |slots|)
        invariant forall j :: 0 <= j < scanned ==> Passed(slots, At(start, j, |slots|))
        invariant dirty.None? ==> forall j :: 0 <= j < scanned ==> slots[At(start, j, |slots|)].busy
        invariant dirty.Some? ==>
                  dirty.value < |slots| && Writable(slots[dirty.value]) && FirstFrom(slots, start, dirty.value)
      {
        var i := hand;
        hand := if hand + 1 >= |slots| then 0 else hand + 1;
        assert i == At(start, scanned, |slots|);
        if slots[i].busy { continue; }
        if !slots[i].valid || !slots[i].dirty {
          AtIs(start, scanned, |slots|);
          return Some(i);
        }
        if dirty.None? {
          AtIs(start, scanned, |slots|);
          dirty := Some(i);
        }
      }
      forall i | 0 <= i < |slots|
        ensures Passed(slots, i) && (dirty.None? ==> slots[i].busy)
      {
        assert i == At(start, if i >= start then i - start else i - start + |slots|, |slots|);
      }
      return dirty;
    }

    /** The end of bcache_evict: unlink a clean slot and let it go. */
    method Vacate(v: nat)
      requires Valid() && v < |slots| && !slots[v].busy && !slots[v].dirty
      modifies `slots, `next, `heads, `chains
      ensures Valid() && View() == Vacated(old(View()), v) && Idle(slots[v])
    {
      ghost var s := View();
      HashRemove(v);
      slots := slots[v := slots[v].(valid := false)];
      assert FlagsOk(s.slots[v]);
      if s.slots[v].valid {
        assert View() == Apply(s, Evict(v));
        StepKeeps(s, Evict(v));
      } else {
        assert Remove(s.chains, v, s.slots[v]) == s.chains;
        assert slots == s.slots;
      }
    }

    /**
     * The section of blk_read_cached for one block: serve it, wait for whoever has it, or claim a slot and publish it
     * as being filled. `id` names the device read that follows.
     */
    method ReadSection(k: Key, id: nat) returns (r: Outcome)
      requires Valid() && id !in ops
      modifies `slots, `next, `heads, `chains, `hand, `ops
      ensures Valid()
      ensures r.Hit? ==> View() == old(View()) && r.data == Get(logical, k)
      ensures r.Wait? || r.MustWrite? ==> View() == old(View())
      ensures r.Wait? ==> (exists i: nat :: Finds(View(), k, i) && slots[i].busy) || forall i :: 0 <= i < |slots| ==>
              slots[i].busy
      ensures r.MustWrite? ==> r.slot < |slots| && Writable(slots[r.slot]) && Absent(View(), k)
      ensures r.Filling? ==> FillBegun(old(View()), View(), r.slot, id, k)
      ensures !r.Done?
    {
      var found := Find(k);
      if found.Some? {
        var i := found.value;
        if slots[i].busy { return Wait; }
        assert FlagsOk(View().slots[i]) && SlotFresh(View(), View().slots[i]);
        return Hit(slots[i].data);
      }
      var v := Sweep();
      if v.None? { return Wait; }
      if slots[v.value].valid && slots[v.value].dirty { return MustWrite(v.value); }
      StartFill(k, id, v.value);
      return Filling(v.value);
    }

    /** Give an unlinked slot new contents and link it under its key. */
    method Publish(v: nat, b: Slot)
      requires Linkage() && v < |slots| && !slots[v].hashed && b.hashed
      modifies `slots, `next, `heads, `chains
      ensures Linkage() && slots == old(slots)[v := b] && chains == Insert(old(chains), v, b.key)
    {
      ghost var s := View();
      slots := slots[v := b.(hashed := false)];
      RekeyLinks(s, View(), v);
      HashInsert(v);
    }

    method StartFill(k: Key, id: nat, v: nat)
      requires Valid() && id !in ops && v < |slots| && !slots[v].busy && !(slots[v].valid && slots[v].dirty)
      requires Absent(View(), k)
      modifies `slots, `next, `heads, `chains, `ops
      ensures Valid() && FillBegun(old(View()), View(), v, id, k)
    {
      assert FlagsOk(View().slots[v]);
      VacatedAbsent(View(), v, k);
      Vacate(v);
      ghost var s := View();
      assert FlagsOk(s.slots[v]);
      Publish(v, Slot(k, false, false, true, true, slots[v].data));
      ops := ops[id := Fill(v, false)];
      FillStartIs(s, View(), id, v, k);
    }

    /** The section of blk_write_cached for one block: into the slot that has it, or into one made free for it. */
    method WriteSection(k: Key, data: Block) returns (r: Outcome)
      requires Valid()
      modifies `slots, `next, `heads, `chains, `hand, `logical
      ensures Valid()
      ensures r.Wait? || r.MustWrite? ==> View() == old(View())
      ensures r.MustWrite? ==> r.slot < |slots| && Writable(slots[r.slot])
      ensures r.Done? ==> WriteTaken(old(View()), View(), r.slot, k, data)
      ensures r.Wait? ==> (exists i: nat :: Finds(View(), k, i) && slots[i].busy) || forall i :: 0 <= i < |slots| ==>
              slots[i].busy
      ensures r.MustWrite? ==> Absent(View(), k)
      ensures r.Done? || r.Wait? || r.MustWrite?
    {
      var found := Find(k);
      if found.Some? {
        var i := found.value;
        if slots[i].busy { return Wait; }
        ghost var s := View();
        assert FlagsOk(s.slots[i]);
        slots := slots[i := slots[i].(data := data, dirty := true)];
        logical := logical[k := data];
        assert View() == Apply(s, Put(i, data));
        StepKeeps(s, Put(i, data));
        return Done(i);
      }
      var v := Sweep();
      if v.None? { return Wait; }
      if slots[v.value].valid && slots[v.value].dirty { return MustWrite(v.value); }
      WriteNew(k, data, v.value);
      return Done(v.value);
    }

    method WriteNew(k: Key, data: Block, v: nat)
      requires Valid() && v < |slots| && !slots[v].busy && !(slots[v].valid && slots[v].dirty) && Absent(View(), k)
      modifies `slots, `next, `heads, `chains, `logical
      ensures Valid() && NewTaken(old(View()), View(), v, k, data)
    {
      assert FlagsOk(View().slots[v]);
      VacatedAbsent(View(), v, k);
      Vacate(v);
      ghost var s := View();
      assert FlagsOk(s.slots[v]);
      Publish(v, Slot(k, true, true, false, true, data));
      logical := logical[k := data];
      PutNewIs(s, View(), v, k, data);
    }

    /** The device's part of a read: the block's bytes arrive in the claimed slot. */
    method DeviceRead(ghost id: nat, i: nat)
      requires Valid() && id in ops && ops[id].Fill? && ops[id].slot == i && !ops[id].got
      modifies `slots, `ops
      ensures Valid() && Moves(old(View()), FillRead(id), View())
    {
      ghost var s := View();
      assert OpOk(s, s.ops[id]);
      slots := slots[i := slots[i].(data := Get(medium, slots[i].key))];
      ops := ops[id := Fill(i, true)];
      assert View() == Apply(s, FillRead(id));
      StepKeeps(s, FillRead(id));
    }

    /** The section that ends a read into slot `i`: publish what came, or withdraw the slot. */
    method EndFill(ghost id: nat, i: nat, ok: bool)
      requires Valid() && id in ops && ops[id].Fill? && ops[id].slot == i && (ok ==> ops[id].got)
      modifies `slots, `next, `heads, `chains, `ops
      ensures Valid() && Moves(old(View()), if ok then FillEnd(id) else FillFail(id), View())
    {
      ghost var s := View();
      assert OpOk(s, s.ops[id]);
      if ok {
        slots := slots[i := slots[i].(valid := true, dirty := false, busy := false)];
        ops := ops - {id};
        assert View() == Apply(s, FillEnd(id));
        StepKeeps(s, FillEnd(id));
      } else {
        HashRemove(i);
        slots := slots[i := slots[i].(busy := false, valid := false)];
        ops := ops - {id};
        assert View() == Apply(s, FillFail(id));
        StepKeeps(s, FillFail(id));
      }
    }

    /** blk_cache_invalidate on one slot that nobody has claimed and that is not dirty. */
    method Invalidate(i: nat)
      requires Valid() && i < |slots| && !slots[i].busy && !slots[i].dirty
      modifies `slots, `next, `heads, `chains
      ensures Valid() && Moves(old(View()), Drop(i), View())
    {
      ghost var s := View();
      HashRemove(i);
      slots := slots[i := Slot(Key(0, 0), false, false, false, false, slots[i].data)];
      assert View() == Apply(s, Drop(i));
      StepKeeps(s, Drop(i));
    }

    /** Whether a block has a slot that could join a run: linked, dirty, and claimed by nobody. */
    method Joins(k: Key) returns (r: Option<nat>)
      requires Linkage() && AllFlagsOk(View()) && OnePerKey(View())
      ensures r.Some? ==> Finds(View(), k, r.value) && Writable(slots[r.value])
      ensures r.None? ==> !CanJoin(View(), k)
    {
      r := Find(k);
      if r.Some? {
        assert FlagsOk(View().slots[r.value]);
        if !slots[r.value].dirty || slots[r.value].busy { r := None; }
      }
    }

    /** The first block of the dirty region the anchor is in, at most `limit` - 1 back. */
    method WalkBack(dev: nat, blk: nat, limit: nat) returns (base: nat)
      requires Valid() && limit > 0 && CanJoin(View(), Key(dev, blk))
      ensures base <= blk < base + limit && forall b :: base <= b <= blk ==> CanJoin(View(), Key(dev, b))
    {
      base := blk;
      var back := 0;
      while back + 1 < limit && base > 0
        invariant base + back == blk && back < limit
        invariant forall b :: base <= b <= blk ==> CanJoin(View(), Key(dev, b))
        decreases base
      {
        var e := Joins(Key(dev, base - 1));
        if e.None? { break; }
        base := base - 1;
        back := back + 1;
      }
    }

    /** bcache_writeback_run up to the device command: claim the run of dirty blocks the anchor is in. */
    method BeginWrite(anchor: nat, ghost id: nat, limit: nat) returns (run: seq<nat>, ghost base: nat)
      requires Valid() && id !in ops && limit > 0 && anchor < |slots|
      modifies `slots, `ops
      ensures Valid()
      ensures !old(Writable(slots[anchor])) ==> run == [] && View() == old(View())
      ensures old(Writable(slots[anchor])) ==> RunBegun(old(View()), View(), id, anchor, run, base, limit)
    {
      run, base := [], 0;
      if Writable(slots[anchor]) {
        ghost var s := View();
        var dev, blk := slots[anchor].key.dev, slots[anchor].key.blk;
        assert FlagsOk(s.slots[anchor]);
        assert Finds(s, Key(dev, blk), anchor);
        var first := WalkBack(dev, blk, limit);
        run := ClaimRun(dev, first, blk, limit);
        base := first;
        AnchorIn(s, anchor, dev, first, run);
        ops := ops[id := Write(run, Copies(s.slots, run), false)];
        WriteStartIs(s, View(), id, run);
      }
    }

    /** Claim slots forward from `base`, block by block, as far as they go. */
    method ClaimRun(dev: nat, base: nat, blk: nat, limit: nat) returns (run: seq<nat>)
      requires Valid() && limit > 0 && base <= blk < base + limit
      requires forall b :: base <= b <= blk ==> CanJoin(View(), Key(dev, b))
      modifies `slots
      ensures Linkage() && RunClaimed(old(View()), slots, run, dev, base) && blk - base < |run| <= limit
    {
      run := [];
      ghost var s := View();
      assert Claimed(s.slots, [], true, false) == s.slots;
      while |run| < limit
        invariant RunClaimed(s, slots, run, dev, base) && |run| <= limit
        decreases limit - |run|
      {
        PartlyClaimed(s, View(), run);
        var e := Joins(Key(dev, base + |run|));
        if e.None? {
          StillJoins(s, View(), run, dev, base);
          break;
        }
        RunClaimedMore(s, View(), run, dev, base, e.value);
        slots := slots[e.value := slots[e.value].(busy := true)];
        run := run + [e.value];
      }
      PartlyClaimed(s, View(), run);
    }

    /** One device command: block after block of the run gets the bytes of its slot. */
    method Command(run: seq<nat>, ghost copy: seq<Block>)
      requires |copy| == |run| && forall k :: 0 <= k < |run| ==> run[k] < |slots| && slots[run[k]].data == copy[k]
      modifies `medium
      ensures medium == Landed(old(medium), slots, run, copy, |run|)
    {
      for k := 0 to |run|
        invariant medium == Landed(old(medium), slots, run, copy, k)
      {
        medium := medium[slots[run[k]].key := slots[run[k]].data];
      }
    }

    /** The device's part of a write. */
    method DeviceWrite(ghost id: nat, run: seq<nat>)
      requires Valid() && id in ops && ops[id].Write? && ops[id].run == run && !ops[id].landed
      modifies `medium, `ops
      ensures Valid() && Moves(old(View()), WriteLand(id), View())
    {
      ghost var s := View();
      assert OpOk(s, s.ops[id]);
      Command(run, ops[id].copy);
      ops := ops[id := Write(run, ops[id].copy, true)];
      WriteLandIs(s, View(), id);
    }

    method ReleaseRun(run: seq<nat>, ok: bool)
      requires forall k :: 0 <= k < |run| ==> run[k] < |slots|
      modifies `slots
      ensures slots == Claimed(old(slots), run, false, ok)
    {
      assert Claimed(slots, run[..0], false, ok) == slots;
      for k := 0 to |run|
        invariant slots == Claimed(old(slots), run[..k], false, ok)
      {
        var i := run[k];
        slots := slots[i := slots[i].(busy := false, dirty := slots[i].dirty && !ok)];
        ReleasedOneMore(old(slots), run[..k], i, ok);
        assert run[..k + 1] == run[..k] + [i];
      }
      assert run[..|run|] == run;
    }

    /**
     * The section that ends a write: give the run back, clean if the device took it. `junk` is what a failed write
     * left.
     */
    method EndWrite(ghost id: nat, run: seq<nat>, ok: bool, junk: map<Key, Block>)
      requires Valid() && id in ops && ops[id].Write? && ops[id].run == run && (ok ==> ops[id].landed)
      modifies `slots, `ops, `medium
      ensures Valid() && Moves(old(View()), if ok then WriteEnd(id) else WriteFail(id, junk), View())
    {
      ghost var s := View();
      assert OpOk(s, s.ops[id]);
      if !ok { medium := Spoiled(medium, slots, run, junk); }
      ReleaseRun(run, ok);
      ops := ops - {id};
      WriteEndIs(s, View(), id, run, ok, junk);
    }
  }

  /** From `s`, the slots of `run` have been claimed: dirty ones that follow one another from block `base`. */
  ghost predicate RunClaimed(s: Cache, slots: seq<Slot>, run: seq<nat>, dev: nat, base: nat) {
    && slots == Claimed(s.slots, run, true, false) && Distinct(run) && Consecutive(s.slots, run, dev, base)
    && forall k :: 0 <= k < |run| ==> run[k] < |s.slots| && Writable(s.slots[run[k]])
  }

  /** From `s` to `s'`: a run of consecutive blocks that contains the anchor's was claimed for the write `id`. */
  ghost predicate RunBegun(s: Cache, s': Cache, id: nat, anchor: nat, run: seq<nat>, base: nat, limit: nat) {
    && Moves(s, WriteStart(id, run), s') && anchor in run && |run| <= limit
    && anchor < |s.slots| && Consecutive(s.slots, run, s.slots[anchor].key.dev, base)
  }

  lemma RunClaimedMore(s: Cache, s': Cache, run: seq<nat>, dev: nat, base: nat, i: nat)
    requires RunClaimed(s, s'.slots, run, dev, base) && Finds(s', Key(dev, base + |run|), i) && Writable(s'.slots[i])
    ensures RunClaimed(s, s'.slots[i := s'.slots[i].(busy := true)], run + [i], dev, base)
  {
    NotYetClaimed(s, run, dev, base, i);
    ClaimedOneMore(s.slots, run, i);
  }

  lemma WriteLandIs(s: Cache, s': Cache, id: nat)
    requires Inv(s) && Guard(s, WriteLand(id))
    requires s'.medium == Landed(s.medium, s.slots, s.ops[id].run, s.ops[id].copy, |s.ops[id].run|)
    requires s'.ops == s.ops[id := Write(s.ops[id].run, s.ops[id].copy, true)]
    requires s'.slots == s.slots && s'.chains == s.chains && s'.logical == s.logical
    ensures Moves(s, WriteLand(id), s') && Inv(s')
  {
    StepKeeps(s, WriteLand(id));
  }

  lemma WriteEndIs(s: Cache, s': Cache, id: nat, run: seq<nat>, ok: bool, junk: map<Key, Block>)
    requires Inv(s) && id in s.ops && s.ops[id].Write? && s.ops[id].run == run && (ok ==> s.ops[id].landed)
    requires s'.slots == Claimed(s.slots, run, false, ok) && s'.ops == s.ops - {id} && s'.chains == s.chains
    requires s'.logical == s.logical
    requires s'.medium == if ok then s.medium else Spoiled(s.medium, s.slots, run, junk)
    ensures Moves(s, if ok then WriteEnd(id) else WriteFail(id, junk), s') && Inv(s')
  {
    if ok { StepKeeps(s, WriteEnd(id)); } else { StepKeeps(s, WriteFail(id, junk)); }
  }

  /** A block whose slot could join a run. */
  ghost predicate CanJoin(s: Cache, k: Key) { exists i: nat :: Finds(s, k, i) && Writable(s.slots[i]) }

  /** Claiming changes no link, key or validity. */
  lemma PartlyClaimed(s: Cache, s': Cache, run: seq<nat>)
    requires Inv(s) && s'.slots == Claimed(s.slots, run, true, false) && s'.chains == s.chains
    requires forall k :: 0 <= k < |run| ==> run[k] < |s.slots| && s.slots[run[k]].valid
    ensures ChainsOk(s') && OnePerKey(s') && AllFlagsOk(s')
  {
    ClaimedChains(s, s', run, true, false);
    ClaimedFlags(s, s', run, true, false);
  }

  /** A block past the run can join after the claims exactly when it could before. */
  lemma StillJoins(s: Cache, s': Cache, run: seq<nat>, dev: nat, base: nat)
    requires s'.slots == Claimed(s.slots, run, true, false) && Consecutive(s.slots, run, dev, base)
    ensures CanJoin(s, Key(dev, base + |run|)) ==> CanJoin(s', Key(dev, base + |run|))
  {
    var k := Key(dev, base + |run|);
    if CanJoin(s, k) {
      var i: nat :| Finds(s, k, i) && Writable(s.slots[i]);
      assert i !in run;
      assert Finds(s', k, i) && Writable(s'.slots[i]);
    }
  }

  lemma NotYetClaimed(s: Cache, run: seq<nat>, dev: nat, base: nat, i: nat)
    requires Consecutive(s.slots, run, dev, base) && i < |s.slots| && s.slots[i].key == Key(dev, base + |run|)
    ensures i !in run
  {
  }

  lemma ClaimedOneMore(slots: seq<Slot>, run: seq<nat>, i: nat)
    requires i < |slots| && i !in run
    ensures Claimed(slots, run, true, false)[i := slots[i].(busy := true)] == Claimed(slots, run + [i], true, false)
    ensures Claimed(slots, run, true, false)[i] == slots[i]
  {
  }

  lemma ReleasedOneMore(slots: seq<Slot>, run: seq<nat>, i: nat, ok: bool)
    requires i < |slots|
    ensures var c := Claimed(slots, run, false, ok);
            c[i := c[i].(busy := false, dirty := c[i].dirty && !ok)] == Claimed(slots, run + [i], false, ok)
  {
  }

  /** The walk back stops short enough for the walk forward to come to the anchor. */
  lemma AnchorIn(s: Cache, anchor: nat, dev: nat, base: nat, run: seq<nat>)
    requires Inv(s) && anchor < |s.slots| && s.slots[anchor].hashed && s.slots[anchor].key.dev == dev
    requires base <= s.slots[anchor].key.blk < base + |run| && Consecutive(s.slots, run, dev, base)
    requires forall k :: 0 <= k < |run| ==> Writable(s.slots[run[k]])
    ensures anchor in run
  {
    var k := s.slots[anchor].key.blk - base;
    assert run[k] < |s.slots| && s.slots[run[k]].key == s.slots[anchor].key;
    assert FlagsOk(s.slots[run[k]]);
    assert run[k] == anchor;
  }

  lemma WriteStartIs(s: Cache, s': Cache, id: nat, run: seq<nat>)
    requires Inv(s) && Guard(s, WriteStart(id, run))
    requires s'.slots == Claimed(s.slots, run, true, false)
    requires s'.ops == s.ops[id := Write(run, Copies(s.slots, run), false)]
    requires s'.chains == s.chains && s'.medium == s.medium && s'.logical == s.logical
    ensures Moves(s, WriteStart(id, run), s') && Inv(s')
  {
    StepKeeps(s, WriteStart(id, run));
  }

  /** From `s` to `s'`: slot `v` let go of if need be, then claimed and published for the fill `id` of block `k`. */
  ghost predicate FillBegun(s: Cache, s': Cache, v: nat, id: nat, k: Key) {
    && |s.chains| > 0 && OpsOk(s) && v < |s.slots| && !s.slots[v].busy && !s.slots[v].dirty
    && Moves(Vacated(s, v), FillStart(id, v, k), s')
  }

  /** From `s` to `s'`: slot `v` let go of if need be, then given the new bytes of block `k`. */
  ghost predicate NewTaken(s: Cache, s': Cache, v: nat, k: Key, data: Block) {
    && |s.chains| > 0 && OpsOk(s) && v < |s.slots| && !s.slots[v].busy && !s.slots[v].dirty
    && Moves(Vacated(s, v), PutNew(v, k, data), s')
  }

  ghost predicate WriteTaken(s: Cache, s': Cache, v: nat, k: Key, data: Block) {
    (Finds(s, k, v) && Moves(s, Put(v, data), s')) || NewTaken(s, s', v, k, data)
  }

  lemma FillStartIs(s: Cache, s': Cache, id: nat, v: nat, k: Key)
    requires Inv(s) && Guard(s, FillStart(id, v, k))
    requires s'.slots == s.slots[v := Slot(k, false, false, true, true, s.slots[v].data)]
    requires s'.chains == Insert(s.chains, v, k)
    requires s'.ops == s.ops[id := Fill(v, false)] && s'.medium == s.medium && s'.logical == s.logical
    ensures Moves(s, FillStart(id, v, k), s') && Inv(s')
  {
    StepKeeps(s, FillStart(id, v, k));
  }

  lemma PutNewIs(s: Cache, s': Cache, v: nat, k: Key, data: Block)
    requires Inv(s) && Guard(s, PutNew(v, k, data))
    requires s'.slots == s.slots[v := Slot(k, true, true, false, true, data)] && s'.chains == Insert(s.chains, v, k)
    requires s'.ops == s.ops && s'.medium == s.medium && s'.logical == s.logical[k := data]
    ensures Moves(s, PutNew(v, k, data), s') && Inv(s')
  {
    StepKeeps(s, PutNew(v, k, data));
  }

  /** Position `j` of a sweep that starts at `start` and goes round `n` slots. */
  function At(start: nat, j: nat, n: nat): nat
    requires start < n && j < n
  {
    if start + j < n then start + j else start + j - n
  }

  /** How far from `start` the sweep meets slot `i`. */
  function Distance(start: nat, i: nat, n: nat): nat
    requires start < n && i < n
  {
    if start <= i then i - start else i + n - start
  }

  lemma AtIs(start: nat, j: nat, n: nat)
    requires start < n && j < n
    ensures Distance(start, At(start, j, n), n) == j
  {
  }

  /** The sweep takes `v` as the first of its kind that it meets: clean or idle slots, or dirty ones. */
  predicate FirstFrom(slots: seq<Slot>, start: nat, v: nat)
    requires v < |slots|
  {
    start < |slots| &&
    forall j :: 0 <= j < Distance(start, v, |slots|) ==> var b := slots[At(start, j, |slots|)];
      b.busy || (Passed(slots, At(start, j, |slots|)) && !Passed(slots, v))
  }

  /** A slot the sweep does not take at once. */
  predicate Passed(slots: seq<Slot>, i: nat)
    requires i < |slots|
  {
    slots[i].busy || (slots[i].valid && slots[i].dirty)
  }

  /** Letting a slot go links nothing new. */
  lemma VacatedAbsent(s: Cache, v: nat, k: Key)
    requires Inv(s) && v < |s.slots| && !s.slots[v].busy && !s.slots[v].dirty && Absent(s, k)
    ensures Absent(Vacated(s, v), k)
  {
  }

  /** An unlinked slot may be given any key. */
  lemma RekeyLinks(s: Cache, s': Cache, v: nat)
    requires ChainsOk(s) && v < |s.slots| && !s.slots[v].hashed && s'.chains == s.chains
    requires |s'.slots| == |s.slots| && !s'.slots[v].hashed
    requires forall i :: 0 <= i < |s.slots| && i != v ==> s'.slots[i] == s.slots[i]
    ensures ChainsOk(s')
  {
    forall b | 0 <= b < |s'.chains|
      ensures BucketOk(s', b)
    {
      assert BucketOk(s, b);
      assert v !in s.chains[b];
    }
  }

  lemma InitialInv(s: Cache)
    requires Initial(s)
    ensures Inv(s)
  {
    forall b | 0 <= b < |s.chains| ensures BucketOk(s, b) { }
  }
}
