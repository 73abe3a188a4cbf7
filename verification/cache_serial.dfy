/**
 * The cache with one task at a time: cached reads with read-ahead, cached writes, through disks and their partitions.
 * Nothing is in flight between calls, and what a device is sent it takes.
 */
module CacheSerial {
  import opened Words
  import opened CacheState
  import opened CacheProtocol
  import opened CachePool

  /** Nothing in flight. */
  ghost predicate Quiet(p: Pool)
    reads p
  {
    p.Valid() && p.ops == map[]
  }

  lemma NoneBusy(s: Cache)
    requires Inv(s) && s.ops == map[]
    ensures forall i :: 0 <= i < |s.slots| ==> !s.slots[i].busy
  {
    forall i | 0 <= i < |s.slots| ensures !s.slots[i].busy { assert forall id: nat :: !Owns(s, id, i); }
  }

  // ---- write-back and eviction ----------------------------------------------

  /** A run written and given back: those slots are clean, everything else is as it was. */
  ghost predicate Cleaned(s: Cache, s': Cache, run: seq<nat>) {
    && s'.slots == Claimed(s.slots, run, false, true) && s'.chains == s.chains && s'.ops == s.ops
         && s'.logical == s.logical
  }

  lemma StartedOp(s: Cache, s1: Cache, id: nat, run: seq<nat>)
    requires Moves(s, WriteStart(id, run), s1) && s.ops == map[]
    ensures s1.slots == Claimed(s.slots, run, true, false) && s1.chains == s.chains && s1.logical == s.logical
    ensures s1.ops == map[id := Write(run, Copies(s.slots, run), false)]
  {
  }

  lemma FinishedOp(s1: Cache, s2: Cache, s3: Cache, id: nat, run: seq<nat>, copy: seq<Block>)
    requires Moves(s1, WriteLand(id), s2) && Moves(s2, WriteEnd(id), s3) && s1.ops == map[id := Write(run, copy, false)]
    ensures s3.slots == Claimed(s1.slots, run, false, true) && s3.chains == s1.chains && s3.logical == s1.logical
    ensures s3.ops == map[]
  {
  }

  lemma CleanedTwice(slots: seq<Slot>, run: seq<nat>)
    ensures Claimed(Claimed(slots, run, true, false), run, false, true) == Claimed(slots, run, false, true)
  {
  }

  lemma LandedOp(s1: Cache, s2: Cache, id: nat, run: seq<nat>, copy: seq<Block>)
    requires Moves(s1, WriteLand(id), s2) && s1.ops == map[id := Write(run, copy, false)]
    ensures s2.ops == map[id := Write(run, copy, true)]
  {
  }

  /** The device takes the claimed run, and it is given back clean. */
  method FinishWrite(p: Pool, run: seq<nat>, ghost copy: seq<Block>)
    requires p.Valid() && p.ops == map[0 := Write(run, copy, false)]
    modifies p
    ensures Quiet(p) && p.slots == Claimed(old(p.slots), run, false, true) && p.chains == old(p.chains)
    ensures p.logical == old(p.logical)
  {
    ghost var s1 := p.View();
    p.DeviceWrite(0, run);
    ghost var s2 := p.View();
    LandedOp(s1, s2, 0, run, copy);
    p.EndWrite(0, run, true, map[]);
    FinishedOp(s1, s2, p.View(), 0, run, copy);
  }

  /** bcache_writeback_run, start to end. */
  method WriteBack(p: Pool, anchor: nat, limit: nat) returns (run: seq<nat>)
    requires Quiet(p) && limit > 0 && anchor < |p.slots| && Writable(p.slots[anchor])
    modifies p
    ensures Quiet(p) && Cleaned(old(p.View()), p.View(), run) && anchor in run
  {
    ghost var s := p.View();
    ghost var base;
    run, base := p.BeginWrite(anchor, 0, limit);
    StartedOp(s, p.View(), 0, run);
    CleanedTwice(s.slots, run);
    FinishWrite(p, run, Copies(s.slots, run));
  }

  /** From `s` to `s'`: readers are owed the same, and a block that had no slot still has none. */
  ghost predicate SameBlocks(s: Cache, s': Cache) {
    && s'.logical == s.logical && |s'.slots| == |s.slots|
    && forall k :: Absent(s, k) ==> Absent(s', k)
  }

  lemma CleanedSameBlocks(s: Cache, s': Cache, run: seq<nat>)
    requires Cleaned(s, s', run)
    ensures SameBlocks(s, s')
  {
  }

  lemma VacatedSameBlocks(s: Cache, v: nat)
    requires Inv(s) && v < |s.slots| && !s.slots[v].busy && !s.slots[v].dirty
    ensures SameBlocks(s, Vacated(s, v))
  {
  }

  /** bcache_evict: a slot made free, its block written back first if it must be. */
  method MakeRoom(p: Pool, limit: nat) returns (v: nat)
    requires Quiet(p) && limit > 0 && |p.slots| > 0
    modifies p
    ensures Quiet(p) && v < |p.slots| && Idle(p.slots[v]) && SameBlocks(old(p.View()), p.View())
    ensures (exists i :: 0 <= i < |p.slots| && !old(p.slots)[i].dirty) ==> p.medium == old(p.medium)
  {
    NoneBusy(p.View());
    var r := p.Sweep();
    assert !p.slots[0].busy;
    v := r.value;
    ghost var s := p.View();
    if p.slots[v].valid && p.slots[v].dirty {
      var run := WriteBack(p, v, limit);
      CleanedSameBlocks(s, p.View(), run);
      ClaimedAt(s.slots, run, false, true, v);
    }
    ghost var s1 := p.View();
    assert FlagsOk(s1.slots[v]);
    VacatedSameBlocks(s1, v);
    p.Vacate(v);
  }

  // ---- reads ----------------------------------------------------------------

  /** Slot `v` has come to hold block `k`, clean, as the medium has it. */
  ghost predicate Filled(s: Cache, s': Cache, v: nat, k: Key) {
    && |s.chains| > 0 && v < |s.slots|
    && s' == s.(slots := s.slots[v := Slot(k, true, false, false, true, Get(s.medium, k))],
                chains := Insert(s.chains, v, k))
  }

  /** A fill from start to end. */
  lemma FilledBy(s: Cache, s1: Cache, s2: Cache, s3: Cache, v: nat, k: Key)
    requires Inv(s) && s.ops == map[] && v < |s.slots|
    requires Moves(s, FillStart(0, v, k), s1) && Moves(s1, FillRead(0), s2) && Moves(s2, FillEnd(0), s3)
    ensures Filled(s, s3, v, k)
  {
    assert s3.slots == s.slots[v := Slot(k, true, false, false, true, Get(s.medium, k))];
    assert s3.ops == map[];
  }

  /** Publishing what the medium has for a block without a slot is a whole fill at once. */
  lemma FilledKeeps(s: Cache, s': Cache, v: nat, k: Key)
    requires Inv(s) && s.ops == map[] && v < |s.slots| && Idle(s.slots[v]) && Absent(s, k) && Filled(s, s', v, k)
    ensures Inv(s')
  {
    StepKeeps(s, FillStart(0, v, k));
    var s1 := Apply(s, FillStart(0, v, k));
    StepKeeps(s1, FillRead(0));
    var s2 := Apply(s1, FillRead(0));
    StepKeeps(s2, FillEnd(0));
    var s3 := Apply(s2, FillEnd(0));
    FilledBy(s, s1, s2, s3, v, k);
  }

  /** A block that is in the cache after a fill has its bytes there. */
  lemma FilledData(s: Cache, s': Cache, v: nat, k: Key)
    requires Inv(s) && Absent(s, k) && Filled(s, s', v, k)
    ensures s'.slots[v].data == Get(s.logical, k)
  {
    forall i | 0 <= i < |s.slots| && s.slots[i].valid ensures s.slots[i].key != k { assert FlagsOk(s.slots[i]); }
    assert !Held(s, k);
  }

  lemma FillIsBegun(s: Cache, s1: Cache, v: nat, k: Key)
    requires FillBegun(s, s1, v, 0, k) && Idle(s.slots[v]) && s.ops == map[]
    ensures Moves(s, FillStart(0, v, k), s1) && s1.ops == map[0 := Fill(v, false)]
  {
  }

  lemma FillIsRead(s1: Cache, s2: Cache, v: nat)
    requires Moves(s1, FillRead(0), s2) && s1.ops == map[0 := Fill(v, false)]
    ensures s2.ops == map[0 := Fill(v, true)]
  {
  }

  /** The miss of blk_read_cached: a slot is made free, claimed, filled by the device and published. */
  method Miss(p: Pool, k: Key, limit: nat) returns (v: nat)
    requires Quiet(p) && limit > 0 && |p.slots| > 0 && Absent(p.View(), k)
    modifies p
    ensures Quiet(p) && v < |p.slots| == |old(p.slots)| && p.logical == old(p.logical)
    ensures p.slots[v].data == Get(p.logical, k) && p.slots[v].valid && !p.slots[v].dirty
  {
    v := MakeRoom(p, limit);
    ghost var s := p.View();
    p.StartFill(k, 0, v);
    ghost var s1 := p.View();
    FillIsBegun(s, s1, v, k);
    p.DeviceRead(0, v);
    ghost var s2 := p.View();
    FillIsRead(s1, s2, v);
    p.EndFill(0, v, true);
    FilledBy(s, s1, s2, p.View(), v, k);
    FilledData(s, p.View(), v, k);
  }

  /** Some slot could be taken without writing anything back. */
  ghost predicate CleanSlot(slots: seq<Slot>) { exists i :: 0 <= i < |slots| && !slots[i].dirty }

  /**
   * The blocks read ahead are published from the buffer they came in. The slot just filled is clean, so the sweep never
   * takes a dirty one: nothing is written back meanwhile, and what is published is what the medium holds.
   */
  method Prefetch(p: Pool, dev: nat, lba: nat, ra: seq<Block>)
    requires Quiet(p) && CleanSlot(p.slots)
    requires forall j :: 0 <= j < |ra| ==> ra[j] == Get(p.medium, Key(dev, lba + j))
    modifies p
    ensures Quiet(p) && p.medium == old(p.medium) && p.logical == old(p.logical) && |p.slots| == |old(p.slots)|
    ensures CleanSlot(p.slots)
  {
    var j := 1;
    while j < |ra|
      invariant j >= 1 && Quiet(p) && CleanSlot(p.slots) && p.medium == old(p.medium) && p.logical == old(p.logical)
      invariant |p.slots| == |old(p.slots)|
    {
      PrefetchOne(p, Key(dev, lba + j), ra[j]);
      j := j + 1;
    }
  }

  method PrefetchOne(p: Pool, k: Key, data: Block)
    requires Quiet(p) && CleanSlot(p.slots) && data == Get(p.medium, k)
    modifies p
    ensures Quiet(p) && p.medium == old(p.medium) && p.logical == old(p.logical) && |p.slots| == |old(p.slots)|
    ensures CleanSlot(p.slots)
  {
    var e := p.Find(k);
    if e.None? {
      NoneBusy(p.View());
      var r := p.Sweep();
      assert !p.slots[0].busy;
      var v := r.value;
      ghost var s0 := p.View();
      assert FlagsOk(s0.slots[v]);
      VacatedSameBlocks(s0, v);
      p.Vacate(v);
      ghost var s := p.View();
      assert FlagsOk(s.slots[v]);
      p.Publish(v, Slot(k, true, false, false, true, data));
      FilledKeeps(s, p.View(), v, k);
      assert !p.slots[v].dirty;
    }
  }

  /** One block through the cache, reading `ahead` blocks of the device at a time. */
  method ReadBlock(p: Pool, k: Key, ahead: nat, limit: nat) returns (data: Block)
    requires Quiet(p) && limit > 0 && |p.slots| > 0
    modifies p
    ensures Quiet(p) && p.logical == old(p.logical) && |p.slots| == |old(p.slots)| && data == Get(p.logical, k)
  {
    var e := p.Find(k);
    if e.Some? {
      NoneBusy(p.View());
      assert FlagsOk(p.View().slots[e.value]) && SlotFresh(p.View(), p.View().slots[e.value]);
      data := p.slots[e.value].data;
    } else {
      var v := Miss(p, k, limit);
      data := p.slots[v].data;
      var ra := seq(ahead, j requires 0 <= j < ahead reads p => Get(p.medium, Key(k.dev, k.blk + j)));
      Prefetch(p, k.dev, k.blk, ra);
    }
  }

  // ---- writes ---------------------------------------------------------------

  lemma TakenLogical(s: Cache, s': Cache, v: nat, k: Key, data: Block)
    requires Inv(s) && WriteTaken(s, s', v, k, data)
    ensures s'.logical == s.logical[k := data] && |s'.slots| == |s.slots| && s'.ops == s.ops
  {
  }

  lemma NewIsTaken(s: Cache, s': Cache, v: nat, k: Key, data: Block)
    requires NewTaken(s, s', v, k, data)
    ensures s'.logical == s.logical[k := data] && |s'.slots| == |s.slots| && s'.ops == s.ops
  {
  }

  /** One block of blk_write_cached. */
  method WriteBlock(p: Pool, k: Key, data: Block, limit: nat)
    requires Quiet(p) && limit > 0 && |p.slots| > 0
    modifies p
    ensures Quiet(p) && p.logical == old(p.logical)[k := data] && |p.slots| == |old(p.slots)|
  {
    NoneBusy(p.View());
    assert !p.slots[0].busy;
    ghost var s := p.View();
    var r := p.WriteSection(k, data);
    if r.Done? {
      TakenLogical(s, p.View(), r.slot, k, data);
    } else if r.MustWrite? {
      var run := WriteBack(p, r.slot, limit);
      CleanedSameBlocks(s, p.View(), run);
      ClaimedAt(s.slots, run, false, true, r.slot);
      ghost var s1 := p.View();
      p.WriteNew(k, data, r.slot);
      NewIsTaken(s1, p.View(), r.slot, k, data);
    }
  }
}
