/**
 * Disks and partitions through the cache: any sequence of cached reads, writes, flushes and invalidations gives the
 * answers of a plain array of blocks.
 */
module CacheDisk {
  import opened Words
  import opened CacheState
  import opened CacheProtocol
  import opened CachePool
  import opened CacheSerial
  import opened CacheFlush

  /** A disk, or a partition of it from block `start` on; `count` is 0 when the size is not known. */
  datatype Device = Whole(disk: nat, count: nat) | Part(disk: nat, start: nat, count: nat)

  function First(d: Device): nat { if d.Part? then d.start else 0 }

  /** Past the last block of a device, among its disk's: the end of the block numbers for a whole disk. */
  function Last(d: Device): nat { if d.Part? then d.start + d.count else M64 - 1 }

  /** blk_cache_target: partitions are cached under their disk, at the disk's block. */
  function Target(d: Device, lba: nat): Key { Key(d.disk, First(d) + lba) }

  /** The check every cached request starts with. */
  predicate InBounds(d: Device, lba: nat, n: nat) { d.count == 0 || (n <= d.count && lba <= d.count - n) }

  // ---- the plain array ------------------------------------------------------

  datatype Cmd =
    | ReadAt(d: Device, lba: nat, n: nat)
    | WriteAt(d: Device, lba: nat, blocks: seq<Block>)
    | Sync(d: Device)
    | Forget(d: Device)

  datatype Reply = Data(blocks: seq<Block>) | Ok | Error

  function Stored(disk: map<Key, Block>, d: Device, lba: nat, blocks: seq<Block>): map<Key, Block> {
    if blocks == [] then disk
        else Stored(disk, d, lba, blocks[..|blocks| - 1])[Target(d, lba + |blocks| - 1) := blocks[|blocks| - 1]]
  }

  function Fetched(disk: map<Key, Block>, d: Device, lba: nat, n: nat): seq<Block> {
    seq(n, i requires 0 <= i < n => Get(disk, Target(d, lba + i)))
  }

  /** What a command does to the array. */
  function After(disk: map<Key, Block>, c: Cmd): map<Key, Block> {
    if c.WriteAt? && InBounds(c.d, c.lba, |c.blocks|) then Stored(disk, c.d, c.lba, c.blocks) else disk
  }

  /** What a command is answered. */
  function Answer(disk: map<Key, Block>, c: Cmd): Reply {
    match c
    case ReadAt(d, lba, n) => if InBounds(d, lba, n) then Data(Fetched(disk, d, lba, n)) else Error
    case WriteAt(d, lba, blocks) => if InBounds(d, lba, |blocks|) then Ok else Error
    case _ => Ok
  }

  function AfterAll(disk: map<Key, Block>, cs: seq<Cmd>): map<Key, Block> {
    if cs == [] then disk else After(AfterAll(disk, cs[..|cs| - 1]), cs[|cs| - 1])
  }

  function Answers(disk: map<Key, Block>, cs: seq<Cmd>): seq<Reply> {
    if cs == [] then [] else Answers(disk, cs[..|cs| - 1]) + [Answer(AfterAll(disk, cs[..|cs| - 1]), cs[|cs| - 1])]
  }

  lemma FetchedMore(disk: map<Key, Block>, d: Device, lba: nat, i: nat)
    ensures Fetched(disk, d, lba, i + 1) == Fetched(disk, d, lba, i) + [Get(disk, Target(d, lba + i))]
    ensures Fetched(disk, d, lba, 0) == []
  {
  }

  /** A block of a partition is a block of its disk: what is written through either is read through both. */
  lemma PartitionsAlias(disk: map<Key, Block>, part: Device, lba: nat, block: Block)
    requires part.Part? && InBounds(part, lba, 1)
    ensures var whole := Whole(part.disk, 0);
            && Answer(After(disk, WriteAt(part, lba, [block])), ReadAt(whole, part.start + lba, 1)) == Data([block])
            && Answer(After(disk, WriteAt(whole, part.start + lba, [block])), ReadAt(part, lba, 1)) == Data([block])
  {
    assert [block][..0] == [];
    assert Stored(disk, part, lba, [block]) == disk[Target(part, lba) := block];
    var whole := Whole(part.disk, 0);
    assert Stored(disk, whole, part.start + lba, [block]) == disk[Target(part, lba) := block];
    FetchedMore(disk[Target(part, lba) := block], part, lba, 0);
    FetchedMore(disk[Target(part, lba) := block], whole, part.start + lba, 0);
  }

  // ---- through the cache ----------------------------------------------------

  /** How many blocks a device reads in one command at a block, and writes in one command: heuristics and limits. */
  datatype Policy = Policy(ahead: Key -> nat, cap: nat -> nat, limit: nat)

  predicate Usable(p: Pool, h: Policy)
    reads p
  {
    |p.slots| > 0 && h.limit > 0
  }

  /** blk_read_cached */
  method ReadCached(p: Pool, h: Policy, d: Device, lba: nat, n: nat) returns (r: Reply)
    requires Quiet(p) && Usable(p, h)
    modifies p
    ensures Quiet(p) && Usable(p, h) && p.logical == old(p.logical)
    ensures r == Answer(old(p.logical), ReadAt(d, lba, n))
  {
    if !InBounds(d, lba, n) { return Error; }
    var out := [];
    FetchedMore(p.logical, d, lba, 0);
    for i := 0 to n
      invariant Quiet(p) && Usable(p, h) && p.logical == old(p.logical) && out == Fetched(old(p.logical), d, lba, i)
    {
      var k := Target(d, lba + i);
      var b := ReadBlock(p, k, h.ahead(k), h.limit);
      FetchedMore(p.logical, d, lba, i);
      out := out + [b];
    }
    return Data(out);
  }

  /** blk_write_cached */
  method WriteCached(p: Pool, h: Policy, d: Device, lba: nat, blocks: seq<Block>) returns (r: Reply)
    requires Quiet(p) && Usable(p, h)
    modifies p
    ensures Quiet(p) && Usable(p, h) && p.logical == After(old(p.logical), WriteAt(d, lba, blocks))
    ensures r == Answer(old(p.logical), WriteAt(d, lba, blocks))
  {
    if !InBounds(d, lba, |blocks|) { return Error; }
    for i := 0 to |blocks|
      invariant Quiet(p) && Usable(p, h) && p.logical == Stored(old(p.logical), d, lba, blocks[..i])
    {
      WriteBlock(p, Target(d, lba + i), blocks[i], h.limit);
      assert blocks[..i + 1][..i] == blocks[..i];
    }
    assert blocks[..|blocks|] == blocks;
    return Ok;
  }

  /** A block of the device that cached requests are let through to. */
  predicate Reachable(d: Device, lba: nat) { InBounds(d, lba, 1) && First(d) + lba < M64 - 1 }

  /**
   * The range a flush visits is all a device's requests can reach, exactly unless it is a partition of unknown size.
   */
  lemma VisitedIff(d: Device)
    requires First(d) < M64 - 1
    ensures (forall lba: nat :: Reachable(d, lba) ==> First(d) + lba < Last(d)) <==> !(d.Part? && d.count == 0)
  {
    if d.Part? && d.count == 0 { assert Reachable(d, 0); }
  }

  /** blk_cache_flush */
  method SyncCached(p: Pool, h: Policy, d: Device)
    requires Quiet(p) && Usable(p, h)
    modifies p
    ensures Quiet(p) && Usable(p, h) && p.logical == old(p.logical)
    ensures forall lba :: 0 <= lba < Last(d) - First(d) ==>
            Get(p.medium, Target(d, lba)) == Get(p.logical, Target(d, lba))
    ensures !(d.Part? && d.count == 0) ==>
              forall lba: nat :: Reachable(d, lba) ==> Get(p.medium, Target(d, lba)) == Get(p.logical, Target(d, lba))
  {
    var all := Taking((_, _) => true, map[]);
    Flush(p, _ => Owner(0, 0), Want(d.disk, First(d), Last(d), 0, 0), h.cap, all);
  }

  /** blk_cache_invalidate on slot `i`: written back alone if it is dirty, then forgotten. */
  method InvalidateSlot(p: Pool, i: nat)
    requires Quiet(p) && i < |p.slots|
    modifies p
    ensures Quiet(p) && |p.slots| == |old(p.slots)| && p.logical == old(p.logical)
    ensures !p.slots[i].valid && forall j :: 0 <= j < |p.slots| && j != i ==> SameBlock(old(p.slots)[j], p.slots[j])
  {
    NoneBusy(p.View());
    ghost var s := p.View();
    assert FlagsOk(s.slots[i]);
    if p.slots[i].valid && p.slots[i].dirty {
      var run := WriteBack(p, i, 1);
      ClaimedAt(s.slots, run, false, true, i);
      forall j | 0 <= j < |s.slots|
        ensures SameBlock(s.slots[j], p.slots[j])
      {
        ClaimedAt(s.slots, run, false, true, j);
      }
    }
    p.Invalidate(i);
  }

  /** The same block, held or not as before. */
  predicate SameBlock(a: Slot, b: Slot) { a.key == b.key && a.valid == b.valid }

  /** The slot holds no block of the device. */
  predicate NotOf(d: Device, b: Slot) { b.valid ==> !(b.key.dev == d.disk && First(d) <= b.key.blk < Last(d)) }

  /** blk_cache_invalidate: nothing of the device is held any more, and readers are owed what they were owed. */
  method InvalidateCached(p: Pool, h: Policy, d: Device)
    requires Quiet(p) && Usable(p, h)
    modifies p
    ensures Quiet(p) && Usable(p, h) && p.logical == old(p.logical)
    ensures forall i :: 0 <= i < |p.slots| ==> NotOf(d, p.slots[i])
  {
    for i := 0 to |p.slots|
      invariant Quiet(p) && |p.slots| == |old(p.slots)| && p.logical == old(p.logical)
      invariant forall j :: 0 <= j < i ==> NotOf(d, p.slots[j])
    {
      if p.slots[i].key.dev == d.disk && First(d) <= p.slots[i].key.blk < Last(d) { InvalidateSlot(p, i); }
    }
  }

  /** Any sequence of requests is answered as the plain array answers it. */
  method Serve(p: Pool, h: Policy, cs: seq<Cmd>) returns (out: seq<Reply>)
    requires Quiet(p) && Usable(p, h)
    modifies p
    ensures Quiet(p) && out == Answers(old(p.logical), cs) && p.logical == AfterAll(old(p.logical), cs)
  {
    out := [];
    for i := 0 to |cs|
      invariant Quiet(p) && Usable(p, h) && out == Answers(old(p.logical), cs[..i])
      invariant p.logical == AfterAll(old(p.logical), cs[..i])
    {
      var r := ServeOne(p, h, cs[i]);
      assert cs[..i + 1][..i] == cs[..i];
      out := out + [r];
    }
    assert cs[..|cs|] == cs;
  }

  method ServeOne(p: Pool, h: Policy, c: Cmd) returns (r: Reply)
    requires Quiet(p) && Usable(p, h)
    modifies p
    ensures Quiet(p) && Usable(p, h) && p.logical == After(old(p.logical), c) && r == Answer(old(p.logical), c)
  {
    match c
    case ReadAt(d, lba, n) => r := ReadCached(p, h, d, lba, n);
    case WriteAt(d, lba, blocks) => r := WriteCached(p, h, d, lba, blocks);
    case Sync(d) => SyncCached(p, h, d); r := Ok;
    case Forget(d) => InvalidateCached(p, h, d); r := Ok;
  }
}
