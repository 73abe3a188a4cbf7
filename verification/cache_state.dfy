/** The block cache of kernel/dev/blk.c: its slots, hash chains and the commands in flight, as one value. */
module CacheState {
  import opened Words

  /** A block of a whole disk; partitions are cached under the disk they are part of. */
  datatype Key = Key(dev: nat, blk: nat)

  type Block = seq<byte>

  /** struct block_buffer, its flags spelled out. */
  datatype Slot = Slot(key: Key, valid: bool, dirty: bool, busy: bool, hashed: bool, data: Block)

  /**
   * A device command in flight: a read into one slot, done or not, or a write of a run of slots from a copy of
   * their bytes, landed or not.
   */
  datatype Op = Fill(slot: nat, got: bool) | Write(run: seq<nat>, copy: seq<Block>, landed: bool)

  /**
   * `chains` are the hash buckets' lists of slots, first to last; `medium` is what the devices hold; `ops` are the
   * commands in flight; `logical` is what a reader is owed: the last bytes written to each block.
   */
  datatype Cache = Cache(slots: seq<Slot>, chains: seq<seq<nat>>, medium: map<Key, Block>, ops: map<nat, Op>,
                         logical: map<Key, Block>)

  function Get(m: map<Key, Block>, k: Key): Block { if k in m then m[k] else [] }

  const GOLDEN: u64 := 0x9E37_79B9_7F4A_7C15
  const MIX: u64 := 0xC6BC_2796_92B5_C323

  /** bcache_bucket, for a table of `n` buckets */
  function Bucket(k: Key, n: nat): (h: nat)
    requires n > 0
    ensures h < n
  {
    var m := Xor64(Mul64(GOLDEN, Wrap64(k.dev)), Mul64(MIX, Wrap64(k.blk)));
    Xor64(m, Shr(m, 32)) % n
  }

  function SlotsOf(op: Op): seq<nat> { match op case Fill(i, _) => [i] case Write(run, _, _) => run }

  // ---- what always holds ----------------------------------------------------

  predicate Distinct(xs: seq<nat>) { forall i, j :: 0 <= i < j < |xs| ==> xs[i] != xs[j] }

  ghost predicate BucketOk(s: Cache, b: nat)
    requires b < |s.chains|
  {
    && Distinct(s.chains[b])
    && forall i :: i in s.chains[b] ==> i < |s.slots| && s.slots[i].hashed && Bucket(s.slots[i].key, |s.chains|) == b
  }

  /** HASHED exactly when reachable, once, from the bucket of its key. */
  ghost predicate ChainsOk(s: Cache) {
    && |s.chains| > 0
    && (forall b :: 0 <= b < |s.chains| ==> BucketOk(s, b))
    && (forall i :: 0 <= i < |s.slots| && s.slots[i].hashed ==> i in s.chains[Bucket(s.slots[i].key, |s.chains|)])
  }

  /** At most one linked slot for a block. */
  ghost predicate OnePerKey(s: Cache) {
    forall i, j ::
      && 0 <= i < |s.slots| && 0 <= j < |s.slots|
      && s.slots[i].hashed && s.slots[j].hashed && s.slots[i].key == s.slots[j].key
      ==> i == j
  }

  predicate FlagsOk(b: Slot) { (b.hashed <==> b.valid || b.busy) && (b.dirty ==> b.valid) }

  ghost predicate AllFlagsOk(s: Cache) { forall i :: 0 <= i < |s.slots| ==> FlagsOk(s.slots[i]) }

  predicate Owns(s: Cache, id: nat, i: nat) { id in s.ops && i in SlotsOf(s.ops[id]) }

  ghost predicate OwnersOk(s: Cache) {
    && (forall id: nat, i: nat :: Owns(s, id, i) ==> i < |s.slots| && s.slots[i].busy)
    && (forall i :: 0 <= i < |s.slots| && s.slots[i].busy ==> exists id: nat :: Owns(s, id, i))
    && (forall id: nat, id': nat, i: nat :: Owns(s, id, i) && Owns(s, id', i) ==> id == id')
  }

  /** A command in flight and the slots it has claimed. */
  ghost predicate OpOk(s: Cache, op: Op) {
    match op
    case Fill(i, got) =>
      i < |s.slots| && !s.slots[i].valid && !s.slots[i].dirty
          && (got ==> s.slots[i].data == Get(s.medium, s.slots[i].key))
    case Write(run, copy, landed) =>
      && |run| == |copy| > 0 && Distinct(run)
      && (forall k :: 0 <= k < |run| ==>
            && run[k] < |s.slots| && s.slots[run[k]].valid && s.slots[run[k]].dirty && s.slots[run[k]].data == copy[k]
            && (landed ==> Get(s.medium, s.slots[run[k]].key) == copy[k]))
  }

  ghost predicate OpsOk(s: Cache) { forall id :: id in s.ops ==> OpOk(s, s.ops[id]) }

  /** A slot holds what its block's reader is owed, and so does the medium unless the slot is dirty. */
  ghost predicate SlotFresh(s: Cache, b: Slot) {
    b.valid ==> b.data == Get(s.logical, b.key) && (!b.dirty ==> Get(s.medium, b.key) == Get(s.logical, b.key))
  }

  ghost predicate Held(s: Cache, k: Key) { exists i :: 0 <= i < |s.slots| && s.slots[i].valid && s.slots[i].key == k }

  ghost predicate Fresh(s: Cache) {
    && (forall i :: 0 <= i < |s.slots| ==> SlotFresh(s, s.slots[i]))
    && (forall k :: !Held(s, k) ==> Get(s.medium, k) == Get(s.logical, k))
  }

  ghost predicate Inv(s: Cache) {
    ChainsOk(s) && OnePerKey(s) && AllFlagsOk(s) && OwnersOk(s) && OpsOk(s) && Fresh(s)
  }
}
