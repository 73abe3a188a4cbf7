/**
 * The cache under concurrency. The lock is dropped round every device command, so what other processors see happens in
 * lock-held sections; each step here is one such section, or a part of one, or the moment a device command takes
 * effect. Whatever the interleaving, the invariant of CacheState holds, so every read gives the last bytes written.
 */
module CacheProtocol {
  import opened Words
  import opened CacheState

  datatype Step =
    | FillStart(id: nat, slot: nat, key: Key)
    | FillRead(id: nat)
    | FillEnd(id: nat)
    | FillFail(id: nat)
    | Put(slot: nat, data: Block)
    | PutNew(slot: nat, key: Key, data: Block)
    | Evict(slot: nat)
    | Drop(slot: nat)
    | WriteStart(id: nat, run: seq<nat>)
    | WriteLand(id: nat)
    | WriteEnd(id: nat)
    | WriteFail(id: nat, junk: map<Key, Block>)

  // ---- parts of steps -------------------------------------------------------

  /** Neither in use nor claimed. */
  predicate Idle(b: Slot) { !b.valid && !b.busy }

  /** A block no slot is linked for. */
  ghost predicate Absent(s: Cache, k: Key) {
    forall i :: 0 <= i < |s.slots| && s.slots[i].hashed ==> s.slots[i].key != k
  }

  function WithoutSlot(xs: seq<nat>, i: nat): seq<nat> {
    if xs == [] then [] else if xs[0] == i then xs[1..] else [xs[0]] + WithoutSlot(xs[1..], i)
  }

  /** bcache_hash_insert: at the head of its bucket */
  function Insert(chains: seq<seq<nat>>, i: nat, k: Key): seq<seq<nat>>
    requires |chains| > 0
  {
    var h := Bucket(k, |chains|);
    chains[h := [i] + chains[h]]
  }

  /** bcache_hash_remove: nothing if it is not linked */
  function Remove(chains: seq<seq<nat>>, i: nat, b: Slot): seq<seq<nat>>
    requires |chains| > 0
  {
    var h := Bucket(b.key, |chains|);
    if b.hashed then chains[h := WithoutSlot(chains[h], i)] else chains
  }

  function Claimed(slots: seq<Slot>, run: seq<nat>, busy: bool, clean: bool): seq<Slot> {
    seq(|slots|, i requires 0 <= i < |slots| =>
      if i in run then slots[i].(busy := busy, dirty := slots[i].dirty && !clean) else slots[i])
  }

  function Copies(slots: seq<Slot>, run: seq<nat>): seq<Block> {
    seq(|run|, k requires 0 <= k < |run| => if run[k] < |slots| then slots[run[k]].data else [])
  }

  /** The medium once the copies of the first `n` slots of the run have landed. */
  function Landed(medium: map<Key, Block>, slots: seq<Slot>, run: seq<nat>, copy: seq<Block>, n: nat): map<Key, Block>
    requires n <= |run| && n <= |copy|
  {
    if n == 0 then medium
    else
      var m := Landed(medium, slots, run, copy, n - 1);
      if run[n - 1] < |slots| then m[slots[run[n - 1]].key := copy[n - 1]] else m
  }

  /** What a failed write leaves where it was aimed is anybody's guess. */
  function Spoiled(medium: map<Key, Block>, slots: seq<Slot>, run: seq<nat>, junk: map<Key, Block>): map<Key, Block> {
    medium + (map k | k in junk && k in KeysOf(slots, run) :: junk[k])
  }

  function KeysOf(slots: seq<Slot>, run: seq<nat>): set<Key> {
    set k | 0 <= k < |run| && run[k] < |slots| :: slots[run[k]].key
  }

  // ---- steps ----------------------------------------------------------------

  ghost predicate Guard(s: Cache, t: Step) {
    match t
    case FillStart(id, i, k) => id !in s.ops && i < |s.slots| && Idle(s.slots[i]) && Absent(s, k)
    case FillRead(id) => id in s.ops && s.ops[id].Fill? && !s.ops[id].got
    case FillEnd(id) => id in s.ops && s.ops[id].Fill? && s.ops[id].got
    case FillFail(id) => id in s.ops && s.ops[id].Fill?
    case Put(i, _) => i < |s.slots| && s.slots[i].valid && !s.slots[i].busy
    case PutNew(i, k, _) => i < |s.slots| && Idle(s.slots[i]) && Absent(s, k)
    case Evict(i) => i < |s.slots| && s.slots[i].valid && !s.slots[i].busy && !s.slots[i].dirty
    case Drop(i) => i < |s.slots| && !s.slots[i].busy && !s.slots[i].dirty
    case WriteStart(id, run) =>
      && id !in s.ops && |run| > 0 && Distinct(run)
      && (forall k :: 0 <= k < |run| ==>
          run[k] < |s.slots| && s.slots[run[k]].valid && s.slots[run[k]].dirty && !s.slots[run[k]].busy)
    case WriteLand(id) => id in s.ops && s.ops[id].Write? && !s.ops[id].landed && |s.ops[id].run| == |s.ops[id].copy|
    case WriteEnd(id) => id in s.ops && s.ops[id].Write? && s.ops[id].landed
    case WriteFail(id, _) => id in s.ops && s.ops[id].Write?
  }

  /** The slot of a fill in flight. */
  function FillSlot(s: Cache, id: nat): nat
    requires id in s.ops && s.ops[id].Fill?
  {
    s.ops[id].slot
  }

  ghost function Apply(s: Cache, t: Step): Cache
    requires |s.chains| > 0 && OpsOk(s) && Guard(s, t)
  {
    match t
    case FillStart(id, i, k) =>
      s.(slots := s.slots[i := Slot(k, false, false, true, true, s.slots[i].data)], chains := Insert(s.chains, i, k),
         ops := s.ops[id := Fill(i, false)])
    case FillRead(id) =>
      var i := FillSlot(s, id);
      assert OpOk(s, s.ops[id]);
      s.(slots := s.slots[i := s.slots[i].(data := Get(s.medium, s.slots[i].key))], ops := s.ops[id := Fill(i, true)])
    case FillEnd(id) =>
      var i := FillSlot(s, id);
      assert OpOk(s, s.ops[id]);
      s.(slots := s.slots[i := s.slots[i].(valid := true, busy := false)], ops := s.ops - {id})
    case FillFail(id) =>
      var i := FillSlot(s, id);
      assert OpOk(s, s.ops[id]);
      s.(slots := s.slots[i := s.slots[i].(busy := false, hashed := false)], chains := Remove(s.chains, i, s.slots[i]),
         ops := s.ops - {id})
    case Put(i, data) =>
      s.(slots := s.slots[i := s.slots[i].(data := data, dirty := true)], logical := s.logical[s.slots[i].key := data])
    case PutNew(i, k, data) =>
      s.(slots := s.slots[i := Slot(k, true, true, false, true, data)], chains := Insert(s.chains, i, k),
         logical := s.logical[k := data])
    case Evict(i) =>
      s.(slots := s.slots[i := s.slots[i].(valid := false, hashed := false)], chains := Remove(s.chains, i, s.slots[i]))
    case Drop(i) =>
      s.(slots := s.slots[i := Slot(Key(0, 0), false, false, false, false, s.slots[i].data)],
         chains := Remove(s.chains, i, s.slots[i]))
    case WriteStart(id, run) =>
      s.(slots := Claimed(s.slots, run, true, false), ops := s.ops[id := Write(run, Copies(s.slots, run), false)])
    case WriteLand(id) =>
      var o := s.ops[id];
      s.(medium := Landed(s.medium, s.slots, o.run, o.copy, |o.run|), ops := s.ops[id := Write(o.run, o.copy, true)])
    case WriteEnd(id) =>
      s.(slots := Claimed(s.slots, s.ops[id].run, false, true), ops := s.ops - {id})
    case WriteFail(id, junk) =>
      s.(slots := Claimed(s.slots, s.ops[id].run, false, false),
         medium := Spoiled(s.medium, s.slots, s.ops[id].run, junk), ops := s.ops - {id})
  }

  // ---- chains ---------------------------------------------------------------

  lemma {:induction false} WithoutMembers(xs: seq<nat>, i: nat)
    requires Distinct(xs)
    ensures Distinct(WithoutSlot(xs, i))
    ensures forall x: nat :: x in WithoutSlot(xs, i) <==> x in xs && x != i
    decreases |xs|
  {
    if xs != [] {
      var rest := xs[1..];
      assert Distinct(rest) && xs[0] !in rest;
      assert forall x: nat :: x in xs <==> x == xs[0] || x in rest;
      WithoutMembers(rest, i);
    }
  }

  /** Slot `i`, linked nowhere, is linked under `b`'s key. */
  lemma InsertKeeps(s: Cache, s': Cache, i: nat, b: Slot)
    requires ChainsOk(s) && i < |s.slots| && !s.slots[i].hashed && b.hashed
    requires s'.slots == s.slots[i := b] && s'.chains == Insert(s.chains, i, b.key)
    ensures ChainsOk(s')
  {
    var h := Bucket(b.key, |s.chains|);
    forall c | 0 <= c < |s'.chains|
      ensures BucketOk(s', c)
    {
      assert BucketOk(s, c);
      assert i !in s.chains[c];
      if c == h { assert forall x: nat :: x in s'.chains[c] <==> x == i || x in s.chains[c]; }
    }
    forall j | 0 <= j < |s'.slots| && s'.slots[j].hashed
      ensures j in s'.chains[Bucket(s'.slots[j].key, |s'.chains|)]
    {
      if j != i { assert j in s.chains[Bucket(s.slots[j].key, |s.chains|)]; }
    }
  }

  /** Slot `i` is linked no longer. */
  lemma RemoveKeeps(s: Cache, s': Cache, i: nat, b: Slot)
    requires ChainsOk(s) && i < |s.slots| && !b.hashed
    requires s'.slots == s.slots[i := b] && s'.chains == Remove(s.chains, i, s.slots[i])
    ensures ChainsOk(s')
  {
    var h := Bucket(s.slots[i].key, |s.chains|);
    assert BucketOk(s, h);
    WithoutMembers(s.chains[h], i);
    forall c | 0 <= c < |s'.chains|
      ensures BucketOk(s', c)
    {
      assert BucketOk(s, c);
    }
    forall j | 0 <= j < |s'.slots| && s'.slots[j].hashed
      ensures j in s'.chains[Bucket(s'.slots[j].key, |s'.chains|)]
    {
      assert j in s.chains[Bucket(s.slots[j].key, |s.chains|)];
    }
  }

  /** Links and keys as they were. */
  lemma SameChains(s: Cache, s': Cache)
    requires ChainsOk(s) && s'.chains == s.chains && |s'.slots| == |s.slots|
    requires forall i :: 0 <= i < |s.slots| ==>
             s'.slots[i].hashed == s.slots[i].hashed && s'.slots[i].key == s.slots[i].key
    ensures ChainsOk(s')
  {
    forall c | 0 <= c < |s'.chains|
      ensures BucketOk(s', c)
    {
      assert BucketOk(s, c);
    }
  }

  // ---- each step keeps the invariant ----------------------------------------

  /** One slot changes and stays linked, or unlinked, under its key. */
  lemma OneSlotOwners(s: Cache, s': Cache, i: nat, b: Slot)
    requires OwnersOk(s) && i < |s.slots| && s'.slots == s.slots[i := b] && s'.ops == s.ops && b.busy == s.slots[i].busy
    ensures OwnersOk(s')
  {
    forall j | 0 <= j < |s'.slots| && s'.slots[j].busy
      ensures exists id: nat :: Owns(s', id, j)
    {
      assert s.slots[j].busy;
      var id: nat :| Owns(s, id, j);
      assert Owns(s', id, j);
    }
    forall id: nat, j: nat | Owns(s', id, j) ensures j < |s'.slots| && s'.slots[j].busy { assert Owns(s, id, j); }
    forall id: nat, id': nat, j: nat | Owns(s', id, j) && Owns(s', id', j)
      ensures id == id'
    {
      assert Owns(s, id, j) && Owns(s, id', j);
    }
  }

  /** Nobody else's claim is on a slot that is not busy. */
  lemma UnclaimedOps(s: Cache, s': Cache, i: nat, b: Slot)
    requires OwnersOk(s) && OpsOk(s) && i < |s.slots| && !s.slots[i].busy
    requires s'.slots == s.slots[i := b] && s'.medium == s.medium
    ensures forall id :: id in s.ops ==> OpOk(s', s.ops[id])
  {
    forall id | id in s.ops
      ensures OpOk(s', s.ops[id])
    {
      assert OpOk(s, s.ops[id]);
      assert !Owns(s, id, i);
      match s.ops[id]
      case Fill(j, _) => assert j in SlotsOf(s.ops[id]);
      case Write(run, _, _) =>
        forall k | 0 <= k < |run| ensures run[k] != i { assert run[k] in SlotsOf(s.ops[id]); }
    }
  }

  lemma OneSlotFlags(s: Cache, s': Cache, i: nat, b: Slot)
    requires AllFlagsOk(s) && i < |s.slots| && FlagsOk(b) && s'.slots == s.slots[i := b]
    ensures AllFlagsOk(s')
  {
  }

  /** The only slot linked for its key, or not linked. */
  lemma OneSlotKeys(s: Cache, s': Cache, i: nat, b: Slot)
    requires OnePerKey(s) && i < |s.slots| && s'.slots == s.slots[i := b]
    requires b.hashed ==> (s.slots[i].hashed && b.key == s.slots[i].key) || Absent(s, b.key)
    ensures OnePerKey(s')
  {
  }

  /** The same slots valid under the same keys. */
  lemma HeldSame(s: Cache, s': Cache, k: Key)
    requires |s'.slots| == |s.slots|
    requires forall i :: 0 <= i < |s.slots| ==>
             s'.slots[i].valid == s.slots[i].valid && (s.slots[i].valid ==> s'.slots[i].key == s.slots[i].key)
    ensures Held(s', k) == Held(s, k)
  {
    if Held(s, k) {
      var i :| 0 <= i < |s.slots| && s.slots[i].valid && s.slots[i].key == k;
      assert s'.slots[i].valid;
    }
  }

  /** A slot that was not valid and is not: nothing readers see changes. */
  lemma UnseenFresh(s: Cache, s': Cache, i: nat, b: Slot)
    requires Fresh(s) && i < |s.slots| && !s.slots[i].valid && !b.valid
    requires s'.slots == s.slots[i := b] && s'.medium == s.medium && s'.logical == s.logical
    ensures Fresh(s')
  {
    forall k | !Held(s', k) ensures Get(s'.medium, k) == Get(s'.logical, k) { HeldSame(s, s', k); }
    forall j | 0 <= j < |s'.slots| ensures SlotFresh(s', s'.slots[j]) {
      if j != i { assert SlotFresh(s, s.slots[j]); }
    }
  }

  /** A clean slot gives up its block: the medium has it. */
  lemma ForgottenFresh(s: Cache, s': Cache, i: nat, b: Slot)
    requires Fresh(s) && OnePerKey(s) && AllFlagsOk(s) && i < |s.slots| && !s.slots[i].dirty && !b.valid
    requires s'.slots == s.slots[i := b] && s'.medium == s.medium && s'.logical == s.logical
    ensures Fresh(s')
  {
    forall j | 0 <= j < |s'.slots| ensures SlotFresh(s', s'.slots[j]) {
      if j != i { assert SlotFresh(s, s.slots[j]); }
    }
    forall k | !Held(s', k) ensures Get(s'.medium, k) == Get(s'.logical, k) {
      assert SlotFresh(s, s.slots[i]);
      HeldOther(s, s', i, b, k);
    }
  }

  lemma HeldOther(s: Cache, s': Cache, i: nat, b: Slot, k: Key)
    requires i < |s.slots| && s'.slots == s.slots[i := b]
    ensures Held(s, k) ==> Held(s', k) || (s.slots[i].valid && s.slots[i].key == k)
  {
    if Held(s, k) {
      var j :| 0 <= j < |s.slots| && s.slots[j].valid && s.slots[j].key == k;
      assert j == i || s'.slots[j] == s.slots[j];
    }
  }

  /** A slot comes to hold what the medium has, its block being held nowhere else. */
  lemma FilledFresh(s: Cache, s': Cache, i: nat, b: Slot)
    requires Fresh(s) && OnePerKey(s) && AllFlagsOk(s) && i < |s.slots| && !s.slots[i].valid && s.slots[i].hashed
    requires b.key == s.slots[i].key && b.valid && !b.dirty && b.data == Get(s.medium, b.key)
    requires s'.slots == s.slots[i := b] && s'.medium == s.medium && s'.logical == s.logical
    ensures Fresh(s')
  {
    forall j | 0 <= j < |s.slots| && s.slots[j].valid ensures s.slots[j].key != b.key { assert FlagsOk(s.slots[j]); }
    assert !Held(s, b.key);
    forall j | 0 <= j < |s'.slots| ensures SlotFresh(s', s'.slots[j]) {
      if j != i { assert SlotFresh(s, s.slots[j]); }
    }
    forall k | !Held(s', k) ensures Get(s'.medium, k) == Get(s'.logical, k) { MoreHeld(s, s', i, b, k); }
  }

  lemma MoreHeld(s: Cache, s': Cache, i: nat, b: Slot, k: Key)
    requires i < |s.slots| && s'.slots == s.slots[i := b] && (s.slots[i].valid ==> b.valid && b.key == s.slots[i].key)
    ensures Held(s, k) ==> Held(s', k)
  {
    if Held(s, k) {
      var j :| 0 <= j < |s.slots| && s.slots[j].valid && s.slots[j].key == k;
      assert s'.slots[j].valid && s'.slots[j].key == k;
    }
  }

  /** A slot takes newly written bytes, dirty, its block being held by no other. */
  lemma WrittenFresh(s: Cache, s': Cache, i: nat, b: Slot)
    requires Fresh(s) && OnePerKey(s) && AllFlagsOk(s) && i < |s.slots|
    requires (s.slots[i].valid && s.slots[i].key == b.key) || (!s.slots[i].valid && Absent(s, b.key))
    requires b.valid && b.dirty
    requires s'.slots == s.slots[i := b] && s'.medium == s.medium && s'.logical == s.logical[b.key := b.data]
    ensures Fresh(s')
  {
    forall j | 0 <= j < |s'.slots| ensures SlotFresh(s', s'.slots[j]) {
      if j != i {
        assert SlotFresh(s, s.slots[j]) && FlagsOk(s.slots[j]) && FlagsOk(s.slots[i]);
        assert s.slots[j].valid ==> s.slots[j].key != b.key;
      }
    }
    forall k | !Held(s', k) ensures Get(s'.medium, k) == Get(s'.logical, k) {
      MoreHeld(s, s', i, b, k);
      assert s'.slots[i] == b;
    }
  }

  // ---- writers and evictions ------------------------------------------------

  lemma PutKeeps(s: Cache, s': Cache, i: nat, data: Block)
    requires Inv(s) && Guard(s, Put(i, data)) && s' == Apply(s, Put(i, data))
    ensures Inv(s')
  {
    var b := s'.slots[i];
    SameChains(s, s');
    assert FlagsOk(s.slots[i]);
    OneSlotFlags(s, s', i, b);
    OneSlotKeys(s, s', i, b);
    OneSlotOwners(s, s', i, b);
    UnclaimedOps(s, s', i, b);
    WrittenFresh(s, s', i, b);
  }

  lemma PutNewKeeps(s: Cache, s': Cache, i: nat, k: Key, data: Block)
    requires Inv(s) && Guard(s, PutNew(i, k, data)) && s' == Apply(s, PutNew(i, k, data))
    ensures Inv(s')
  {
    var b := s'.slots[i];
    assert FlagsOk(s.slots[i]);
    InsertKeeps(s, s', i, b);
    OneSlotFlags(s, s', i, b);
    OneSlotKeys(s, s', i, b);
    OneSlotOwners(s, s', i, b);
    UnclaimedOps(s, s', i, b);
    WrittenFresh(s, s', i, b);
  }

  lemma EvictKeeps(s: Cache, s': Cache, i: nat)
    requires Inv(s) && Guard(s, Evict(i)) && s' == Apply(s, Evict(i))
    ensures Inv(s')
  {
    var b := s'.slots[i];
    RemoveKeeps(s, s', i, b);
    OneSlotFlags(s, s', i, b);
    OneSlotKeys(s, s', i, b);
    OneSlotOwners(s, s', i, b);
    UnclaimedOps(s, s', i, b);
    ForgottenFresh(s, s', i, b);
  }

  lemma DropKeeps(s: Cache, s': Cache, i: nat)
    requires Inv(s) && Guard(s, Drop(i)) && s' == Apply(s, Drop(i))
    ensures Inv(s')
  {
    var b := s'.slots[i];
    RemoveKeeps(s, s', i, b);
    OneSlotFlags(s, s', i, b);
    OneSlotKeys(s, s', i, b);
    OneSlotOwners(s, s', i, b);
    UnclaimedOps(s, s', i, b);
    ForgottenFresh(s, s', i, b);
  }

  // ---- fills ----------------------------------------------------------------

  /** A new command claims slot `i`. */
  lemma ClaimOwners(s: Cache, s': Cache, id: nat, i: nat, b: Slot, o: Op)
    requires OwnersOk(s) && i < |s.slots| && !s.slots[i].busy && b.busy && id !in s.ops && SlotsOf(o) == [i]
    requires s'.slots == s.slots[i := b] && s'.ops == s.ops[id := o]
    ensures OwnersOk(s')
  {
    forall id': nat, j: nat | Owns(s', id', j)
      ensures j < |s'.slots| && s'.slots[j].busy && (if id' == id then j == i else Owns(s, id', j))
    {
      if id' != id { assert Owns(s, id', j); }
    }
    forall j | 0 <= j < |s'.slots| && s'.slots[j].busy
      ensures exists id': nat :: Owns(s', id', j)
    {
      if j == i {
        assert Owns(s', id, j);
      } else {
        var id': nat :| Owns(s, id', j);
        assert Owns(s', id', j);
      }
    }
    forall id1: nat, id2: nat, j: nat | Owns(s', id1, j) && Owns(s', id2, j)
      ensures id1 == id2
    {
      if id1 == id || id2 == id {
        assert !Owns(s, id1, i) && !Owns(s, id2, i);
      } else {
        assert Owns(s, id1, j) && Owns(s, id2, j);
      }
    }
  }

  lemma FillStartKeeps(s: Cache, s': Cache, id: nat, i: nat, k: Key)
    requires Inv(s) && Guard(s, FillStart(id, i, k)) && s' == Apply(s, FillStart(id, i, k))
    ensures Inv(s')
  {
    var b := s'.slots[i];
    assert FlagsOk(s.slots[i]);
    InsertKeeps(s, s', i, b);
    OneSlotFlags(s, s', i, b);
    OneSlotKeys(s, s', i, b);
    ClaimOwners(s, s', id, i, b, Fill(i, false));
    UnclaimedOps(s, s', i, b);
    UnseenFresh(s, s', i, b);
  }

  /** Only the owner's command depends on a claimed slot. */
  lemma OtherOps(s: Cache, s': Cache, id: nat, i: nat, b: Slot)
    requires OwnersOk(s) && OpsOk(s) && i < |s.slots| && Owns(s, id, i) && s'.slots == s.slots[i := b]
    requires s'.medium == s.medium
    ensures forall id' :: id' in s.ops && id' != id ==> OpOk(s', s.ops[id'])
  {
    forall id' | id' in s.ops && id' != id
      ensures OpOk(s', s.ops[id'])
    {
      assert OpOk(s, s.ops[id']);
      assert !Owns(s, id', i);
      match s.ops[id']
      case Fill(j, _) => assert j in SlotsOf(s.ops[id']);
      case Write(run, _, _) =>
        forall k | 0 <= k < |run| ensures run[k] != i { assert run[k] in SlotsOf(s.ops[id']); }
    }
  }

  lemma FillReadKeeps(s: Cache, s': Cache, id: nat)
    requires Inv(s) && Guard(s, FillRead(id)) && s' == Apply(s, FillRead(id))
    ensures Inv(s')
  {
    var i := s.ops[id].slot;
    assert OpOk(s, s.ops[id]) && Owns(s, id, i);
    var b := s'.slots[i];
    SameChains(s, s');
    assert FlagsOk(s.slots[i]);
    OneSlotFlags(s, s', i, b);
    OneSlotKeys(s, s', i, b);
    SameOwners(s, s', id, i, b);
    OtherOps(s, s', id, i, b);
    UnseenFresh(s, s', i, b);
  }

  lemma SameOwners(s: Cache, s': Cache, id: nat, i: nat, b: Slot)
    requires OwnersOk(s) && i < |s.slots| && b.busy == s.slots[i].busy && s'.slots == s.slots[i := b]
    requires id in s.ops && id in s'.ops && SlotsOf(s'.ops[id]) == SlotsOf(s.ops[id])
    requires s'.ops == s.ops[id := s'.ops[id]]
    ensures OwnersOk(s')
  {
    assert forall id': nat, j: nat :: Owns(s', id', j) <==> Owns(s, id', j);
    forall j | 0 <= j < |s'.slots| && s'.slots[j].busy
      ensures exists id': nat :: Owns(s', id', j)
    {
      assert s.slots[j].busy;
      var id': nat :| Owns(s, id', j);
      assert Owns(s', id', j);
    }
  }

  /** A command gives its one slot back. */
  lemma ReleaseOwners(s: Cache, s': Cache, id: nat, i: nat, b: Slot)
    requires OwnersOk(s) && i < |s.slots| && id in s.ops && SlotsOf(s.ops[id]) == [i] && !b.busy
    requires s'.slots == s.slots[i := b] && s'.ops == s.ops - {id}
    ensures OwnersOk(s')
  {
    assert Owns(s, id, i);
    forall id': nat, j: nat | Owns(s', id', j) ensures j < |s'.slots| && s'.slots[j].busy { assert Owns(s, id', j); }
    forall j | 0 <= j < |s'.slots| && s'.slots[j].busy
      ensures exists id': nat :: Owns(s', id', j)
    {
      var id': nat :| Owns(s, id', j);
      assert Owns(s', id', j);
    }
    forall id1: nat, id2: nat, j: nat | Owns(s', id1, j) && Owns(s', id2, j)
      ensures id1 == id2
    {
      assert Owns(s, id1, j) && Owns(s, id2, j);
    }
  }

  lemma FillEndKeeps(s: Cache, s': Cache, id: nat)
    requires Inv(s) && Guard(s, FillEnd(id)) && s' == Apply(s, FillEnd(id))
    ensures Inv(s')
  {
    var i := s.ops[id].slot;
    assert OpOk(s, s.ops[id]) && Owns(s, id, i);
    var b := s'.slots[i];
    assert FlagsOk(s.slots[i]);
    SameChains(s, s');
    OneSlotFlags(s, s', i, b);
    OneSlotKeys(s, s', i, b);
    ReleaseOwners(s, s', id, i, b);
    OtherOps(s, s', id, i, b);
    FilledFresh(s, s', i, b);
  }

  lemma FillFailKeeps(s: Cache, s': Cache, id: nat)
    requires Inv(s) && Guard(s, FillFail(id)) && s' == Apply(s, FillFail(id))
    ensures Inv(s')
  {
    var i := s.ops[id].slot;
    assert OpOk(s, s.ops[id]) && Owns(s, id, i);
    var b := s'.slots[i];
    assert FlagsOk(s.slots[i]);
    RemoveKeeps(s, s', i, b);
    OneSlotFlags(s, s', i, b);
    OneSlotKeys(s, s', i, b);
    ReleaseOwners(s, s', id, i, b);
    OtherOps(s, s', id, i, b);
    UnseenFresh(s, s', i, b);
  }

  // ---- write-back -----------------------------------------------------------

  lemma ClaimedAt(slots: seq<Slot>, run: seq<nat>, busy: bool, clean: bool, i: nat)
    requires i < |slots|
    ensures Claimed(slots, run, busy, clean)[i]
         == if i in run then slots[i].(busy := busy, dirty := slots[i].dirty && !clean) else slots[i]
  {
  }

  /** Claims change flags only: links, keys and bytes are as they were. */
  lemma ClaimedChains(s: Cache, s': Cache, run: seq<nat>, busy: bool, clean: bool)
    requires ChainsOk(s) && OnePerKey(s) && s'.slots == Claimed(s.slots, run, busy, clean) && s'.chains == s.chains
    ensures ChainsOk(s') && OnePerKey(s')
  {
    SameChains(s, s');
  }

  lemma ClaimedFlags(s: Cache, s': Cache, run: seq<nat>, busy: bool, clean: bool)
    requires AllFlagsOk(s) && s'.slots == Claimed(s.slots, run, busy, clean)
    requires forall k :: 0 <= k < |run| ==> run[k] < |s.slots| && s.slots[run[k]].valid
    ensures AllFlagsOk(s')
  {
    forall i | 0 <= i < |s'.slots| ensures FlagsOk(s'.slots[i]) { assert FlagsOk(s.slots[i]); }
  }

  lemma ClaimedFresh(s: Cache, s': Cache, run: seq<nat>, busy: bool, clean: bool)
    requires Fresh(s) && s'.slots == Claimed(s.slots, run, busy, clean) && s'.medium == s.medium
    requires s'.logical == s.logical
    requires clean ==> forall k :: 0 <= k < |run| ==>
             run[k] < |s.slots| && Get(s.medium, s.slots[run[k]].key) == s.slots[run[k]].data
    ensures Fresh(s')
  {
    forall i | 0 <= i < |s'.slots| ensures SlotFresh(s', s'.slots[i]) { assert SlotFresh(s, s.slots[i]); }
    forall k | !Held(s', k) ensures Get(s'.medium, k) == Get(s'.logical, k) { HeldSame(s, s', k); }
  }

  lemma WriteStartOwners(s: Cache, s': Cache, id: nat, run: seq<nat>, o: Op)
    requires OwnersOk(s) && id !in s.ops && SlotsOf(o) == run
    requires forall k :: 0 <= k < |run| ==> run[k] < |s.slots| && !s.slots[run[k]].busy
    requires s'.slots == Claimed(s.slots, run, true, false) && s'.ops == s.ops[id := o]
    ensures OwnersOk(s')
  {
    forall id': nat, j: nat | Owns(s', id', j)
      ensures j < |s'.slots| && s'.slots[j].busy && (if id' == id then j in run else Owns(s, id', j))
    {
      if id' != id { assert Owns(s, id', j); }
    }
    forall j | 0 <= j < |s'.slots| && s'.slots[j].busy
      ensures exists id': nat :: Owns(s', id', j)
    {
      if j in run {
        assert Owns(s', id, j);
      } else {
        var id': nat :| Owns(s, id', j);
        assert Owns(s', id', j);
      }
    }
    forall id1: nat, id2: nat, j: nat | Owns(s', id1, j) && Owns(s', id2, j)
      ensures id1 == id2
    {
      if j in run { assert !Owns(s, id1, j) && !Owns(s, id2, j); } else { assert Owns(s, id1, j) && Owns(s, id2, j); }
    }
  }

  /** Commands whose slots are not among `run` do not notice. */
  lemma OpUntouched(s: Cache, s': Cache, o: Op, run: seq<nat>, busy: bool, clean: bool)
    requires OpOk(s, o) && s'.slots == Claimed(s.slots, run, busy, clean)
    requires forall k :: 0 <= k < |SlotsOf(o)| ==> SlotsOf(o)[k] !in run
    requires forall k :: 0 <= k < |SlotsOf(o)| && SlotsOf(o)[k] < |s.slots| ==>
      Get(s'.medium, s.slots[SlotsOf(o)[k]].key) == Get(s.medium, s.slots[SlotsOf(o)[k]].key)
    ensures OpOk(s', o)
  {
    match o
    case Fill(j, _) => assert SlotsOf(o)[0] == j;
    case Write(r, _, _) => assert SlotsOf(o) == r;
  }

  lemma WriteStartKeeps(s: Cache, s': Cache, id: nat, run: seq<nat>)
    requires Inv(s) && Guard(s, WriteStart(id, run)) && s' == Apply(s, WriteStart(id, run))
    ensures Inv(s')
  {
    ClaimedChains(s, s', run, true, false);
    ClaimedFlags(s, s', run, true, false);
    ClaimedFresh(s, s', run, true, false);
    WriteStartOwners(s, s', id, run, s'.ops[id]);
    WriteStartOps(s, s', id, run);
  }

  lemma WriteStartOps(s: Cache, s': Cache, id: nat, run: seq<nat>)
    requires Inv(s) && Guard(s, WriteStart(id, run)) && s' == Apply(s, WriteStart(id, run))
    ensures OpsOk(s')
  {
    forall id' | id' in s'.ops
      ensures OpOk(s', s'.ops[id'])
    {
      if id' != id {
        var o := s.ops[id'];
        forall k | 0 <= k < |SlotsOf(o)| ensures SlotsOf(o)[k] !in run { assert Owns(s, id', SlotsOf(o)[k]); }
        OpUntouched(s, s', o, run, true, false);
      }
    }
  }

  /** Where the run's bytes are once they have landed, and that nothing else moved. */
  lemma {:induction false} LandedGets(medium: map<Key, Block>, slots: seq<Slot>, run: seq<nat>, copy: seq<Block>,
                                      n: nat, k: Key)
    requires n <= |run| && n <= |copy|
    ensures (forall j :: 0 <= j < n ==> run[j] < |slots| ==> slots[run[j]].key != k) ==>
            Get(Landed(medium, slots, run, copy, n), k) == Get(medium, k)
    decreases n
  {
    if n > 0 { LandedGets(medium, slots, run, copy, n - 1, k); }
  }

  lemma {:induction false} LandedHas(medium: map<Key, Block>, slots: seq<Slot>, run: seq<nat>, copy: seq<Block>, n: nat,
                                     j: nat)
    requires j < n <= |run| && n <= |copy| && (forall i :: 0 <= i < n ==> run[i] < |slots|)
    requires forall i, l :: 0 <= i < l < n ==> slots[run[i]].key != slots[run[l]].key
    ensures Get(Landed(medium, slots, run, copy, n), slots[run[j]].key) == copy[j]
    decreases n
  {
    if j < n - 1 { LandedHas(medium, slots, run, copy, n - 1, j); }
  }

  /** Different linked slots are for different blocks. */
  lemma RunKeysDiffer(s: Cache, run: seq<nat>, i: nat, j: nat)
    requires OnePerKey(s) && AllFlagsOk(s) && i < |s.slots| && j < |s.slots| && s.slots[i].hashed && s.slots[j].hashed
    requires i != j
    ensures s.slots[i].key != s.slots[j].key
  {
  }

  /** The keys of a claimed run are keys of no other claimed or valid slot. */
  lemma RunApart(s: Cache, id: nat, i: nat, k: nat)
    requires Inv(s) && id in s.ops && s.ops[id].Write? && i < |s.slots| && s.slots[i].hashed && i !in s.ops[id].run
    requires k < |s.ops[id].run|
    ensures s.ops[id].run[k] < |s.slots| && s.slots[s.ops[id].run[k]].key != s.slots[i].key
  {
    assert OpOk(s, s.ops[id]);
    var j := s.ops[id].run[k];
    assert FlagsOk(s.slots[j]);
    RunKeysDiffer(s, s.ops[id].run, i, j);
  }

  /** The medium changed at most at the blocks of the run. */
  ghost predicate OnlyRun(s: Cache, medium: map<Key, Block>, run: seq<nat>) {
    forall k {:trigger Get(medium, k)} ::
      (forall j :: 0 <= j < |run| && run[j] < |s.slots| ==> s.slots[run[j]].key != k) ==>
          Get(medium, k) == Get(s.medium, k)
  }

  lemma OtherKey(s: Cache, medium: map<Key, Block>, id: nat, i: nat)
    requires Inv(s) && id in s.ops && s.ops[id].Write? && OnlyRun(s, medium, s.ops[id].run)
    requires i < |s.slots| && s.slots[i].hashed && i !in s.ops[id].run
    ensures Get(medium, s.slots[i].key) == Get(s.medium, s.slots[i].key)
  {
    var run := s.ops[id].run;
    forall k | 0 <= k < |run| && run[k] < |s.slots|
      ensures s.slots[run[k]].key != s.slots[i].key
    {
      RunApart(s, id, i, k);
    }
  }

  lemma OtherOpSame(s: Cache, medium: map<Key, Block>, id: nat, id': nat)
    requires Inv(s) && id in s.ops && id' in s.ops && id != id' && s.ops[id].Write? && OnlyRun(s, medium, s.ops[id].run)
    ensures forall k :: 0 <= k < |SlotsOf(s.ops[id'])| ==>
      && SlotsOf(s.ops[id'])[k] !in s.ops[id].run
      && (SlotsOf(s.ops[id'])[k] < |s.slots| ==>
          Get(medium, s.slots[SlotsOf(s.ops[id'])[k]].key) == Get(s.medium, s.slots[SlotsOf(s.ops[id'])[k]].key))
  {
    var o := s.ops[id'];
    forall k | 0 <= k < |SlotsOf(o)|
      ensures SlotsOf(o)[k] !in s.ops[id].run
      ensures SlotsOf(o)[k] < |s.slots| ==>
              Get(medium, s.slots[SlotsOf(o)[k]].key) == Get(s.medium, s.slots[SlotsOf(o)[k]].key)
    {
      var i := SlotsOf(o)[k];
      assert Owns(s, id', i);
      assert i !in s.ops[id].run by { assert Owns(s, id, i) ==> id == id'; }
      assert FlagsOk(s.slots[i]);
      OtherKey(s, medium, id, i);
    }
  }

  /** Dirty slots do not need the medium; the rest of the cache is not in the run. */
  lemma RunFresh(s: Cache, s': Cache, id: nat)
    requires Inv(s) && id in s.ops && s.ops[id].Write? && OnlyRun(s, s'.medium, s.ops[id].run)
    requires s'.slots == s.slots && s'.logical == s.logical
    ensures Fresh(s')
  {
    assert OpOk(s, s.ops[id]);
    var run := s.ops[id].run;
    forall i | 0 <= i < |s'.slots|
      ensures SlotFresh(s', s'.slots[i])
    {
      assert SlotFresh(s, s.slots[i]) && FlagsOk(s.slots[i]);
      if s.slots[i].valid && i !in run { OtherKey(s, s'.medium, id, i); }
    }
    forall k | !Held(s', k)
      ensures Get(s'.medium, k) == Get(s'.logical, k)
    {
      assert !Held(s, k);
      assert forall j :: 0 <= j < |run| && run[j] < |s.slots| ==> s.slots[run[j]].key != k;
    }
  }

  lemma LandOnlyRun(s: Cache, id: nat)
    requires Inv(s) && id in s.ops && s.ops[id].Write?
    ensures |s.ops[id].run| == |s.ops[id].copy|
    ensures OnlyRun(s, Landed(s.medium, s.slots, s.ops[id].run, s.ops[id].copy, |s.ops[id].run|), s.ops[id].run)
  {
    assert OpOk(s, s.ops[id]);
    var o := s.ops[id];
    var medium := Landed(s.medium, s.slots, o.run, o.copy, |o.run|);
    forall k | forall j :: 0 <= j < |o.run| && o.run[j] < |s.slots| ==> s.slots[o.run[j]].key != k
      ensures Get(medium, k) == Get(s.medium, k)
    {
      LandedGets(s.medium, s.slots, o.run, o.copy, |o.run|, k);
    }
  }

  lemma WriteLandOwn(s: Cache, s': Cache, id: nat)
    requires Inv(s) && Guard(s, WriteLand(id)) && s' == Apply(s, WriteLand(id))
    ensures OpOk(s', s'.ops[id])
  {
    var o := s.ops[id];
    assert OpOk(s, o);
    forall i, l | 0 <= i < l < |o.run| ensures s.slots[o.run[i]].key != s.slots[o.run[l]].key {
      assert FlagsOk(s.slots[o.run[i]]) && FlagsOk(s.slots[o.run[l]]);
      RunKeysDiffer(s, o.run, o.run[i], o.run[l]);
    }
    forall k | 0 <= k < |o.run| ensures Get(s'.medium, s.slots[o.run[k]].key) == o.copy[k] {
      LandedHas(s.medium, s.slots, o.run, o.copy, |o.run|, k);
    }
  }

  lemma OpSameSlots(s: Cache, s': Cache, o: Op)
    requires OpOk(s, o) && s'.slots == s.slots
    requires forall k :: 0 <= k < |SlotsOf(o)| && SlotsOf(o)[k] < |s.slots| ==>
      Get(s'.medium, s.slots[SlotsOf(o)[k]].key) == Get(s.medium, s.slots[SlotsOf(o)[k]].key)
    ensures OpOk(s', o)
  {
    match o
    case Fill(j, _) => assert SlotsOf(o)[0] == j;
    case Write(r, _, _) => assert SlotsOf(o) == r;
  }

  lemma WriteLandKeeps(s: Cache, s': Cache, id: nat)
    requires Inv(s) && Guard(s, WriteLand(id)) && s' == Apply(s, WriteLand(id))
    ensures Inv(s')
  {
    SameChains(s, s');
    LandOnlyRun(s, id);
    RunFresh(s, s', id);
    WriteLandOwn(s, s', id);
    forall id' | id' in s'.ops ensures OpOk(s', s'.ops[id']) {
      if id' != id {
        OtherOpSame(s, s'.medium, id, id');
        OpSameSlots(s, s', s.ops[id']);
      }
    }
    assert forall id': nat, j: nat :: Owns(s', id', j) <==> Owns(s, id', j);
    forall j | 0 <= j < |s'.slots| && s'.slots[j].busy
      ensures exists id': nat :: Owns(s', id', j)
    {
      var id': nat :| Owns(s, id', j);
      assert Owns(s', id', j);
    }
  }

  lemma WriteEndOwners(s: Cache, s': Cache, id: nat, clean: bool)
    requires OwnersOk(s) && id in s.ops && s.ops[id].Write?
    requires s'.slots == Claimed(s.slots, s.ops[id].run, false, clean) && s'.ops == s.ops - {id}
    ensures OwnersOk(s')
  {
    var run := s.ops[id].run;
    forall j: nat | j in run ensures Owns(s, id, j) { }
    forall id': nat, j: nat | Owns(s', id', j) ensures j < |s'.slots| && s'.slots[j].busy {
      assert Owns(s, id', j);
      assert j in run ==> Owns(s, id, j);
    }
    forall j | 0 <= j < |s'.slots| && s'.slots[j].busy
      ensures exists id': nat :: Owns(s', id', j)
    {
      var id': nat :| Owns(s, id', j);
      assert Owns(s', id', j);
    }
    forall id1: nat, id2: nat, j: nat | Owns(s', id1, j) && Owns(s', id2, j)
      ensures id1 == id2
    {
      assert Owns(s, id1, j) && Owns(s, id2, j);
    }
  }

  lemma WriteEndOps(s: Cache, s': Cache, id: nat, clean: bool)
    requires Inv(s) && id in s.ops && s.ops[id].Write? && OnlyRun(s, s'.medium, s.ops[id].run)
    requires s'.slots == Claimed(s.slots, s.ops[id].run, false, clean) && s'.ops == s.ops - {id}
    ensures OpsOk(s')
  {
    forall id' | id' in s'.ops
      ensures OpOk(s', s'.ops[id'])
    {
      OtherOpSame(s, s'.medium, id, id');
      OpUntouched(s, s', s.ops[id'], s.ops[id].run, false, clean);
    }
  }

  lemma WriteEndKeeps(s: Cache, s': Cache, id: nat)
    requires Inv(s) && Guard(s, WriteEnd(id)) && s' == Apply(s, WriteEnd(id))
    ensures Inv(s')
  {
    var run := s.ops[id].run;
    assert OpOk(s, s.ops[id]);
    ClaimedChains(s, s', run, false, true);
    ClaimedFlags(s, s', run, false, true);
    ClaimedFresh(s, s', run, false, true);
    WriteEndOwners(s, s', id, true);
    WriteEndOps(s, s', id, true);
  }

  lemma SpoilOnlyRun(s: Cache, run: seq<nat>, junk: map<Key, Block>)
    ensures OnlyRun(s, Spoiled(s.medium, s.slots, run, junk), run)
  {
  }

  lemma WriteFailKeeps(s: Cache, s': Cache, id: nat, junk: map<Key, Block>)
    requires Inv(s) && Guard(s, WriteFail(id, junk)) && s' == Apply(s, WriteFail(id, junk))
    ensures Inv(s')
  {
    var run := s.ops[id].run;
    assert OpOk(s, s.ops[id]);
    SpoilOnlyRun(s, run, junk);
    var s1 := s.(medium := s'.medium);
    RunFresh(s, s1, id);
    ClaimedChains(s, s', run, false, false);
    ClaimedFlags(s, s', run, false, false);
    ClaimedFresh(s1, s', run, false, false);
    WriteEndOwners(s, s', id, false);
    WriteEndOps(s, s', id, false);
  }

  // ---- every run ------------------------------------------------------------

  lemma StepKeeps(s: Cache, t: Step)
    requires Inv(s) && Guard(s, t)
    ensures Inv(Apply(s, t))
  {
    var s' := Apply(s, t);
    match t
    case FillStart(id, i, k) => FillStartKeeps(s, s', id, i, k);
    case FillRead(id) => FillReadKeeps(s, s', id);
    case FillEnd(id) => FillEndKeeps(s, s', id);
    case FillFail(id) => FillFailKeeps(s, s', id);
    case Put(i, data) => PutKeeps(s, s', i, data);
    case PutNew(i, k, data) => PutNewKeeps(s, s', i, k, data);
    case Evict(i) => EvictKeeps(s, s', i);
    case Drop(i) => DropKeeps(s, s', i);
    case WriteStart(id, run) => WriteStartKeeps(s, s', id, run);
    case WriteLand(id) => WriteLandKeeps(s, s', id);
    case WriteEnd(id) => WriteEndKeeps(s, s', id);
    case WriteFail(id, junk) => WriteFailKeeps(s, s', id, junk);
  }

  /** An empty cache before its devices. */
  ghost predicate Initial(s: Cache) {
    && |s.chains| > 0 && (forall b :: 0 <= b < |s.chains| ==> s.chains[b] == [])
    && (forall i :: 0 <= i < |s.slots| ==>
        !s.slots[i].valid && !s.slots[i].dirty && !s.slots[i].busy && !s.slots[i].hashed)
    && s.ops == map[] && s.logical == s.medium
  }

  ghost predicate Moves(s: Cache, t: Step, s': Cache) { |s.chains| > 0 && OpsOk(s) && Guard(s, t) && s' == Apply(s, t) }

  /** Any interleaving: step `ts[n]` leads from state `n` to the next. */
  ghost predicate IsRun(tr: seq<Cache>, ts: seq<Step>) {
    && |tr| == |ts| + 1 && Initial(tr[0])
    && forall n :: 0 <= n < |ts| ==> Moves(tr[n], ts[n], tr[n + 1])
  }

  /** Whatever the interleaving of lock-held sections and device commands, the invariant holds in every state. */
  lemma {:induction false} RunsKeepInv(tr: seq<Cache>, ts: seq<Step>, n: nat)
    requires IsRun(tr, ts) && n < |tr|
    ensures Inv(tr[n])
    decreases n
  {
    if n > 0 {
      RunsKeepInv(tr, ts, n - 1);
      assert Moves(tr[n - 1], ts[n - 1], tr[n - 1 + 1]);
      StepKeeps(tr[n - 1], ts[n - 1]);
    }
  }

  /** The slot bcache_find comes to, if there is one. */
  ghost predicate Finds(s: Cache, k: Key, i: nat) { i < |s.slots| && s.slots[i].hashed && s.slots[i].key == k }

  /** A lookup that may be answered from the cache is answered with the last bytes written to the block. */
  lemma HitsAreCurrent(tr: seq<Cache>, ts: seq<Step>, n: nat, k: Key, i: nat)
    requires IsRun(tr, ts) && n < |tr| && Finds(tr[n], k, i) && !tr[n].slots[i].busy
    ensures tr[n].slots[i].data == Get(tr[n].logical, k)
    ensures forall j :: Finds(tr[n], k, j) ==> j == i
  {
    RunsKeepInv(tr, ts, n);
    assert FlagsOk(tr[n].slots[i]) && SlotFresh(tr[n], tr[n].slots[i]);
  }

  /** A miss is answered, once its fill ends, with the last bytes written, however long the device took. */
  lemma FillsAreCurrent(tr: seq<Cache>, ts: seq<Step>, n: nat)
    requires IsRun(tr, ts) && n < |ts| && ts[n].FillEnd?
    ensures ts[n].id in tr[n].ops && tr[n].ops[ts[n].id].Fill?
    ensures var i := tr[n].ops[ts[n].id].slot;
            i < |tr[n].slots| && tr[n].slots[i].data == Get(tr[n].logical, tr[n].slots[i].key)
  {
    assert Moves(tr[n], ts[n], tr[n + 1]);
    RunsKeepInv(tr, ts, n);
    RunsKeepInv(tr, ts, n + 1);
    assert OpOk(tr[n], tr[n].ops[ts[n].id]);
    assert SlotFresh(tr[n + 1], tr[n + 1].slots[tr[n].ops[ts[n].id].slot]);
  }

  /** DIRTY goes only once exactly the slot's bytes are on the medium. */
  lemma CleanedOnlyWhenLanded(tr: seq<Cache>, ts: seq<Step>, n: nat, i: nat)
    requires IsRun(tr, ts) && n < |ts| && i < |tr[n].slots| && tr[n].slots[i].dirty
    requires i < |tr[n + 1].slots| && !tr[n + 1].slots[i].dirty
    ensures ts[n].WriteEnd?
    ensures Get(tr[n + 1].medium, tr[n].slots[i].key) == tr[n].slots[i].data == tr[n + 1].slots[i].data
  {
    assert Moves(tr[n], ts[n], tr[n + 1]);
    RunsKeepInv(tr, ts, n);
    StepCleans(tr[n], ts[n], i);
  }

  lemma StepCleans(s: Cache, t: Step, i: nat)
    requires Inv(s) && Guard(s, t) && i < |s.slots| && s.slots[i].dirty
    requires i < |Apply(s, t).slots| && !Apply(s, t).slots[i].dirty
    ensures t.WriteEnd? && Get(Apply(s, t).medium, s.slots[i].key) == s.slots[i].data == Apply(s, t).slots[i].data
  {
    assert FlagsOk(s.slots[i]);
    OnlyWriteEndCleans(s, t, i);
    assert OpOk(s, s.ops[t.id]);
    ClaimedAt(s.slots, s.ops[t.id].run, false, true, i);
    var k :| 0 <= k < |s.ops[t.id].run| && s.ops[t.id].run[k] == i;
  }

  lemma OnlyWriteEndCleans(s: Cache, t: Step, i: nat)
    requires Inv(s) && Guard(s, t) && i < |s.slots| && s.slots[i].dirty
    ensures i < |Apply(s, t).slots| && (Apply(s, t).slots[i].dirty || (t.WriteEnd? && i in s.ops[t.id].run))
  {
    assert FlagsOk(s.slots[i]);
    match t
    case FillRead(id) => assert OpOk(s, s.ops[id]);
    case FillEnd(id) => assert OpOk(s, s.ops[id]);
    case FillFail(id) => assert OpOk(s, s.ops[id]);
    case _ =>
  }

  /** A block no slot is linked for is on the medium. */
  lemma AbsentIsOnMedium(tr: seq<Cache>, ts: seq<Step>, n: nat, k: Key)
    requires IsRun(tr, ts) && n < |tr| && Absent(tr[n], k)
    ensures Get(tr[n].medium, k) == Get(tr[n].logical, k)
  {
    RunsKeepInv(tr, ts, n);
    forall i | 0 <= i < |tr[n].slots| && tr[n].slots[i].valid
      ensures tr[n].slots[i].key != k
    {
      assert FlagsOk(tr[n].slots[i]);
    }
    assert !Held(tr[n], k);
  }

  /** Once nothing is dirty, the devices hold everything written: what a sync waits for. */
  lemma CleanMeansOnMedium(tr: seq<Cache>, ts: seq<Step>, n: nat, k: Key)
    requires IsRun(tr, ts) && n < |tr|
    requires forall i :: 0 <= i < |tr[n].slots| && tr[n].slots[i].key == k ==> !tr[n].slots[i].dirty
    ensures Get(tr[n].medium, k) == Get(tr[n].logical, k)
  {
    RunsKeepInv(tr, ts, n);
    var s := tr[n];
    if Held(s, k) {
      var i :| 0 <= i < |s.slots| && s.slots[i].valid && s.slots[i].key == k;
      assert SlotFresh(s, s.slots[i]);
    }
  }
}
