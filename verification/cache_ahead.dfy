/**
 * Read-ahead among other processors, and evictions whose write fails. Blocks read ahead are read with the lock dropped
 * and no slot claimed; blk_read_cached publishes them if no write to the device was counted meanwhile. Here is exactly
 * when that is right, a run in which it is not, and what every run keeps that avoids it.
 */
module CacheAhead {
  import opened Words
  import opened CacheState
  import opened CacheProtocol

  /**
   * A block being read ahead: the count of writes noted before the lock was dropped, and what the device gave. `sound`
   * says whether that was what readers were owed just then, `lost` whether an eviction has lost the block since.
   */
  datatype Ahead = Ahead(key: Key, gen: nat, data: Option<Block>, sound: bool, lost: bool)

  /** The cache, the blocks being read ahead, and each device's count of writes (cache_write_gen). */
  datatype State = State(c: Cache, bufs: map<nat, Ahead>, gens: map<nat, nat>)

  datatype AStep =
    | Base(t: Step)
    | Note(id: nat, key: Key)
    | Read(id: nat)
    | Publish(id: nat, slot: nat)
    | Lose(slot: nat)

  function GenOf(gens: map<nat, nat>, dev: nat): nat { if dev in gens then gens[dev] else 0 }

  /** The block a step writes, if it writes one. */
  function WritesTo(c: Cache, t: Step): Option<Key> {
    match t
    case Put(i, _) => if i < |c.slots| then Some(c.slots[i].key) else None
    case PutNew(_, k, _) => Some(k)
    case _ => None
  }

  function Counted(gens: map<nat, nat>, k: Option<Key>): map<nat, nat> {
    match k case None => gens case Some(k) => gens[k.dev := GenOf(gens, k.dev) + 1]
  }

  function Published(b: Ahead): Slot
    requires b.data.Some?
  {
    Slot(b.key, true, false, false, true, b.data.value)
  }

  function Forgetting(bufs: map<nat, Ahead>, k: Key): map<nat, Ahead> {
    map id | id in bufs :: if bufs[id].key == k then bufs[id].(lost := true) else bufs[id]
  }

  ghost predicate Guard(s: State, t: AStep) {
    |s.c.chains| > 0 && OpsOk(s.c) && match t
    case Base(t) => CacheProtocol.Guard(s.c, t)
    case Note(id, _) => id !in s.bufs
    case Read(id) => id in s.bufs && s.bufs[id].data.None?
    case Publish(id, i) =>
      && id in s.bufs && s.bufs[id].data.Some? && GenOf(s.gens, s.bufs[id].key.dev) == s.bufs[id].gen
      && i < |s.c.slots| && Idle(s.c.slots[i]) && Absent(s.c, s.bufs[id].key)
    case Lose(i) => i < |s.c.slots| && s.c.slots[i].valid && s.c.slots[i].dirty && !s.c.slots[i].busy
  }

  /** A slot let go of with bytes that never reached the device: readers get what the device has. */
  ghost function Lost(c: Cache, i: nat): Cache
    requires |c.chains| > 0 && i < |c.slots|
  {
    c.(slots := c.slots[i := c.slots[i].(valid := false, dirty := false, hashed := false)],
       chains := Remove(c.chains, i, c.slots[i]), logical := c.logical[c.slots[i].key := Get(c.medium, c.slots[i].key)])
  }

  ghost function Filled(c: Cache, i: nat, b: Slot): Cache
    requires |c.chains| > 0 && i < |c.slots|
  {
    c.(slots := c.slots[i := b], chains := Insert(c.chains, i, b.key))
  }

  /** The device has what readers of the block are owed. */
  ghost predicate Owed(c: Cache, k: Key) { Get(c.medium, k) == Get(c.logical, k) }

  ghost function Apply(s: State, t: AStep): State
    requires Guard(s, t)
  {
    match t
    case Base(t) => s.(c := CacheProtocol.Apply(s.c, t), gens := Counted(s.gens, WritesTo(s.c, t)))
    case Note(id, k) => s.(bufs := s.bufs[id := Ahead(k, GenOf(s.gens, k.dev), None, false, false)])
    case Read(id) =>
      var b := s.bufs[id];
      s.(bufs := s.bufs[id := b.(data := Some(Get(s.c.medium, b.key)), sound := Owed(s.c, b.key), lost := false)])
    case Publish(id, i) => s.(c := Filled(s.c, i, Published(s.bufs[id])), bufs := s.bufs - {id})
    case Lose(i) => s.(c := Lost(s.c, i), bufs := Forgetting(s.bufs, s.c.slots[i].key))
  }

  /** A slot holds the block dirty, with other bytes than the device. */
  ghost predicate HeldDirty(c: Cache, k: Key) {
    exists i :: 0 <= i < |c.slots| && c.slots[i].valid && c.slots[i].dirty && c.slots[i].key == k
        && c.slots[i].data != Get(c.medium, k)
  }

  /** What the device holds is what readers are owed, exactly unless a slot holds the block dirty with other bytes. */
  lemma OwedIff(c: Cache, k: Key)
    requires Inv(c)
    ensures Owed(c, k) <==> !HeldDirty(c, k)
  {
    if HeldDirty(c, k) {
      var i :| 0 <= i < |c.slots| && c.slots[i].valid && c.slots[i].dirty && c.slots[i].key == k
          && c.slots[i].data != Get(c.medium, k);
      assert SlotFresh(c, c.slots[i]);
    }
    if Held(c, k) {
      var i :| 0 <= i < |c.slots| && c.slots[i].valid && c.slots[i].key == k;
      assert SlotFresh(c, c.slots[i]);
    }
  }

  // ---- what buffers know ----------------------------------------------------

  /** While no write is counted and nothing is lost, a buffer is current exactly if it was sound when read. */
  ghost predicate BufOk(s: State, b: Ahead) {
    && b.gen <= GenOf(s.gens, b.key.dev)
    && (b.data.Some? && b.gen == GenOf(s.gens, b.key.dev) && !b.lost ==>
        (b.sound <==> b.data.value == Get(s.c.logical, b.key)))
  }

  ghost predicate BufsOk(s: State) { forall id :: id in s.bufs ==> BufOk(s, s.bufs[id]) }

  ghost predicate AInv(s: State) { Inv(s.c) && BufsOk(s) }

  /** A step of the protocol changes what readers are owed only where it writes. */
  lemma OwedStays(c: Cache, t: Step, k: Key)
    requires |c.chains| > 0 && OpsOk(c) && CacheProtocol.Guard(c, t) && WritesTo(c, t) != Some(k)
    ensures Get(CacheProtocol.Apply(c, t).logical, k) == Get(c.logical, k)
  {
  }

  lemma CountGrows(gens: map<nat, nat>, k: Option<Key>, dev: nat)
    ensures GenOf(Counted(gens, k), dev) == GenOf(gens, dev) + (if k.Some? && k.value.dev == dev then 1 else 0)
  {
  }

  lemma BaseBufs(s: State, t: Step)
    requires BufsOk(s) && Guard(s, Base(t))
    ensures BufsOk(Apply(s, Base(t)))
  {
    var s' := Apply(s, Base(t));
    forall id | id in s'.bufs
      ensures BufOk(s', s'.bufs[id])
    {
      var b := s.bufs[id];
      assert BufOk(s, b);
      CountGrows(s.gens, WritesTo(s.c, t), b.key.dev);
      if WritesTo(s.c, t) != Some(b.key) { OwedStays(s.c, t, b.key); }
    }
  }

  // ---- publication ----------------------------------------------------------

  lemma FilledChains(c: Cache, i: nat, b: Slot)
    requires Inv(c) && i < |c.slots| && Idle(c.slots[i]) && Absent(c, b.key) && b.hashed && b.valid && !b.busy
    requires !b.dirty
    ensures var c' := Filled(c, i, b); ChainsOk(c') && OnePerKey(c') && AllFlagsOk(c') && OwnersOk(c') && OpsOk(c')
  {
    var c' := Filled(c, i, b);
    assert FlagsOk(c.slots[i]);
    InsertKeeps(c, c', i, b);
    OneSlotKeys(c, c', i, b);
    OneSlotOwners(c, c', i, b);
    UnclaimedOps(c, c', i, b);
    OneSlotFlags(c, c', i, b);
  }

  /** A block held elsewhere is still held when one slot changes. */
  lemma KeptHeld(c: Cache, c': Cache, i: nat, k: Key)
    requires Held(c, k) && i < |c.slots| == |c'.slots| && !(c.slots[i].valid && c.slots[i].key == k)
    requires forall j :: 0 <= j < |c.slots| && j != i ==> c'.slots[j] == c.slots[j]
    ensures Held(c', k)
  {
    var j :| 0 <= j < |c.slots| && c.slots[j].valid && c.slots[j].key == k;
    assert c'.slots[j].valid && c'.slots[j].key == k;
  }

  lemma FilledIsFresh(c: Cache, i: nat, b: Slot)
    requires Inv(c) && i < |c.slots| && Idle(c.slots[i]) && Absent(c, b.key) && b.valid && !b.dirty
    requires b.data == Get(c.logical, b.key)
    ensures Fresh(Filled(c, i, b))
  {
    var c' := Filled(c, i, b);
    AbsentOwed(c, b.key);
    forall j | 0 <= j < |c'.slots| ensures SlotFresh(c', c'.slots[j]) { assert SlotFresh(c, c.slots[j]); }
    forall k | !Held(c', k)
      ensures Owed(c', k)
    {
      if Held(c, k) { KeptHeld(c, c', i, k); }
    }
  }

  lemma AbsentOwed(c: Cache, k: Key)
    requires Inv(c) && Absent(c, k)
    ensures Owed(c, k)
  {
    forall i | 0 <= i < |c.slots| && c.slots[i].valid ensures c.slots[i].key != k { assert FlagsOk(c.slots[i]); }
    assert !Held(c, k);
  }

  /** Publishing a block keeps the cache's invariant exactly when its bytes are what readers are owed. */
  lemma PublishIff(c: Cache, i: nat, b: Slot)
    requires Inv(c) && i < |c.slots| && Idle(c.slots[i]) && Absent(c, b.key) && b.hashed && b.valid && !b.busy
    requires !b.dirty
    ensures Inv(Filled(c, i, b)) <==> b.data == Get(c.logical, b.key)
  {
    FilledChains(c, i, b);
    if b.data == Get(c.logical, b.key) { FilledIsFresh(c, i, b); }
    assert Filled(c, i, b).slots[i] == b;
  }

  /**
   * A block read ahead and published, no write to its device counted since before the read and none lost: it is current
   * exactly if, when the device was read, no slot held the block dirty with other bytes. (`sound` records that, by
   * OwedIff.)
   */
  lemma PublicationCurrentIff(s: State, id: nat, i: nat)
    requires AInv(s) && Guard(s, Publish(id, i)) && !s.bufs[id].lost
    ensures Inv(Apply(s, Publish(id, i)).c) <==> s.bufs[id].sound
    ensures s.bufs[id].sound <==> s.bufs[id].data.value == Get(s.c.logical, s.bufs[id].key)
  {
    assert BufOk(s, s.bufs[id]);
    PublishIff(s.c, i, Published(s.bufs[id]));
  }

  // ---- losses ---------------------------------------------------------------

  lemma LostFresh(c: Cache, i: nat)
    requires Inv(c) && i < |c.slots| && c.slots[i].valid && c.slots[i].dirty && !c.slots[i].busy
    ensures Fresh(Lost(c, i))
  {
    var c', k := Lost(c, i), c.slots[i].key;
    assert FlagsOk(c.slots[i]);
    forall j | 0 <= j < |c'.slots|
      ensures SlotFresh(c', c'.slots[j])
    {
      assert SlotFresh(c, c.slots[j]) && FlagsOk(c.slots[j]);
    }
    forall l | !Held(c', l)
      ensures Owed(c', l)
    {
      if l != k && Held(c, l) { KeptHeld(c, c', i, l); }
    }
  }

  /** An eviction whose write failed loses its own block's bytes and nothing else. */
  lemma LoseKeeps(c: Cache, i: nat)
    requires Inv(c) && i < |c.slots| && c.slots[i].valid && c.slots[i].dirty && !c.slots[i].busy
    ensures Inv(Lost(c, i))
    ensures forall k :: k != c.slots[i].key ==> Get(Lost(c, i).logical, k) == Get(c.logical, k)
  {
    var c' := Lost(c, i);
    var b := c'.slots[i];
    assert FlagsOk(c.slots[i]);
    RemoveKeeps(c, c', i, b);
    OneSlotKeys(c, c', i, b);
    OneSlotOwners(c, c', i, b);
    UnclaimedOps(c, c', i, b);
    OneSlotFlags(c, c', i, b);
    LostFresh(c, i);
  }

  lemma LoseBufs(s: State, i: nat)
    requires BufsOk(s) && Guard(s, Lose(i))
    ensures BufsOk(Apply(s, Lose(i)))
  {
    var s' := Apply(s, Lose(i));
    forall id | id in s'.bufs ensures BufOk(s', s'.bufs[id]) { assert BufOk(s, s.bufs[id]); }
  }

  // ---- runs -----------------------------------------------------------------

  /** The step publishes nothing, or a block that was sound when read and has not been lost since. */
  predicate Careful(s: State, t: AStep) {
    t.Publish? && t.id in s.bufs ==> s.bufs[t.id].sound && !s.bufs[t.id].lost
  }

  lemma PublishKeepsBufs(s: State, id: nat, i: nat)
    requires BufsOk(s) && Guard(s, Publish(id, i))
    ensures BufsOk(Apply(s, Publish(id, i)))
  {
    var s' := Apply(s, Publish(id, i));
    forall n | n in s'.bufs ensures BufOk(s', s'.bufs[n]) { assert BufOk(s, s.bufs[n]); }
  }

  lemma NoteBufs(s: State, t: AStep)
    requires BufsOk(s) && Guard(s, t) && (t.Note? || t.Read?)
    ensures BufsOk(Apply(s, t)) && Apply(s, t).c == s.c
  {
    var s' := Apply(s, t);
    forall n | n in s'.bufs
      ensures BufOk(s', s'.bufs[n])
    {
      if n in s.bufs { assert BufOk(s, s.bufs[n]); }
    }
  }

  lemma AStepKeeps(s: State, t: AStep)
    requires AInv(s) && Guard(s, t) && Careful(s, t)
    ensures AInv(Apply(s, t))
  {
    match t
    case Base(t) => StepKeeps(s.c, t); BaseBufs(s, t);
    case Note(_, _) => NoteBufs(s, t);
    case Read(_) => NoteBufs(s, t);
    case Publish(id, i) =>
      PublicationCurrentIff(s, id, i);
      PublishKeepsBufs(s, id, i);
    case Lose(i) =>
      LoseKeeps(s.c, i);
      LoseBufs(s, i);
  }

  ghost predicate AMoves(s: State, t: AStep, s': State) { Guard(s, t) && s' == Apply(s, t) }

  ghost predicate ARun(tr: seq<State>, ts: seq<AStep>) {
    && |tr| == |ts| + 1 && Initial(tr[0].c) && tr[0].bufs == map[]
    && forall n :: 0 <= n < |ts| ==> AMoves(tr[n], ts[n], tr[n + 1])
  }

  /**
   * Every interleaving with read-ahead and lost evictions keeps the invariant, as long as only sound blocks are
   * published.
   */
  lemma {:induction false} ARunsKeepInv(tr: seq<State>, ts: seq<AStep>, n: nat)
    requires ARun(tr, ts) && n < |tr| && forall k :: 0 <= k < n ==> Careful(tr[k], ts[k])
    ensures AInv(tr[n])
    decreases n
  {
    if n == 0 {
      InitialFits(tr[0].c);
    } else {
      ARunsKeepInv(tr, ts, n - 1);
      assert AMoves(tr[n - 1], ts[n - 1], tr[n - 1 + 1]) && Careful(tr[n - 1], ts[n - 1]);
      AStepKeeps(tr[n - 1], ts[n - 1]);
    }
  }

  lemma InitialFits(c: Cache)
    requires Initial(c)
    ensures Inv(c)
  {
    var tr := [c];
    assert IsRun(tr, []);
    RunsKeepInv(tr, [], 0);
  }

  lemma BufStays(s: State, t: AStep, id: nat)
    requires Guard(s, t) && id in s.bufs && s.bufs[id].data.Some? && t != Publish(id, if t.Publish? then t.slot else 0)
    ensures id in Apply(s, t).bufs && Apply(s, t).bufs[id] == s.bufs[id].(lost := Apply(s, t).bufs[id].lost)
  {
  }

  /** Until it is published, a block read ahead stays as it was read. */
  lemma {:induction false} ReadStays(tr: seq<State>, ts: seq<AStep>, m: nat, n: nat, id: nat)
    requires ARun(tr, ts) && m < n < |tr| && ts[m] == Read(id)
    requires forall j :: m < j < n && ts[j].Publish? ==> ts[j].id != id
    ensures id in tr[m].bufs && id in tr[n].bufs && tr[n].bufs[id].key == tr[m].bufs[id].key
    ensures tr[n].bufs[id].data == Some(Get(tr[m].c.medium, tr[n].bufs[id].key))
    ensures tr[n].bufs[id].sound <==> Owed(tr[m].c, tr[n].bufs[id].key)
    decreases n
  {
    assert AMoves(tr[n - 1], ts[n - 1], tr[n - 1 + 1]);
    if m < n - 1 {
      ReadStays(tr, ts, m, n - 1, id);
      BufStays(tr[n - 1], ts[n - 1], id);
    }
  }

  /**
   * In every run so far careful, a block read ahead by step `m` and published by step `n`, not lost between, is current
   * exactly if no slot held it dirty with other bytes than the device's when it was read.
   */
  lemma CurrentIff(tr: seq<State>, ts: seq<AStep>, m: nat, n: nat, id: nat, i: nat)
    requires ARun(tr, ts) && m < n < |ts| && ts[m] == Read(id) && ts[n] == Publish(id, i)
    requires forall j :: m < j < n && ts[j].Publish? ==> ts[j].id != id
    requires forall j :: 0 <= j < n ==> Careful(tr[j], ts[j])
    requires id in tr[n].bufs ==> !tr[n].bufs[id].lost
    ensures id in tr[n].bufs && i < |tr[n + 1].c.slots|
    ensures tr[n + 1].c.slots[i].data == Get(tr[n + 1].c.logical, tr[n].bufs[id].key) <==>
            !HeldDirty(tr[m].c, tr[n].bufs[id].key)
  {
    ARunsKeepInv(tr, ts, m);
    ARunsKeepInv(tr, ts, n);
    ReadStays(tr, ts, m, n, id);
    assert AMoves(tr[n], ts[n], tr[n + 1]);
    OwedIff(tr[m].c, tr[n].bufs[id].key);
    PublicationCurrentIff(tr[n], id, i);
  }

  /**
   * The first publication that is not careful, with nothing lost, breaks the promise: the slot it fills gives readers
   * older bytes than the last written.
   */
  lemma FirstStale(tr: seq<State>, ts: seq<AStep>, n: nat)
    requires ARun(tr, ts) && n < |ts| && ts[n].Publish? && forall k :: 0 <= k < n ==> Careful(tr[k], ts[k])
    requires ts[n].id in tr[n].bufs && !tr[n].bufs[ts[n].id].lost && !tr[n].bufs[ts[n].id].sound
    ensures var i, k := ts[n].slot, tr[n].bufs[ts[n].id].key;
            Finds(tr[n + 1].c, k, i) && !tr[n + 1].c.slots[i].busy
                && tr[n + 1].c.slots[i].data != Get(tr[n + 1].c.logical, k)
  {
    ARunsKeepInv(tr, ts, n);
    assert AMoves(tr[n], ts[n], tr[n + 1]);
    PublicationCurrentIff(tr[n], ts[n].id, ts[n].slot);
  }

  /** With only careful publications, a hit is the last bytes written and kept, whatever was read ahead or lost. */
  lemma HitsStayCurrent(tr: seq<State>, ts: seq<AStep>, n: nat, k: Key, i: nat)
    requires ARun(tr, ts) && n < |tr| && forall j :: 0 <= j < n ==> Careful(tr[j], ts[j])
    requires Finds(tr[n].c, k, i) && !tr[n].c.slots[i].busy
    ensures tr[n].c.slots[i].data == Get(tr[n].c.logical, k)
  {
    ARunsKeepInv(tr, ts, n);
    assert FlagsOk(tr[n].c.slots[i]) && SlotFresh(tr[n].c, tr[n].c.slots[i]);
  }

  /**
   * A device is behind on a block exactly while a slot holds it dirty with other bytes: never on an absent or clean
   * one.
   */
  lemma BehindIffDirty(tr: seq<State>, ts: seq<AStep>, n: nat, k: Key)
    requires ARun(tr, ts) && n < |tr| && forall j :: 0 <= j < n ==> Careful(tr[j], ts[j])
    ensures Owed(tr[n].c, k) <==> !HeldDirty(tr[n].c, k)
  {
    ARunsKeepInv(tr, ts, n);
    OwedIff(tr[n].c, k);
  }

  /** DIRTY goes only once exactly the slot's bytes are on the device, or with the eviction that loses them. */
  lemma DirtyGoes(tr: seq<State>, ts: seq<AStep>, n: nat, i: nat)
    requires ARun(tr, ts) && n < |ts| && forall j :: 0 <= j < n ==> Careful(tr[j], ts[j])
    requires i < |tr[n].c.slots| && tr[n].c.slots[i].dirty && i < |tr[n + 1].c.slots| && !tr[n + 1].c.slots[i].dirty
    ensures || ts[n] == Lose(i)
            || (ts[n].Base? && ts[n].t.WriteEnd?
                && Get(tr[n + 1].c.medium, tr[n].c.slots[i].key) == tr[n].c.slots[i].data)
  {
    ARunsKeepInv(tr, ts, n);
    assert AMoves(tr[n], ts[n], tr[n + 1]) && FlagsOk(tr[n].c.slots[i]);
    if ts[n].Base? { StepCleans(tr[n].c, ts[n].t, i); }
  }

  /** What readers of a block are owed changes only with a write to it, or to what the device has when it is lost. */
  lemma OwedChanges(tr: seq<State>, ts: seq<AStep>, n: nat, k: Key)
    requires ARun(tr, ts) && n < |ts| && Get(tr[n + 1].c.logical, k) != Get(tr[n].c.logical, k)
    ensures || (ts[n].Base? && WritesTo(tr[n].c, ts[n].t) == Some(k) && Get(tr[n + 1].c.logical, k) == ts[n].t.data)
            || (ts[n].Lose? && ts[n].slot < |tr[n].c.slots| && tr[n].c.slots[ts[n].slot].key == k
                && Owed(tr[n + 1].c, k))
  {
    assert AMoves(tr[n], ts[n], tr[n + 1]);
    if ts[n].Base? && WritesTo(tr[n].c, ts[n].t) != Some(k) { OwedStays(tr[n].c, ts[n].t, k); }
  }

  // ---- a stale publication --------------------------------------------------

  /** Two blocks of a device, and the bytes of the second before and after a write. */
  datatype Scene = Scene(asked: Key, next: Key, was: Block, now: Block)

  predicate SceneOk(z: Scene) { z.asked != z.next && z.was != z.now }

  /** Two slots in a single bucket, over a device. */
  function Two(z: Scene, a: Slot, b: Slot, chain: seq<nat>, medium: Block, ops: map<nat, Op>, owed: Block): Cache {
    Cache([a, b], [chain], map[z.next := medium], ops, map[z.next := owed])
  }

  function Empty(z: Scene): Slot { Slot(z.asked, false, false, false, false, []) }

  function Filling(z: Scene): Slot { Slot(z.asked, false, false, true, true, []) }

  function Arrived(z: Scene): Slot { Slot(z.asked, true, false, false, true, []) }

  function Next(z: Scene, dirty: bool, busy: bool): Slot { Slot(z.next, true, dirty, busy, true, z.now) }

  function Recycled(z: Scene): Slot { Slot(z.next, false, false, false, false, z.now) }

  function Older(z: Scene): Slot { Slot(z.next, true, false, false, true, z.was) }

  function Noted(z: Scene, data: Option<Block>): map<nat, Ahead> { map[9 := Ahead(z.next, 1, data, false, false)] }

  function Once(z: Scene): map<nat, nat> { map[z.next.dev := 1] }

  /** While `asked` is being filled: whether it has been read, slot 0, the device's bytes and a write in flight. */
  function During(z: Scene, got: bool, a: Slot, medium: Block, writes: map<nat, Op>, bufs: map<nat, Ahead>): State {
    State(Two(z, a, Filling(z), [1, 0], medium, map[1 := Fill(1, got)] + writes, z.now), bufs, Once(z))
  }

  function Writing(z: Scene, landed: bool): map<nat, Op> { map[2 := Write([0], [z.now], landed)] }

  function StaleSteps(z: Scene): seq<AStep> {
    [Base(PutNew(0, z.next, z.now)), Base(FillStart(1, 1, z.asked)), Note(9, z.next), Base(FillRead(1)), Read(9),
     Base(WriteStart(2, [0])), Base(WriteLand(2)), Base(WriteEnd(2)), Base(FillEnd(1)), Base(Evict(0)), Publish(9, 0)]
  }

  /**
   * `next` is written, then read ahead with `asked`; its write-back lands and its slot is recycled before it is
   * published.
   */
  function StaleStates(z: Scene): seq<State> {
    [State(Two(z, Empty(z), Empty(z), [], z.was, map[], z.was), map[], map[]),
     State(Two(z, Next(z, true, false), Empty(z), [0], z.was, map[], z.now), map[], Once(z)),
     During(z, false, Next(z, true, false), z.was, map[], map[]),
     During(z, false, Next(z, true, false), z.was, map[], Noted(z, None)),
     During(z, true, Next(z, true, false), z.was, map[], Noted(z, None)),
     During(z, true, Next(z, true, false), z.was, map[], Noted(z, Some(z.was))),
     During(z, true, Next(z, true, true), z.was, Writing(z, false), Noted(z, Some(z.was))),
     During(z, true, Next(z, true, true), z.now, Writing(z, true), Noted(z, Some(z.was))),
     During(z, true, Next(z, false, false), z.now, map[], Noted(z, Some(z.was))),
     State(Two(z, Next(z, false, false), Arrived(z), [1, 0], z.now, map[], z.now), Noted(z, Some(z.was)), Once(z)),
     State(Two(z, Recycled(z), Arrived(z), [1], z.now, map[], z.now), Noted(z, Some(z.was)), Once(z)),
     State(Two(z, Older(z), Arrived(z), [0, 1], z.now, map[], z.now), map[], Once(z))]
  }

  lemma Inserted(chain: seq<nat>, i: nat, k: Key)
    ensures Insert([chain], i, k) == [[i] + chain]
  {
  }

  lemma Written(z: Scene)
    requires SceneOk(z)
    ensures AMoves(State(Two(z, Empty(z), Empty(z), [], z.was, map[], z.was), map[], map[]),
                   Base(PutNew(0, z.next, z.now)),
                   State(Two(z, Next(z, true, false), Empty(z), [0], z.was, map[], z.now), map[], Once(z)))
  {
    Inserted([], 0, z.next);
    assert [0] + [] == [0];
    assert [Empty(z), Empty(z)][0 := Next(z, true, false)] == [Next(z, true, false), Empty(z)];
    assert map[z.next := z.was][z.next := z.now] == map[z.next := z.now];
    assert Counted(map[], Some(z.next)) == Once(z);
  }

  lemma Asked(z: Scene)
    requires SceneOk(z)
    ensures AMoves(State(Two(z, Next(z, true, false), Empty(z), [0], z.was, map[], z.now), map[], Once(z)),
                   Base(FillStart(1, 1, z.asked)),
                   During(z, false, Next(z, true, false), z.was, map[], map[]))
  {
    Inserted([0], 1, z.asked);
    assert [1] + [0] == [1, 0];
    assert [Next(z, true, false), Empty(z)][1 := Filling(z)] == [Next(z, true, false), Filling(z)];
    assert map[][1 := Fill(1, false)] == map[1 := Fill(1, false)] + map[];
  }

  lemma AheadNoted(z: Scene, a: Slot)
    requires SceneOk(z) && a == Next(z, true, false)
    ensures AMoves(During(z, false, a, z.was, map[], map[]), Note(9, z.next),
                   During(z, false, a, z.was, map[], Noted(z, None)))
  {
  }

  lemma AskedRead(z: Scene, a: Slot)
    requires SceneOk(z) && a == Next(z, true, false)
    ensures AMoves(During(z, false, a, z.was, map[], Noted(z, None)), Base(FillRead(1)),
                   During(z, true, a, z.was, map[], Noted(z, None)))
  {
  }

  lemma AheadRead(z: Scene, a: Slot)
    requires SceneOk(z) && a == Next(z, true, false)
    ensures AMoves(During(z, true, a, z.was, map[], Noted(z, None)), Read(9),
                   During(z, true, a, z.was, map[], Noted(z, Some(z.was))))
  {
  }

  lemma WriteBegun(z: Scene, bufs: map<nat, Ahead>)
    requires SceneOk(z)
    ensures AMoves(During(z, true, Next(z, true, false), z.was, map[], bufs), Base(WriteStart(2, [0])),
                   During(z, true, Next(z, true, true), z.was, Writing(z, false), bufs))
  {
    var slots := [Next(z, true, false), Filling(z)];
    assert Copies(slots, [0]) == [z.now];
    assert Claimed(slots, [0], true, false) == [Next(z, true, true), Filling(z)];
    assert (map[1 := Fill(1, true)] + map[])[2 := Write([0], [z.now], false)] == map[1 := Fill(1, true)]
           + Writing(z, false);
  }

  lemma WriteLanded(z: Scene, bufs: map<nat, Ahead>)
    requires SceneOk(z)
    ensures AMoves(During(z, true, Next(z, true, true), z.was, Writing(z, false), bufs), Base(WriteLand(2)),
                   During(z, true, Next(z, true, true), z.now, Writing(z, true), bufs))
  {
    var slots := [Next(z, true, true), Filling(z)];
    assert Landed(map[z.next := z.was], slots, [0], [z.now], 1) == map[z.next := z.now];
    assert (map[1 := Fill(1, true)] + Writing(z, false))[2 := Write([0], [z.now], true)] == map[1 := Fill(1, true)]
           + Writing(z, true);
  }

  lemma WrittenBack(z: Scene, bufs: map<nat, Ahead>)
    requires SceneOk(z)
    ensures AMoves(During(z, true, Next(z, true, true), z.now, Writing(z, true), bufs), Base(WriteEnd(2)),
                   During(z, true, Next(z, false, false), z.now, map[], bufs))
  {
    assert Claimed([Next(z, true, true), Filling(z)], [0], false, true) == [Next(z, false, false), Filling(z)];
    assert map[1 := Fill(1, true)] + Writing(z, true) - {2} == map[1 := Fill(1, true)] + map[];
  }

  lemma Ended(z: Scene, bufs: map<nat, Ahead>)
    requires SceneOk(z)
    ensures AMoves(During(z, true, Next(z, false, false), z.now, map[], bufs), Base(FillEnd(1)),
                   State(Two(z, Next(z, false, false), Arrived(z), [1, 0], z.now, map[], z.now), bufs, Once(z)))
  {
  }

  lemma Evicted(z: Scene, bufs: map<nat, Ahead>)
    requires SceneOk(z)
    ensures AMoves(State(Two(z, Next(z, false, false), Arrived(z), [1, 0], z.now, map[], z.now), bufs, Once(z)),
                   Base(Evict(0)),
                   State(Two(z, Recycled(z), Arrived(z), [1], z.now, map[], z.now), bufs, Once(z)))
  {
    assert [1, 0][1..] == [0];
    assert WithoutSlot([0], 0) == [];
    assert WithoutSlot([1, 0], 0) == [1];
  }

  lemma PublishedOlder(z: Scene)
    requires SceneOk(z)
    ensures AMoves(State(Two(z, Recycled(z), Arrived(z), [1], z.now, map[], z.now), Noted(z, Some(z.was)), Once(z)),
                   Publish(9, 0),
                   State(Two(z, Older(z), Arrived(z), [0, 1], z.now, map[], z.now), map[], Once(z)))
  {
    Inserted([1], 0, z.next);
    assert [0] + [1] == [0, 1];
    assert [Recycled(z), Arrived(z)][0 := Older(z)] == [Older(z), Arrived(z)];
    assert Noted(z, Some(z.was)) - {9} == map[];
  }

  lemma Linked<S, T>(moves: (S, T, S) -> bool, tr: seq<S>, ts: seq<T>)
    requires |tr| == 12 && |ts| == 11
    requires moves(tr[0], ts[0], tr[1]) && moves(tr[1], ts[1], tr[2]) && moves(tr[2], ts[2], tr[3])
    requires moves(tr[3], ts[3], tr[4])
    requires moves(tr[4], ts[4], tr[5]) && moves(tr[5], ts[5], tr[6]) && moves(tr[6], ts[6], tr[7])
    requires moves(tr[7], ts[7], tr[8])
    requires moves(tr[8], ts[8], tr[9]) && moves(tr[9], ts[9], tr[10]) && moves(tr[10], ts[10], tr[11])
    ensures forall n :: 0 <= n < |ts| ==> moves(tr[n], ts[n], tr[n + 1])
  {
  }

  ghost predicate Includes(moves: (State, AStep, State) -> bool) {
    forall s, t, s' {:trigger moves(s, t, s')} :: AMoves(s, t, s') ==> moves(s, t, s')
  }

  lemma StaleOpens(z: Scene, moves: (State, AStep, State) -> bool)
    requires SceneOk(z) && Includes(moves)
    ensures var tr, ts := StaleStates(z), StaleSteps(z); moves(tr[0], ts[0], tr[1]) && moves(tr[1], ts[1], tr[2])
  {
    var tr, ts := StaleStates(z), StaleSteps(z);
    assert moves(tr[0], ts[0], tr[1]) by { Written(z); }
    assert moves(tr[1], ts[1], tr[2]) by { Asked(z); }
  }

  lemma StaleReads(z: Scene, moves: (State, AStep, State) -> bool)
    requires SceneOk(z) && Includes(moves)
    ensures var tr, ts := StaleStates(z), StaleSteps(z);
            moves(tr[2], ts[2], tr[3]) && moves(tr[3], ts[3], tr[4]) && moves(tr[4], ts[4], tr[5])
  {
    var tr, ts, a := StaleStates(z), StaleSteps(z), Next(z, true, false);
    assert moves(tr[2], ts[2], tr[3]) by { AheadNoted(z, a); }
    assert moves(tr[3], ts[3], tr[4]) by { AskedRead(z, a); }
    assert moves(tr[4], ts[4], tr[5]) by { AheadRead(z, a); }
  }

  lemma StaleCloses(z: Scene, moves: (State, AStep, State) -> bool)
    requires SceneOk(z) && Includes(moves)
    ensures var tr, ts := StaleStates(z), StaleSteps(z);
            && moves(tr[5], ts[5], tr[6]) && moves(tr[6], ts[6], tr[7]) && moves(tr[7], ts[7], tr[8])
            && moves(tr[8], ts[8], tr[9]) && moves(tr[9], ts[9], tr[10]) && moves(tr[10], ts[10], tr[11])
  {
    var tr, ts, read := StaleStates(z), StaleSteps(z), Noted(z, Some(z.was));
    assert moves(tr[5], ts[5], tr[6]) by { WriteBegun(z, read); }
    assert moves(tr[6], ts[6], tr[7]) by { WriteLanded(z, read); }
    assert moves(tr[7], ts[7], tr[8]) by { WrittenBack(z, read); }
    assert moves(tr[8], ts[8], tr[9]) by { Ended(z, read); }
    assert moves(tr[9], ts[9], tr[10]) by { Evicted(z, read); }
    assert moves(tr[10], ts[10], tr[11]) by { PublishedOlder(z); }
  }

  lemma RunOf(tr: seq<State>, ts: seq<AStep>, moves: (State, AStep, State) -> bool)
    requires |tr| == |ts| + 1 && Initial(tr[0].c) && tr[0].bufs == map[]
    requires forall s, t, s' {:trigger moves(s, t, s')} :: moves(s, t, s') ==> AMoves(s, t, s')
    requires forall n :: 0 <= n < |ts| ==> moves(tr[n], ts[n], tr[n + 1])
    ensures ARun(tr, ts)
  {
    forall n | 0 <= n < |ts| ensures AMoves(tr[n], ts[n], tr[n + 1]) { assert moves(tr[n], ts[n], tr[n + 1]); }
  }

  lemma StaleJoined(z: Scene, moves: (State, AStep, State) -> bool)
    requires SceneOk(z) && Includes(moves)
    ensures forall n :: 0 <= n < 11 ==> moves(StaleStates(z)[n], StaleSteps(z)[n], StaleStates(z)[n + 1])
  {
    StaleOpens(z, moves);
    StaleReads(z, moves);
    StaleCloses(z, moves);
    Linked(moves, StaleStates(z), StaleSteps(z));
  }

  /**
   * The count of writes is not enough: a block dirty when the device is read ahead is published as it was before its
   * last write, once its write-back has landed and its slot has been recycled, though no write was counted meanwhile.
   */
  lemma StaleRun(z: Scene)
    requires SceneOk(z)
    ensures var tr, ts := StaleStates(z), StaleSteps(z);
            && ARun(tr, ts) && (forall n :: 0 <= n < 10 ==> Careful(tr[n], ts[n]))
            && Finds(tr[11].c, z.next, 0) && !tr[11].c.slots[0].busy && tr[11].c.slots[0].data == z.was
            && Get(tr[11].c.logical, z.next) == Get(tr[11].c.medium, z.next) == z.now
  {
    assert ARun(StaleStates(z), StaleSteps(z)) by {
      var moves := (s, t, s') => AMoves(s, t, s');
      StaleJoined(z, moves);
      RunOf(StaleStates(z), StaleSteps(z), moves);
    }
  }
}
