/**
 * A program and the rings it reserves from, together: the records a run holds are the ring records it has left BUSY,
 * and a run that ends leaves none. Other programs, commits and readers move the rings in between as they like.
 */
module BpfRing {
  import opened Words
  import opened Memory
  import opened BpfInsn
  import opened BpfVerifier
  import opened BpfMachine
  import opened BpfWellFormed
  import opened BpfSoundness
  import opened BpfSafety
  import Ring
  import Steps = RingSteps

  // ---- a ring between two of the program's moves ----------------------------

  /** The ring has the record at `pos`, for `len` bytes, still being written. */
  ghost predicate BusyAt(s: Steps.State, pos: nat, len: nat) { Ring.Rec(pos, len, true, false) in s.recs }

  ghost predicate BusyPos(s: Steps.State, pos: nat) { exists len: nat :: BusyAt(s, pos, len) }

  /** What is left of what was: nothing before `s.prod` is new, and nothing finished is busy again. */
  ghost predicate OnlyFinishes(s: Steps.State, s': Steps.State) {
    forall pos: nat, len: nat :: pos < s.prod && BusyAt(s', pos, len) ==> BusyAt(s, pos, len)
  }

  /** From `s` to `s'` others reserved, committed and read, but committed none of the records at `mine`. */
  ghost predicate Evolves(s: Steps.State, s': Steps.State, mine: set<nat>) {
    && Steps.Inv(s') && s'.size == s.size && s.prod <= s'.prod
    && (forall pos: nat, len: nat :: pos in mine && BusyAt(s, pos, len) ==> BusyAt(s', pos, len))
    && OnlyFinishes(s, s')
  }

  lemma BusyBelow(s: Steps.State, pos: nat, len: nat)
    requires Steps.Inv(s) && BusyAt(s, pos, len)
    ensures s.size > 0 && pos < s.prod && Ring.Off(pos, s.size) + Ring.HEADER + len <= s.size
  {
    var i :| 0 <= i < |s.recs| && s.recs[i] == Ring.Rec(pos, len, true, false);
    Ring.TilesOrder(s.recs, s.cons, s.prod, i);
    assert Ring.RecOk(s.size, s.recs[i]);
  }

  lemma EvolvesSame(s: Steps.State, s': Steps.State, mine: set<nat>)
    requires Steps.Inv(s) && Steps.Inv(s') && s'.size == s.size && s'.prod == s.prod && s'.recs == s.recs
    ensures Evolves(s, s', mine)
  {
  }

  lemma EvolvesPublish(s: Steps.State, mine: set<nat>)
    requires Steps.Inv(s) && Steps.Guard(s, Steps.Publish)
    ensures Evolves(s, Steps.Apply(s, Steps.Publish), mine)
  {
    Steps.PublishKeeps(s);
  }

  lemma EvolvesFinish(s: Steps.State, i: nat, discard: bool, mine: set<nat>)
    requires Steps.Inv(s) && Steps.Guard(s, Steps.Finish(i, discard)) && s.recs[i].pos !in mine
    ensures Evolves(s, Steps.Apply(s, Steps.Finish(i, discard)), mine)
  {
    Steps.FinishKeeps(s, i, discard);
    var s' := Steps.Apply(s, Steps.Finish(i, discard));
    forall pos, len | pos in mine && BusyAt(s, pos, len)
      ensures BusyAt(s', pos, len)
    {
      var j :| 0 <= j < |s.recs| && s.recs[j] == Ring.Rec(pos, len, true, false);
      assert s'.recs[j] == s.recs[j];
    }
  }

  lemma EvolvesPass(s: Steps.State, mine: set<nat>)
    requires Steps.Inv(s) && Steps.Guard(s, Steps.Pass)
    ensures Evolves(s, Steps.Apply(s, Steps.Pass), mine)
  {
    Steps.PassKeeps(s);
    var s' := Steps.Apply(s, Steps.Pass);
    forall pos, len | BusyAt(s, pos, len)
      ensures BusyAt(s', pos, len)
    {
      var j :| 0 <= j < |s.recs| && s.recs[j] == Ring.Rec(pos, len, true, false);
      assert s'.recs[j - 1] == s.recs[j];
    }
  }

  /** A step of the ring but a commit of one of ours. */
  predicate Theirs(s: Steps.State, t: Steps.Step, mine: set<nat>) {
    Steps.Guard(s, t) && (t.Finish? ==> s.recs[t.i].pos !in mine)
  }

  /** Every such step is such a move. */
  lemma StepEvolves(s: Steps.State, t: Steps.Step, mine: set<nat>)
    requires Steps.Inv(s) && Theirs(s, t, mine)
    ensures Evolves(s, Steps.Apply(s, t), mine)
  {
    Steps.StepKeeps(s, t);
    match t
    case Publish => EvolvesPublish(s, mine);
    case Finish(i, discard) => EvolvesFinish(s, i, discard, mine);
    case Pass => EvolvesPass(s, mine);
    case _ => EvolvesSame(s, Steps.Apply(s, t), mine);
  }

  /** And so is any number of them, one after another. */
  lemma {:induction false} OthersEvolve(tr: seq<Steps.State>, ts: seq<Steps.Step>, mine: set<nat>, k: nat)
    requires |tr| == |ts| + 1 && k < |tr| && Steps.Inv(tr[0])
    requires forall n :: 0 <= n < |ts| ==> Theirs(tr[n], ts[n], mine) && tr[n + 1] == Steps.Apply(tr[n], ts[n])
    ensures Evolves(tr[0], tr[k], mine)
    decreases k
  {
    if k == 0 {
      EvolvesSame(tr[0], tr[0], mine);
    } else {
      OthersEvolve(tr, ts, mine, k - 1);
      assert tr[k - 1 + 1] == Steps.Apply(tr[k - 1], ts[k - 1]);
      StepEvolves(tr[k - 1], ts[k - 1], mine);
    }
  }

  // ---- the rings and the program --------------------------------------------

  /** A ring whose data lies at `base`. */
  datatype Placed = Placed(base: u64, s: Steps.State)

  /**
   * The rings of the program's maps, which ring record each reservation held is, and every record this run has made.
   */
  datatype Joint = Joint(rings: map<nat, Placed>, own: map<nat, (nat, nat)>, made: set<(nat, nat)>)

  function Mine(own: map<nat, (nat, nat)>, k: nat): set<nat> { set ref | ref in own && own[ref].0 == k :: own[ref].1 }

  /** Where a record's data lies. */
  function DataAt(r: Placed, pos: nat): int
    requires r.s.size > 0
  {
    r.base + Ring.Off(pos, r.s.size) + Ring.HEADER
  }

  ghost predicate RingPlaced(e: Env, r: Placed) {
    Steps.Inv(r.s) && r.base + r.s.size < M64 && OffFrame(e, r.base, r.s.size)
  }

  predicate RingsApart(a: Placed, b: Placed) { a.base + a.s.size <= b.base || b.base + b.s.size <= a.base }

  ghost predicate AllPlaced(e: Env, rings: map<nat, Placed>) {
    && (forall k :: k in rings ==> RingPlaced(e, rings[k]))
    && (forall k, l :: k in rings && l in rings && k != l ==> RingsApart(rings[k], rings[l]))
  }

  /** Reservation `ref` is the busy record at own[ref], and its data is where the program was told. */
  ghost predicate OwnsOne(rings: map<nat, Placed>, live: map<nat, Rec>, own: map<nat, (nat, nat)>, ref: nat)
    requires ref in own && ref in live
  {
    var (k, pos) := own[ref];
    k in rings && rings[k].s.size > 0 && BusyAt(rings[k].s, pos, live[ref].size)
        && live[ref].addr == DataAt(rings[k], pos)
  }

  ghost predicate Owns(rings: map<nat, Placed>, live: map<nat, Rec>, own: map<nat, (nat, nat)>) {
    && own.Keys == live.Keys
    && (forall ref :: ref in own ==> OwnsOne(rings, live, own, ref))
    && (forall r1, r2 :: r1 in own && r2 in own && r1 != r2 ==> own[r1] != own[r2])
  }

  ghost predicate Held(own: map<nat, (nat, nat)>, at: (nat, nat)) { exists ref :: ref in own && own[ref] == at }

  ghost predicate SettledOne(rings: map<nat, Placed>, own: map<nat, (nat, nat)>, k: nat, pos: nat) {
    k in rings && pos < rings[k].s.prod && (Held(own, (k, pos)) || !BusyPos(rings[k].s, pos))
  }

  /** Of the records this run made, those it no longer holds are not busy. */
  ghost predicate Settled(w: Joint) { forall k, pos :: (k, pos) in w.made ==> SettledOne(w.rings, w.own, k, pos) }

  ghost predicate JointInv(e: Env, live: map<nat, Rec>, w: Joint) {
    AllPlaced(e, w.rings) && Owns(w.rings, live, w.own) && Settled(w)
  }

  // ---- others move ----------------------------------------------------------

  ghost predicate OthersMove(rings: map<nat, Placed>, rings': map<nat, Placed>, own: map<nat, (nat, nat)>) {
    && rings'.Keys == rings.Keys
    && forall k :: k in rings ==> rings'[k].base == rings[k].base && Evolves(rings[k].s, rings'[k].s, Mine(own, k))
  }

  lemma OwnsStays(rings: map<nat, Placed>, rings': map<nat, Placed>, live: map<nat, Rec>, own: map<nat, (nat, nat)>,
                  ref: nat)
    requires OthersMove(rings, rings', own) && ref in own && ref in live && OwnsOne(rings, live, own, ref)
    ensures OwnsOne(rings', live, own, ref)
  {
    var (k, pos) := own[ref];
    assert pos in Mine(own, k);
    assert BusyAt(rings'[k].s, pos, live[ref].size);
  }

  lemma SettledStays(rings: map<nat, Placed>, rings': map<nat, Placed>, own: map<nat, (nat, nat)>, k: nat, pos: nat)
    requires OthersMove(rings, rings', own) && SettledOne(rings, own, k, pos)
    ensures SettledOne(rings', own, k, pos)
  {
    if BusyPos(rings'[k].s, pos) {
      var len: nat :| BusyAt(rings'[k].s, pos, len);
      assert BusyAt(rings[k].s, pos, len);
    }
  }

  /** One ring moves, the others stay as they are. */
  lemma OneMoves(e: Env, rings: map<nat, Placed>, own: map<nat, (nat, nat)>, k: nat, s': Steps.State)
    requires AllPlaced(e, rings) && k in rings && Evolves(rings[k].s, s', Mine(own, k))
    ensures OthersMove(rings, rings[k := rings[k].(s := s')], own) && AllPlaced(e, rings[k := rings[k].(s := s')])
  {
    var rings' := rings[k := rings[k].(s := s')];
    forall l | l in rings
      ensures Evolves(rings[l].s, rings'[l].s, Mine(own, l))
    {
      assert RingPlaced(e, rings[l]);
      if l != k { EvolvesSame(rings[l].s, rings[l].s, Mine(own, l)); }
    }
    StillPlaced(e, rings, k, s');
  }

  lemma StillPlaced(e: Env, rings: map<nat, Placed>, k: nat, s': Steps.State)
    requires AllPlaced(e, rings) && k in rings && Steps.Inv(s') && s'.size == rings[k].s.size
    ensures AllPlaced(e, rings[k := rings[k].(s := s')])
  {
    var rings' := rings[k := rings[k].(s := s')];
    forall l | l in rings'
      ensures RingPlaced(e, rings'[l])
    {
      assert RingPlaced(e, rings[l]);
    }
  }

  lemma OthersPlaced(e: Env, rings: map<nat, Placed>, rings': map<nat, Placed>, own: map<nat, (nat, nat)>)
    requires AllPlaced(e, rings) && OthersMove(rings, rings', own)
    ensures AllPlaced(e, rings')
  {
    forall l | l in rings'
      ensures RingPlaced(e, rings'[l])
    {
      assert RingPlaced(e, rings[l]) && Evolves(rings[l].s, rings'[l].s, Mine(own, l));
    }
  }

  lemma OthersKeep(e: Env, live: map<nat, Rec>, w: Joint, rings': map<nat, Placed>)
    requires JointInv(e, live, w) && OthersMove(w.rings, rings', w.own)
    ensures JointInv(e, live, w.(rings := rings'))
  {
    OthersPlaced(e, w.rings, rings', w.own);
    forall ref | ref in w.own
      ensures OwnsOne(rings', live, w.own, ref)
    {
      OwnsStays(w.rings, rings', live, w.own, ref);
    }
    forall k, pos | (k, pos) in w.made
      ensures SettledOne(rings', w.own, k, pos)
    {
      SettledStays(w.rings, rings', w.own, k, pos);
    }
  }

  // ---- addresses tell records apart -----------------------------------------

  lemma SameRecord(s: Steps.State, pos: nat, len: nat, pos': nat, len': nat)
    requires Steps.Inv(s) && BusyAt(s, pos, len) && BusyAt(s, pos', len') && s.size > 0
    requires Ring.Off(pos, s.size) == Ring.Off(pos', s.size)
    ensures pos == pos' && len == len'
  {
    var i :| 0 <= i < |s.recs| && s.recs[i] == Ring.Rec(pos, len, true, false);
    var j :| 0 <= j < |s.recs| && s.recs[j] == Ring.Rec(pos', len', true, false);
    if i < j { Ring.RecordsApart(s.size, s.cons, s.prod, s.words, s.recs, i, j); }
    if j < i { Ring.RecordsApart(s.size, s.cons, s.prod, s.words, s.recs, j, i); }
  }

  /** Two busy records with their data at the same address are the same record of the same ring. */
  lemma SameData(e: Env, rings: map<nat, Placed>, k: nat, pos: nat, len: nat, l: nat, pos': nat, len': nat)
    requires AllPlaced(e, rings) && k in rings && l in rings && rings[k].s.size > 0 && rings[l].s.size > 0
    requires BusyAt(rings[k].s, pos, len) && BusyAt(rings[l].s, pos', len')
    requires DataAt(rings[k], pos) == DataAt(rings[l], pos')
    ensures k == l && pos == pos' && len == len'
  {
    BusyBelow(rings[k].s, pos, len);
    BusyBelow(rings[l].s, pos', len');
    if k == l { SameRecord(rings[k].s, pos, len, pos', len'); }
  }

  // ---- a reservation --------------------------------------------------------

  /** Ring `k` publishes the record of `n` bytes this call reserves. */
  ghost predicate Reserving(r: Placed, n: nat) {
    Steps.Guard(r.s, Steps.Publish) && r.s.phase.n == n
  }

  function NewPos(r: Placed): nat
    requires !r.s.phase.Free?
  {
    r.s.prod + r.s.phase.pad
  }

  ghost function Published(rings: map<nat, Placed>, k: nat): map<nat, Placed>
    requires k in rings && Steps.Guard(rings[k].s, Steps.Publish)
  {
    rings[k := rings[k].(s := Steps.Apply(rings[k].s, Steps.Publish))]
  }

  lemma PublishedBusy(s: Steps.State)
    requires Steps.Guard(s, Steps.Publish)
    ensures BusyAt(Steps.Apply(s, Steps.Publish), s.prod + s.phase.pad, s.phase.n)
  {
    var recs := Steps.Apply(s, Steps.Publish).recs;
    assert recs[|recs| - 1] == Ring.Rec(s.prod + s.phase.pad, s.phase.n, true, false);
  }

  /** What a reservation does to rings and books. */
  ghost predicate Reserves(w: Joint, w': Joint, k: nat, n: nat, name: nat, addr: u64) {
    && k in w.rings && Reserving(w.rings[k], n)
    && w'.rings == Published(w.rings, k) && addr == DataAt(w.rings[k], NewPos(w.rings[k]))
    && w'.own == w.own[name := (k, NewPos(w.rings[k]))] && w'.made == w.made + {(k, NewPos(w.rings[k]))}
  }

  /** The same, with the ring's own step left out: it evolved, and the record is in it, behind all that was. */
  ghost predicate Adds(w: Joint, w': Joint, k: nat, pos: nat, n: nat, name: nat, addr: u64) {
    && k in w.rings && k in w'.rings && w'.rings == w.rings[k := w'.rings[k]] && w'.rings[k].base == w.rings[k].base
    && Evolves(w.rings[k].s, w'.rings[k].s, Mine(w.own, k)) && w.rings[k].s.prod <= pos
    && w.rings[k].s.size > 0 && BusyAt(w'.rings[k].s, pos, n) && addr == DataAt(w.rings[k], pos)
    && w'.own == w.own[name := (k, pos)] && w'.made == w.made + {(k, pos)}
  }

  lemma ReservesAdds(e: Env, w: Joint, w': Joint, k: nat, n: nat, name: nat, addr: u64)
    requires AllPlaced(e, w.rings) && Reserves(w, w', k, n, name, addr)
    ensures Adds(w, w', k, NewPos(w.rings[k]), n, name, addr)
  {
    assert RingPlaced(e, w.rings[k]);
    var s' := PublishFacts(w.rings[k].s, Mine(w.own, k));
    AddsIs(w, w', k, NewPos(w.rings[k]), n, name, addr, s');
  }

  lemma PublishFacts(s: Steps.State, mine: set<nat>) returns (s': Steps.State)
    requires Steps.Inv(s) && Steps.Guard(s, Steps.Publish)
    ensures s' == Steps.Apply(s, Steps.Publish) && Evolves(s, s', mine) && s.size > 0
    ensures BusyAt(s', s.prod + s.phase.pad, s.phase.n)
  {
    s' := Steps.Apply(s, Steps.Publish);
    EvolvesPublish(s, mine);
    PublishedBusy(s);
  }

  lemma AddsIs(w: Joint, w': Joint, k: nat, pos: nat, n: nat, name: nat, addr: u64, s': Steps.State)
    requires k in w.rings && w'.rings == w.rings[k := w.rings[k].(s := s')] && Evolves(w.rings[k].s, s', Mine(w.own, k))
    requires w.rings[k].s.size > 0 && BusyAt(s', pos, n) && addr == DataAt(w.rings[k], pos) && w.rings[k].s.prod <= pos
    requires w'.own == w.own[name := (k, pos)] && w'.made == w.made + {(k, pos)}
    ensures Adds(w, w', k, pos, n, name, addr)
  {
  }

  lemma AddMoves(e: Env, w: Joint, w': Joint, k: nat, pos: nat, n: nat, name: nat, addr: u64)
    requires AllPlaced(e, w.rings) && Adds(w, w', k, pos, n, name, addr)
    ensures OthersMove(w.rings, w'.rings, w.own) && AllPlaced(e, w'.rings)
  {
    OneMoves(e, w.rings, w.own, k, w'.rings[k].s);
    assert w'.rings[k] == w.rings[k].(s := w'.rings[k].s);
  }

  lemma AddOwns(e: Env, live: map<nat, Rec>, w: Joint, w': Joint, k: nat, pos: nat, n: nat, name: nat, addr: u64)
    requires AllPlaced(e, w.rings) && Owns(w.rings, live, w.own) && Adds(w, w', k, pos, n, name, addr) && name !in live
    ensures Owns(w'.rings, live[name := Rec(addr, n)], w'.own)
  {
    AddMoves(e, w, w', k, pos, n, name, addr);
    CommitOwns(w.rings, w'.rings, live, w.own);
    forall ref | ref in w.own
      ensures w.own[ref] != (k, pos)
    {
      OldBelow(w.rings, live, w.own, ref);
    }
    OneMore(w'.rings, live, w.own, name, (k, pos), Rec(addr, n));
  }

  lemma OneMore(rings: map<nat, Placed>, live: map<nat, Rec>, own: map<nat, (nat, nat)>, name: nat, at: (nat, nat),
                r: Rec)
    requires Owns(rings, live, own) && name !in live && forall ref :: ref in own ==> own[ref] != at
    requires at.0 in rings && rings[at.0].s.size > 0 && BusyAt(rings[at.0].s, at.1, r.size)
    requires r.addr == DataAt(rings[at.0], at.1)
    ensures Owns(rings, live[name := r], own[name := at])
  {
    var own', live' := own[name := at], live[name := r];
    forall ref | ref in own'
      ensures OwnsOne(rings, live', own', ref)
    {
      if ref != name { assert OwnsOne(rings, live, own, ref); }
    }
  }

  lemma AddKeeps(e: Env, live: map<nat, Rec>, w: Joint, w': Joint, k: nat, pos: nat, n: nat, name: nat, addr: u64)
    requires JointInv(e, live, w) && Adds(w, w', k, pos, n, name, addr) && name !in live
    ensures JointInv(e, live[name := Rec(addr, n)], w')
  {
    AddMoves(e, w, w', k, pos, n, name, addr);
    AddOwns(e, live, w, w', k, pos, n, name, addr);
    AddSettles(e, w, w', k, pos, n, name, addr);
  }

  lemma ReserveKeeps(e: Env, live: map<nat, Rec>, w: Joint, w': Joint, k: nat, n: nat, name: nat, addr: u64)
    requires JointInv(e, live, w) && Reserves(w, w', k, n, name, addr) && name !in live
    ensures JointInv(e, live[name := Rec(addr, n)], w')
  {
    ReservesAdds(e, w, w', k, n, name, addr);
    AddKeeps(e, live, w, w', k, NewPos(w.rings[k]), n, name, addr);
  }

  lemma OldBelow(rings: map<nat, Placed>, live: map<nat, Rec>, own: map<nat, (nat, nat)>, ref: nat)
    requires ref in own && ref in live && OwnsOne(rings, live, own, ref) && Steps.Inv(rings[own[ref].0].s)
    ensures own[ref].1 < rings[own[ref].0].s.prod
  {
    BusyBelow(rings[own[ref].0].s, own[ref].1, live[ref].size);
  }

  lemma AddSettles(e: Env, w: Joint, w': Joint, k: nat, pos: nat, n: nat, name: nat, addr: u64)
    requires AllPlaced(e, w.rings) && Settled(w) && Adds(w, w', k, pos, n, name, addr) && name !in w.own
    ensures Settled(w')
  {
    AddMoves(e, w, w', k, pos, n, name, addr);
    forall l, at | (l, at) in w'.made
      ensures SettledOne(w'.rings, w'.own, l, at)
    {
      if (l, at) == (k, pos) {
        BusyBelow(w'.rings[k].s, pos, n);
        assert w'.own[name] == (l, at);
        assert Held(w'.own, (l, at));
      } else {
        assert (l, at) in w.made;
        SettledStays(w.rings, w'.rings, w.own, l, at);
        StillHeld(w.own, name, (k, pos), (l, at));
      }
    }
  }

  lemma StillHeld(own: map<nat, (nat, nat)>, name: nat, at: (nat, nat), x: (nat, nat))
    requires name !in own
    ensures Held(own, x) ==> Held(own[name := at], x)
  {
    if Held(own, x) {
      var ref :| ref in own && own[ref] == x;
      assert own[name := at][ref] == x;
    }
  }

  /** The ring's record is fresh: what the safety of runs asks of ringbuf_reserve, the ring gives. */
  lemma ReserveIsFresh(e: Env, m: Machine, w: Joint, w': Joint, k: nat, n: nat, name: nat, addr: u64)
    requires JointInv(e, m.live, w) && Reserves(w, w', k, n, name, addr)
    ensures FreshRecord(e, m.live, addr, n)
  {
    ReservesAdds(e, w, w', k, n, name, addr);
    AddIsFresh(e, m, w, w', k, NewPos(w.rings[k]), n, name, addr);
  }

  lemma AddIsFresh(e: Env, m: Machine, w: Joint, w': Joint, k: nat, pos: nat, n: nat, name: nat, addr: u64)
    requires JointInv(e, m.live, w) && Adds(w, w', k, pos, n, name, addr)
    ensures FreshRecord(e, m.live, addr, n)
  {
    AddMoves(e, w, w', k, pos, n, name, addr);
    BusyBelow(w'.rings[k].s, pos, n);
    assert RingPlaced(e, w'.rings[k]);
    forall ref | ref in m.live
      ensures addr + n <= m.live[ref].addr || m.live[ref].addr + m.live[ref].size <= addr
    {
      OwnsStays(w.rings, w'.rings, m.live, w.own, ref);
      OldBelow(w.rings, m.live, w.own, ref);
      DataApart(e, w'.rings, k, pos, n, w.own[ref].0, w.own[ref].1, m.live[ref].size);
    }
  }

  lemma DataApart(e: Env, rings: map<nat, Placed>, k: nat, pos: nat, len: nat, l: nat, pos': nat, len': nat)
    requires AllPlaced(e, rings) && k in rings && l in rings && rings[k].s.size > 0 && rings[l].s.size > 0
    requires BusyAt(rings[k].s, pos, len) && BusyAt(rings[l].s, pos', len') && (k, pos) != (l, pos')
    ensures var a, b := DataAt(rings[k], pos), DataAt(rings[l], pos'); a + len <= b || b + len' <= a
  {
    BusyBelow(rings[k].s, pos, len);
    BusyBelow(rings[l].s, pos', len');
    if k == l { SpansApart(rings[k].s, pos, len, pos', len'); }
  }

  lemma SpansApart(s: Steps.State, pos: nat, len: nat, pos': nat, len': nat)
    requires Steps.Inv(s) && s.size > 0 && BusyAt(s, pos, len) && BusyAt(s, pos', len') && pos != pos'
    ensures var a, b := Ring.Off(pos, s.size), Ring.Off(pos', s.size);
            a + Ring.HEADER + len <= b || b + Ring.HEADER + len' <= a
  {
    var i :| 0 <= i < |s.recs| && s.recs[i] == Ring.Rec(pos, len, true, false);
    var j :| 0 <= j < |s.recs| && s.recs[j] == Ring.Rec(pos', len', true, false);
    if i < j { Ring.RecordsApart(s.size, s.cons, s.prod, s.words, s.recs, i, j); }
    if j < i { Ring.RecordsApart(s.size, s.cons, s.prod, s.words, s.recs, j, i); }
  }

  // ---- a commit -------------------------------------------------------------

  ghost function Finished(rings: map<nat, Placed>, k: nat, i: nat, discard: bool): map<nat, Placed>
    requires k in rings && Steps.Guard(rings[k].s, Steps.Finish(i, discard))
  {
    rings[k := rings[k].(s := Steps.Apply(rings[k].s, Steps.Finish(i, discard)))]
  }

  /** A commit by address: the busy record whose data lies there, in whichever ring that is. */
  ghost predicate Commits(w: Joint, w': Joint, k: nat, i: nat, discard: bool, addr: u64) {
    && k in w.rings && Steps.Guard(w.rings[k].s, Steps.Finish(i, discard)) && !w.rings[k].s.recs[i].discard
    && addr == DataAt(w.rings[k], w.rings[k].s.recs[i].pos)
    && w'.rings == Finished(w.rings, k, i, discard) && w'.made == w.made
    && w'.own == map ref | ref in w.own && w.own[ref] != (k, w.rings[k].s.recs[i].pos) :: w.own[ref]
  }

  lemma RecordBusy(s: Steps.State, i: nat)
    requires i < |s.recs| && s.recs[i].busy && !s.recs[i].discard
    ensures BusyAt(s, s.recs[i].pos, s.recs[i].len)
  {
    assert s.recs[i] == Ring.Rec(s.recs[i].pos, s.recs[i].len, true, false);
  }

  /** The reservations with data at `addr` are those of the record committed. */
  lemma CommitNames(e: Env, live: map<nat, Rec>, w: Joint, w': Joint, k: nat, i: nat, discard: bool, addr: u64,
                    ref: nat)
    requires AllPlaced(e, w.rings) && Owns(w.rings, live, w.own) && Commits(w, w', k, i, discard, addr) && ref in live
    ensures live[ref].addr == addr <==> w.own[ref] == (k, w.rings[k].s.recs[i].pos)
  {
    var s := w.rings[k].s;
    var (l, pos) := w.own[ref];
    assert OwnsOne(w.rings, live, w.own, ref);
    RecordBusy(s, i);
    if live[ref].addr == addr { SameData(e, w.rings, k, s.recs[i].pos, s.recs[i].len, l, pos, live[ref].size); }
  }

  lemma FinishMoves(e: Env, rings: map<nat, Placed>, own: map<nat, (nat, nat)>, k: nat, i: nat, discard: bool)
    requires AllPlaced(e, rings) && k in rings && Steps.Guard(rings[k].s, Steps.Finish(i, discard))
    requires rings[k].s.recs[i].pos !in Mine(own, k)
    ensures OthersMove(rings, Finished(rings, k, i, discard), own) && AllPlaced(e, Finished(rings, k, i, discard))
  {
    EvolvesFinish(rings[k].s, i, discard, Mine(own, k));
    OneMoves(e, rings, own, k, Steps.Apply(rings[k].s, Steps.Finish(i, discard)));
  }

  /** The record committed is busy no more. */
  lemma CommittedNotBusy(s: Steps.State, i: nat, discard: bool)
    requires Steps.Inv(s) && Steps.Guard(s, Steps.Finish(i, discard))
    ensures !BusyPos(Steps.Apply(s, Steps.Finish(i, discard)), s.recs[i].pos)
  {
    var s' := Steps.Apply(s, Steps.Finish(i, discard));
    Steps.FinishKeeps(s, i, discard);
    forall j | 0 <= j < |s'.recs| && s'.recs[j].pos == s'.recs[i].pos
      ensures j == i
    {
      OnePlace(s'.recs, s'.cons, s'.prod, i, j);
    }
  }

  lemma OnePlace(recs: seq<Ring.Rec>, from: nat, to: nat, i: nat, j: nat)
    requires Ring.Tiles(recs, from, to) && i < |recs| && j < |recs| && recs[i].pos == recs[j].pos
    ensures i == j
  {
    if i < j { Ring.TilesOrder(recs, from, to, i); }
    if j < i { Ring.TilesOrder(recs, from, to, j); }
  }

  /** The books without the record committed are books of the records left. */
  lemma CommitBooks(e: Env, live: map<nat, Rec>, w: Joint, w': Joint, k: nat, i: nat, discard: bool, addr: u64)
    requires AllPlaced(e, w.rings) && Owns(w.rings, live, w.own) && Commits(w, w', k, i, discard, addr)
    ensures Owns(w.rings, Without(live, addr), w'.own) && w.rings[k].s.recs[i].pos !in Mine(w'.own, k)
  {
    var live', pos := Without(live, addr), w.rings[k].s.recs[i].pos;
    forall ref | ref in live
      ensures live[ref].addr == addr <==> w.own[ref] == (k, pos)
    {
      CommitNames(e, live, w, w', k, i, discard, addr, ref);
    }
    assert w'.own.Keys == live'.Keys;
    forall ref | ref in w'.own
      ensures OwnsOne(w.rings, live', w'.own, ref)
    {
      assert OwnsOne(w.rings, live, w.own, ref);
    }
  }

  lemma CommitOwns(rings: map<nat, Placed>, rings': map<nat, Placed>, live: map<nat, Rec>, own: map<nat, (nat, nat)>)
    requires Owns(rings, live, own) && OthersMove(rings, rings', own)
    ensures Owns(rings', live, own)
  {
    forall ref | ref in own ensures OwnsOne(rings', live, own, ref) { OwnsStays(rings, rings', live, own, ref); }
  }

  lemma CommitKeeps(e: Env, live: map<nat, Rec>, w: Joint, w': Joint, k: nat, i: nat, discard: bool, addr: u64)
    requires JointInv(e, live, w) && Commits(w, w', k, i, discard, addr)
    ensures JointInv(e, Without(live, addr), w')
  {
    CommitBooks(e, live, w, w', k, i, discard, addr);
    FinishMoves(e, w.rings, w'.own, k, i, discard);
    CommitOwns(w.rings, w'.rings, Without(live, addr), w'.own);
    CommitSettles(e, w, w', k, i, discard, addr);
  }

  lemma CommitSettles(e: Env, w: Joint, w': Joint, k: nat, i: nat, discard: bool, addr: u64)
    requires AllPlaced(e, w.rings) && Settled(w) && Commits(w, w', k, i, discard, addr)
    ensures Settled(w')
  {
    var at := w.rings[k].s.recs[i].pos;
    CommittedNotBusy(w.rings[k].s, i, discard);
    FinishMoves(e, w.rings, w'.own, k, i, discard);
    forall l, pos | (l, pos) in w'.made
      ensures SettledOne(w'.rings, w'.own, l, pos)
    {
      assert SettledOne(w.rings, w.own, l, pos);
      if (l, pos) != (k, at) {
        HeldElsewhere(w.own, w'.own, (k, at), (l, pos));
        SettledStays(w.rings, w'.rings, w'.own, l, pos);
      }
    }
  }

  lemma HeldElsewhere(own: map<nat, (nat, nat)>, own': map<nat, (nat, nat)>, gone: (nat, nat), x: (nat, nat))
    requires own' == (map ref | ref in own && own[ref] != gone :: own[ref]) && x != gone
    ensures Held(own, x) ==> Held(own', x)
  {
    if Held(own, x) {
      var ref :| ref in own && own[ref] == x;
      assert own'[ref] == x;
    }
  }

  // ---- a step of both -------------------------------------------------------

  predicate Calls(p: Prog, m: Machine, id: int)
    requires m.pc < |p.insns|
  {
    var i := p.insns[m.pc];
    ClassOf(i.code) in {JMP, JMP32} && JmpOpOf(i.code) == CALL && Low32(i.imm) == id
  }

  /**
   * What the call at m.pc, if it is one, does to the rings: ringbuf_reserve on a ring of the program's, ringbuf_commit
   * by address.
   */
  ghost predicate HelperMoves(e: Env, p: Prog, m: Machine, m': Machine, w: Joint, w': Joint)
    requires m.pc < |p.insns|
  {
    if Calls(p, m, RINGBUF_RESERVE) && m'.regs[0] != 0 then
      exists k :: Reserves(w, w', k, m.regs[2], RefName(m.pc), m'.regs[0])
    else if Calls(p, m, RINGBUF_SUBMIT) || Calls(p, m, RINGBUF_DISCARD) then
      exists k, i :: Commits(w, w', k, i, Calls(p, m, RINGBUF_DISCARD), m.regs[1])
    else w' == w
  }

  /** Others move the rings, then the program's step does. */
  ghost predicate JointStep(e: Env, p: Prog, m: Machine, m': Machine, w: Joint, w': Joint)
    requires m.pc < |p.insns|
  {
    exists rings :: OthersMove(w.rings, rings, w.own) && HelperMoves(e, p, m, m', w.(rings := rings), w')
  }

  lemma ReserveLive(b: Bounds, p: Prog, m: Machine, h: HelperEffect, m': Machine)
    requires m.pc < |p.insns| && Step(b, p, m, h) == Next(m') && Calls(p, m, RINGBUF_RESERVE) && m'.regs[0] != 0
    ensures m'.live == m.live[RefName(m.pc) := Rec(m'.regs[0], m.regs[2])]
  {
  }

  lemma CommitLive(b: Bounds, p: Prog, m: Machine, h: HelperEffect, m': Machine)
    requires m.pc < |p.insns| && Step(b, p, m, h) == Next(m')
    requires (Calls(p, m, RINGBUF_SUBMIT) || Calls(p, m, RINGBUF_DISCARD))
    ensures m'.live == Without(m.live, m.regs[1])
  {
  }

  lemma OtherLive(b: Bounds, p: Prog, m: Machine, h: HelperEffect, m': Machine)
    requires m.pc < |p.insns| && Step(b, p, m, h) == Next(m')
    requires !(Calls(p, m, RINGBUF_RESERVE) && m'.regs[0] != 0) && !Calls(p, m, RINGBUF_SUBMIT)
    requires !Calls(p, m, RINGBUF_DISCARD)
    ensures m'.live == m.live
  {
  }

  /** How a step changes the records held. */
  ghost predicate LiveMoves(p: Prog, m: Machine, m': Machine)
    requires m.pc < |p.insns|
  {
    m'.live ==
    if Calls(p, m, RINGBUF_RESERVE) && m'.regs[0] != 0 then m.live[RefName(m.pc) := Rec(m'.regs[0], m.regs[2])]
    else if Calls(p, m, RINGBUF_SUBMIT) || Calls(p, m, RINGBUF_DISCARD) then Without(m.live, m.regs[1])
    else m.live
  }

  lemma LiveAfter(e: Env, p: Prog, m: Machine, m': Machine)
    requires m.pc < |p.insns| && StepsNext(e, p, m, m')
    ensures LiveMoves(p, m, m')
  {
    var mem, h :| StepsTo(e, p, m, mem, h, Next(m'));
    var m1 := WithMem(m, mem);
    if Calls(p, m, RINGBUF_RESERVE) && m'.regs[0] != 0 {
      ReserveLive(e.b, p, m1, h, m');
    } else if Calls(p, m, RINGBUF_SUBMIT) || Calls(p, m, RINGBUF_DISCARD) {
      CommitLive(e.b, p, m1, h, m');
    } else {
      OtherLive(e.b, p, m1, h, m');
    }
  }

  lemma ReserveCallKeeps(e: Env, p: Prog, m: Machine, m': Machine, w: Joint, w': Joint)
    requires m.pc < |p.insns| && JointInv(e, m.live, w) && LiveMoves(p, m, m') && HelperMoves(e, p, m, m', w, w')
    requires RefName(m.pc) !in m.live && Calls(p, m, RINGBUF_RESERVE) && m'.regs[0] != 0
    ensures JointInv(e, m'.live, w')
  {
    var k :| Reserves(w, w', k, m.regs[2], RefName(m.pc), m'.regs[0]);
    ReserveKeeps(e, m.live, w, w', k, m.regs[2], RefName(m.pc), m'.regs[0]);
  }

  lemma CommitCallKeeps(e: Env, p: Prog, m: Machine, m': Machine, w: Joint, w': Joint)
    requires m.pc < |p.insns| && JointInv(e, m.live, w) && LiveMoves(p, m, m') && HelperMoves(e, p, m, m', w, w')
    requires Calls(p, m, RINGBUF_SUBMIT) || Calls(p, m, RINGBUF_DISCARD)
    ensures JointInv(e, m'.live, w')
  {
    var k, i :| Commits(w, w', k, i, Calls(p, m, RINGBUF_DISCARD), m.regs[1]);
    CommitKeeps(e, m.live, w, w', k, i, Calls(p, m, RINGBUF_DISCARD), m.regs[1]);
  }

  lemma HelperKeeps(e: Env, p: Prog, m: Machine, m': Machine, w: Joint, w': Joint)
    requires m.pc < |p.insns| && JointInv(e, m.live, w) && LiveMoves(p, m, m') && HelperMoves(e, p, m, m', w, w')
    requires RefName(m.pc) !in m.live
    ensures JointInv(e, m'.live, w')
  {
    if Calls(p, m, RINGBUF_RESERVE) && m'.regs[0] != 0 {
      ReserveCallKeeps(e, p, m, m', w, w');
    } else if Calls(p, m, RINGBUF_SUBMIT) || Calls(p, m, RINGBUF_DISCARD) {
      CommitCallKeeps(e, p, m, m', w, w');
    }
  }

  /** Whichever step it is, it keeps rings and books together. */
  lemma StepKeepsJoint(e: Env, p: Prog, m: Machine, m': Machine, w: Joint, w': Joint)
    requires m.pc < |p.insns| && JointInv(e, m.live, w) && LiveMoves(p, m, m') && JointStep(e, p, m, m', w, w')
    requires RefName(m.pc) !in m.live
    ensures JointInv(e, m'.live, w')
  {
    var rings :| OthersMove(w.rings, rings, w.own) && HelperMoves(e, p, m, m', w.(rings := rings), w');
    OthersKeep(e, m.live, w, rings);
    HelperKeeps(e, p, m, m', w.(rings := rings), w');
  }

  // ---- runs -----------------------------------------------------------------

  ghost predicate MovesTogether(e: Env, p: Prog, m: Machine, m': Machine, w: Joint, w': Joint) {
    m.pc < |p.insns| && JointStep(e, p, m, m', w, w')
  }

  /** A run, and the rings beside it: to begin with it holds and has made nothing. */
  ghost predicate JointRun(e: Env, p: Prog, tr: seq<Machine>, ws: seq<Joint>) {
    && IsRun(e, p, tr) && |ws| == |tr|
    && AllPlaced(e, ws[0].rings) && ws[0].own == map[] && ws[0].made == {}
    && forall k :: 0 <= k < |tr| - 1 ==> MovesTogether(e, p, tr[k], tr[k + 1], ws[k], ws[k + 1])
  }

  lemma NameIsNew(pc: nat, live: map<nat, Rec>)
    requires pc < MAX_INSNS && forall ref :: ref in live ==> ref <= pc
    ensures RefName(pc) !in live
  {
  }

  lemma RunInside(e: Env, p: Prog, steps: set<(nat, VState)>, tr: seq<Machine>, k: nat)
    requires ValidEnv(e) && Certified(e.b, p, steps) && IsRun(e, p, tr) && k < |tr|
    ensures tr[k].pc < |p.insns| <= MAX_INSNS
  {
    RunDescribed(e, p, steps, tr, k);
    var st: VState :| (tr[k].pc, st) in steps && Gamma(e, st, tr[k]);
    assert Stepped(e.b, p, tr[k].pc, st);
  }

  lemma JointStarts(e: Env, p: Prog, tr: seq<Machine>, ws: seq<Joint>)
    requires JointRun(e, p, tr, ws)
    ensures JointInv(e, tr[0].live, ws[0])
  {
    assert tr[0].live == map[];
  }

  lemma JointNext(e: Env, p: Prog, steps: set<(nat, VState)>, tr: seq<Machine>, ws: seq<Joint>, k: nat)
    requires ValidEnv(e) && Certified(e.b, p, steps) && JointRun(e, p, tr, ws) && k + 1 < |tr|
    requires JointInv(e, tr[k].live, ws[k])
    ensures JointInv(e, tr[k + 1].live, ws[k + 1])
  {
    RunInside(e, p, steps, tr, k);
    ReservationsAccounted(e, p, steps, tr, k);
    NameIsNew(tr[k].pc, tr[k].live);
    assert StepsNext(e, p, tr[k], tr[k + 1]) && MovesTogether(e, p, tr[k], tr[k + 1], ws[k], ws[k + 1]);
    LiveAfter(e, p, tr[k], tr[k + 1]);
    StepKeepsJoint(e, p, tr[k], tr[k + 1], ws[k], ws[k + 1]);
  }

  lemma {:induction false} JointRunsHold(e: Env, p: Prog, steps: set<(nat, VState)>, tr: seq<Machine>, ws: seq<Joint>,
                                         k: nat)
    requires ValidEnv(e) && Certified(e.b, p, steps) && JointRun(e, p, tr, ws) && k < |tr|
    ensures JointInv(e, tr[k].live, ws[k])
    decreases k
  {
    if k == 0 {
      JointStarts(e, p, tr, ws);
    } else {
      JointRunsHold(e, p, steps, tr, ws, k - 1);
      JointNext(e, p, steps, tr, ws, k - 1);
    }
  }

  /**
   * In every state of every run of a verified program the records held are exactly the ring records this run made and
   * has left busy, at the addresses the program was given.
   */
  lemma HeldAreBusy(e: Env, p: Prog, steps: set<(nat, VState)>, tr: seq<Machine>, ws: seq<Joint>, n: nat, k: nat,
                    pos: nat)
    requires ValidEnv(e) && Certified(e.b, p, steps) && JointRun(e, p, tr, ws) && n < |tr| && (k, pos) in ws[n].made
    ensures k in ws[n].rings && (BusyPos(ws[n].rings[k].s, pos) <==> Held(ws[n].own, (k, pos)))
    ensures ws[n].own.Keys == tr[n].live.Keys
  {
    JointRunsHold(e, p, steps, tr, ws, n);
    assert SettledOne(ws[n].rings, ws[n].own, k, pos);
    if Held(ws[n].own, (k, pos)) {
      var ref :| ref in ws[n].own && ws[n].own[ref] == (k, pos);
      assert OwnsOne(ws[n].rings, tr[n].live, ws[n].own, ref);
    }
  }

  /**
   * What a verified program submits or discards is a record of its own that is still busy: no record is finished twice.
   */
  lemma CommitFinds(e: Env, p: Prog, steps: set<(nat, VState)>, tr: seq<Machine>, ws: seq<Joint>, n: nat, discard: bool)
    returns (k: nat, i: nat)
    requires ValidEnv(e) && Certified(e.b, p, steps) && JointRun(e, p, tr, ws) && n < |tr| && tr[n].pc < |p.insns|
    requires Calls(p, tr[n], RINGBUF_SUBMIT) || Calls(p, tr[n], RINGBUF_DISCARD)
    ensures k in ws[n].rings && Steps.Guard(ws[n].rings[k].s, Steps.Finish(i, discard))
    ensures !ws[n].rings[k].s.recs[i].discard
    ensures tr[n].regs[1] == DataAt(ws[n].rings[k], ws[n].rings[k].s.recs[i].pos)
    ensures (k, ws[n].rings[k].s.recs[i].pos) in ws[n].own.Values
  {
    JointRunsHold(e, p, steps, tr, ws, n);
    CommitsHeld(e, p, steps, tr, n);
    k, i := OwnedFound(ws[n].rings, tr[n].live, ws[n].own, tr[n].regs[1], discard);
  }

  lemma OwnedFound(rings: map<nat, Placed>, live: map<nat, Rec>, own: map<nat, (nat, nat)>, addr: u64, discard: bool)
    returns (k: nat, i: nat)
    requires Owns(rings, live, own) && HeldRecord(live, addr)
    ensures k in rings && Steps.Guard(rings[k].s, Steps.Finish(i, discard)) && !rings[k].s.recs[i].discard
    ensures addr == DataAt(rings[k], rings[k].s.recs[i].pos) && (k, rings[k].s.recs[i].pos) in own.Values
  {
    var ref :| ref in live && live[ref].addr == addr;
    assert OwnsOne(rings, live, own, ref);
    k := own[ref].0;
    i :| 0 <= i < |rings[k].s.recs| && rings[k].s.recs[i] == Ring.Rec(own[ref].1, live[ref].size, true, false);
    assert own[ref] in own.Values;
  }

  lemma CommitsHeld(e: Env, p: Prog, steps: set<(nat, VState)>, tr: seq<Machine>, n: nat)
    requires ValidEnv(e) && Certified(e.b, p, steps) && IsRun(e, p, tr) && n < |tr| && tr[n].pc < |p.insns|
    requires Calls(p, tr[n], RINGBUF_SUBMIT) || Calls(p, tr[n], RINGBUF_DISCARD)
    ensures HeldRecord(tr[n].live, tr[n].regs[1])
  {
    RunDescribed(e, p, steps, tr, n);
    DescribedSafe(e, p, steps, tr[n]);
    SafeCommit(e, p, tr[n]);
  }

  lemma SafeCommit(e: Env, p: Prog, m: Machine)
    requires StepSafe(e, p, m) && (Calls(p, m, RINGBUF_SUBMIT) || Calls(p, m, RINGBUF_DISCARD))
    ensures HeldRecord(m.live, m.regs[1])
  {
    var proto := HelperOf(Low32(p.insns[m.pc].imm)).value;
    assert proto.args[0] == ArgRingMem && ArgSafe(e, p, m, proto, 0);
  }

  /** When a verified program is about to leave by EXIT, no record it made is BUSY. */
  lemma NoneLeftBusy(e: Env, p: Prog, steps: set<(nat, VState)>, tr: seq<Machine>, ws: seq<Joint>, mem: Mem,
                     h: HelperEffect, r0: u64,
                     k: nat, pos: nat)
    requires ValidEnv(e) && Certified(e.b, p, steps) && JointRun(e, p, tr, ws)
    requires StepsTo(e, p, tr[|tr| - 1], mem, h, Exit(r0)) && (k, pos) in ws[|tr| - 1].made
    ensures k in ws[|tr| - 1].rings && !BusyPos(ws[|tr| - 1].rings[k].s, pos)
  {
    var n := |tr| - 1;
    RunsEndAtExit(e, p, steps, tr, mem, h, Exit(r0));
    HeldAreBusy(e, p, steps, tr, ws, n, k, pos);
  }
}
