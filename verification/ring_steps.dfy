/**
 * The ring step by step. Reservations are made under a lock, but the reader takes none and commits take none: every
 * load and store of ringbuf_reserve, ringbuf_commit and the reader that another processor can see is a step of its own.
 */
module RingSteps {
  import opened Words
  import opened Memory
  import opened Ring

  /**
   * How far the reservation under the lock has got: for `n` bytes, behind a pad of `pad`, with the reader last seen at
   * `cons`.
   */
  datatype Phase =
    | Free
    | Sized(n: nat, cons: nat, pad: nat)
    | Padded(n: nat, cons: nat, pad: nat)
    | Headed(n: nat, cons: nat, pad: nat)

  /**
   * The reader has last seen the producer at `seen`, `unread` records ahead of it. `words` are the headers in the ring,
   * `recs` the published records it has not passed.
   */
  datatype State = State(size: nat, cons: nat, prod: nat, words: map<nat, int>, recs: seq<Rec>, phase: Phase, seen: nat,
                         unread: nat)

  datatype Step =
    | Size(n: nat)                       // the lock taken, the reader's position loaded, room found
    | PutPad                             // the pad's header stored
    | PutHeader                          // the record's header stored, busy
    | Publish                            // the new producer position stored, the lock given up
    | Finish(i: nat, discard: bool)      // a commit stores a header without BUSY
    | Look                               // the reader loads the producer position
    | Pass                               // the reader loads a header and moves past its record

  predicate PhaseOk(size: nat, prod: nat, pad: nat)
    requires size > 0
  {
    pad > 0 ==> pad == size - Off(prod, size) && HEADER <= pad
  }

  /** The header that goes in at `prod`, if there is a pad. */
  function PadAt(s: State): Rec
    requires s.size > 0 && !s.phase.Free? && PhaseOk(s.size, s.prod, s.phase.pad) && s.phase.pad > 0
  {
    Pad(s.size, s.prod)
  }

  function RecordAt(s: State): Rec
    requires !s.phase.Free?
  {
    Rec(s.prod + s.phase.pad, s.phase.n, true, false)
  }

  predicate Guard(s: State, t: Step) {
    s.size > 0 && match t
    case Size(n) => s.phase.Free? && Room(s.size, s.cons, s.prod, n).Some?
    case PutPad => s.phase.Sized? && PhaseOk(s.size, s.prod, s.phase.pad)
    case PutHeader => s.phase.Padded?
    case Publish => s.phase.Headed? && PhaseOk(s.size, s.prod, s.phase.pad)
    case Finish(i, _) => i < |s.recs| && s.recs[i].busy
    case Look => true
    case Pass =>
        s.cons != s.seen && s.recs != [] && Off(s.cons, s.size) in s.words && s.words[Off(s.cons, s.size)] < BUSY
            && s.unread > 0
  }

  function Apply(s: State, t: Step): State
    requires Guard(s, t)
  {
    match t
    case Size(n) => s.(phase := Sized(n, s.cons, Room(s.size, s.cons, s.prod, n).value))
    case PutPad =>
      s.(phase := Padded(s.phase.n, s.phase.cons, s.phase.pad),
         words := if s.phase.pad > 0 then s.words[Off(s.prod, s.size) := Word(PadAt(s))] else s.words)
    case PutHeader =>
      s.(phase := Headed(s.phase.n, s.phase.cons, s.phase.pad),
         words := s.words[Off(s.prod + s.phase.pad, s.size) := Word(RecordAt(s))])
    case Publish =>
      s.(phase := Free, prod := s.prod + s.phase.pad + Round8(s.phase.n + HEADER),
         recs := (if s.phase.pad > 0 then s.recs + [PadAt(s)] else s.recs) + [RecordAt(s)])
    case Finish(i, discard) =>
      var r := Rec(s.recs[i].pos, s.recs[i].len, false, discard);
      s.(recs := s.recs[i := r], words := s.words[Off(r.pos, s.size) := Word(r)])
    case Look => s.(seen := s.prod, unread := |s.recs|)
    case Pass =>
        s.(cons := s.cons + Round8(s.words[Off(s.cons, s.size)] % DISCARD + HEADER), recs := s.recs[1..],
           unread := s.unread - 1)
  }

  // ---- the invariant --------------------------------------------------------

  /**
   * A pad and a record of `n` behind it fit between the producer and what the reader, now at `cons` or later, has left.
   */
  ghost predicate Fits(s: State) {
    s.size > 0 && (s.phase.Free? ||
    (s.phase.cons <= s.cons && Room(s.size, s.phase.cons, s.prod, s.phase.n) == Some(s.phase.pad)))
  }

  /** The headers stored so far. */
  ghost predicate Written(s: State)
    requires s.size > 0 && (!s.phase.Free? ==> PhaseOk(s.size, s.prod, s.phase.pad))
  {
    && (s.phase.Padded? || s.phase.Headed? ==>
          (s.phase.pad > 0 ==> Off(s.prod, s.size) in s.words && s.words[Off(s.prod, s.size)] == Word(PadAt(s))))
    && (s.phase.Headed? ==>
          var o := Off(s.prod + s.phase.pad, s.size);
          o in s.words && s.words[o] == Word(RecordAt(s)))
  }

  /** Where the reader believes the producer to be is the end of a record it has not passed. */
  ghost predicate SeenOk(s: State) {
    s.unread <= |s.recs| && Tiles(s.recs[..s.unread], s.cons, s.seen)
  }

  ghost predicate Inv(s: State) {
    && Framed(s.size, s.cons, s.prod, s.words, s.recs)
    && Fits(s)
    && (!s.phase.Free? ==> PhaseOk(s.size, s.prod, s.phase.pad))
    && Written(s)
    && SeenOk(s)
  }

  // ---- room -----------------------------------------------------------------

  /** The reader only makes room. */
  lemma RoomLater(size: nat, c: nat, cons: nat, prod: nat, n: nat, pad: nat)
    requires size > 0 && c <= cons && Room(size, c, prod, n) == Some(pad)
    ensures Room(size, cons, prod, n) == Some(pad)
  {
  }

  lemma PadShape(size: nat, cons: nat, prod: nat, words: map<nat, int>, recs: seq<Rec>, n: nat, pad: nat)
    requires Framed(size, cons, prod, words, recs) && Room(size, cons, prod, n) == Some(pad)
    ensures PhaseOk(size, prod, pad)
  {
    if pad > 0 { PadFits(size, prod); }
  }

  /** A pad, if there is one, and then the record, are where the layout lets them be. */
  lemma RecordFits(size: nat, cons: nat, prod: nat, words: map<nat, int>, recs: seq<Rec>, n: nat, pad: nat)
    requires Framed(size, cons, prod, words, recs) && Room(size, cons, prod, n) == Some(pad)
    ensures PhaseOk(size, prod, pad)
    ensures pad > 0 ==> RecOk(size, Pad(size, prod)) && Span(Pad(size, prod)) == pad
    ensures RecOk(size, Rec(prod + pad, n, true, false)) && prod + pad + Round8(n + HEADER) <= cons + size
  {
    if pad > 0 {
      PadFits(size, prod);
      PastEnd(size, prod);
    }
  }

  // ---- headers beyond the producer ------------------------------------------

  /** A header stored at a place no published record has leaves theirs alone. */
  lemma HeaderBeyond(size: nat, cons: nat, prod: nat, words: map<nat, int>, recs: seq<Rec>, at: nat, r: Rec)
    requires Framed(size, cons, prod, words, recs) && at == r.pos && prod <= at && RecOk(size, r)
    requires at + Span(r) <= cons + size
    ensures Framed(size, cons, prod, words[Off(at, size) := Word(r)], recs)
    ensures forall i :: 0 <= i < |recs| ==> Off(recs[i].pos, size) != Off(at, size)
  {
    forall i | 0 <= i < |recs|
      ensures Off(recs[i].pos, size) != Off(at, size)
    {
      TilesOrder(recs, cons, prod, i);
      ApartInRing(size, recs[i].pos, Span(recs[i]), at, Span(r));
    }
  }

  lemma PadKeeps(s: State)
    requires Inv(s) && Guard(s, PutPad)
    ensures Inv(Apply(s, PutPad))
  {
    RoomLater(s.size, s.phase.cons, s.cons, s.prod, s.phase.n, s.phase.pad);
    RecordFits(s.size, s.cons, s.prod, s.words, s.recs, s.phase.n, s.phase.pad);
    if s.phase.pad > 0 { HeaderBeyond(s.size, s.cons, s.prod, s.words, s.recs, s.prod, PadAt(s)); }
  }

  /** The headers a reservation has still to publish are at places of their own. */
  lemma PendingApart(size: nat, cons: nat, prod: nat, words: map<nat, int>, recs: seq<Rec>, n: nat, pad: nat)
    requires Framed(size, cons, prod, words, recs) && Room(size, cons, prod, n) == Some(pad)
    ensures pad > 0 ==> Off(prod, size) != Off(prod + pad, size)
    ensures pad > 0 ==> forall i :: 0 <= i < |recs| ==> Off(recs[i].pos, size) != Off(prod, size)
    ensures forall i :: 0 <= i < |recs| ==> Off(recs[i].pos, size) != Off(prod + pad, size)
  {
    RecordFits(size, cons, prod, words, recs, n, pad);
    if pad > 0 {
      PastEnd(size, prod);
      PadShort(size, cons, prod, n, pad);
      HeaderBeyond(size, cons, prod, words, recs, prod, Pad(size, prod));
    }
    HeaderBeyond(size, cons, prod, words, recs, prod + pad, Rec(prod + pad, n, true, false));
  }

  lemma RecordHeader(size: nat, cons: nat, prod: nat, words: map<nat, int>, recs: seq<Rec>, n: nat, pad: nat)
    requires Framed(size, cons, prod, words, recs) && Room(size, cons, prod, n) == Some(pad)
    ensures Framed(size, cons, prod, words[Off(prod + pad, size) := Word(Rec(prod + pad, n, true, false))], recs)
  {
    RecordFits(size, cons, prod, words, recs, n, pad);
    HeaderBeyond(size, cons, prod, words, recs, prod + pad, Rec(prod + pad, n, true, false));
  }

  lemma HeaderKeeps(s: State)
    requires Inv(s) && Guard(s, PutHeader)
    ensures Inv(Apply(s, PutHeader))
  {
    RoomLater(s.size, s.phase.cons, s.cons, s.prod, s.phase.n, s.phase.pad);
    RecordHeader(s.size, s.cons, s.prod, s.words, s.recs, s.phase.n, s.phase.pad);
    PendingApart(s.size, s.cons, s.prod, s.words, s.recs, s.phase.n, s.phase.pad);
  }

  /** There is a pad only where the record would cross the ring's end. */
  lemma PadShort(size: nat, cons: nat, prod: nat, n: nat, pad: nat)
    requires size > 0 && Room(size, cons, prod, n) == Some(pad) && pad > 0
    ensures Off(prod, size) != 0
  {
  }

  // ---- publication ----------------------------------------------------------

  lemma AppendWritten(size: nat, cons: nat, prod: nat, words: map<nat, int>, recs: seq<Rec>, r: Rec)
    requires Framed(size, cons, prod, words, recs) && r.pos == prod && RecOk(size, r) && prod + Span(r) <= cons + size
    requires Off(prod, size) in words && words[Off(prod, size)] == Word(r)
    ensures Framed(size, cons, prod + Span(r), words, recs + [r])
  {
    AppendKeeps(size, cons, prod, words, recs, r);
    assert words[Off(prod, size) := Word(r)] == words;
  }

  /** A pad, if there is one, and the record, published with their headers in place. */
  lemma AppendBoth(size: nat, cons: nat, prod: nat, words: map<nat, int>, recs: seq<Rec>, n: nat,
                   pad: nat) returns (all: seq<Rec>)
    requires Framed(size, cons, prod, words, recs) && Room(size, cons, prod, n) == Some(pad) && PhaseOk(size, prod, pad)
    requires pad > 0 ==> Off(prod, size) in words && words[Off(prod, size)] == Word(Pad(size, prod))
    requires Off(prod + pad, size) in words && words[Off(prod + pad, size)] == Word(Rec(prod + pad, n, true, false))
    ensures all == (if pad > 0 then recs + [Pad(size, prod)] else recs) + [Rec(prod + pad, n, true, false)]
    ensures Framed(size, cons, prod + pad + Round8(n + HEADER), words, all)
  {
    RecordFits(size, cons, prod, words, recs, n, pad);
    var front := recs;
    if pad > 0 {
      AppendWritten(size, cons, prod, words, recs, Pad(size, prod));
      front := recs + [Pad(size, prod)];
    }
    AppendWritten(size, cons, prod + pad, words, front, Rec(prod + pad, n, true, false));
    all := front + [Rec(prod + pad, n, true, false)];
  }

  lemma PublishKeeps(s: State)
    requires Inv(s) && Guard(s, Publish)
    ensures Inv(Apply(s, Publish))
  {
    RoomLater(s.size, s.phase.cons, s.cons, s.prod, s.phase.n, s.phase.pad);
    var all := AppendBoth(s.size, s.cons, s.prod, s.words, s.recs, s.phase.n, s.phase.pad);
    assert all[..s.unread] == s.recs[..s.unread];
  }

  // ---- commits --------------------------------------------------------------

  lemma {:induction false} SeenSame(recs: seq<Rec>, i: nat, r: Rec, n: nat, from: nat, to: nat)
    requires n <= |recs| && i < |recs| && r.pos == recs[i].pos && r.len == recs[i].len && Tiles(recs[..n], from, to)
    ensures Tiles(recs[i := r][..n], from, to)
  {
    if i < n {
      TilesSame(recs[..n], i, r, from, to);
      assert recs[i := r][..n] == recs[..n][i := r];
    } else {
      assert recs[i := r][..n] == recs[..n];
    }
  }

  lemma FinishKeeps(s: State, i: nat, discard: bool)
    requires Inv(s) && Guard(s, Finish(i, discard))
    ensures Inv(Apply(s, Finish(i, discard)))
  {
    var r := Rec(s.recs[i].pos, s.recs[i].len, false, discard);
    CommitKeeps(s.size, s.cons, s.prod, s.words, s.recs, i, r);
    SeenSame(s.recs, i, r, s.unread, s.cons, s.seen);
    if !s.phase.Free? {
      RoomLater(s.size, s.phase.cons, s.cons, s.prod, s.phase.n, s.phase.pad);
      PendingApart(s.size, s.cons, s.prod, s.words, s.recs, s.phase.n, s.phase.pad);
    }
  }

  // ---- the reader -----------------------------------------------------------

  lemma LookKeeps(s: State)
    requires Inv(s)
    ensures Inv(s.(seen := s.prod, unread := |s.recs|))
  {
    assert s.recs[..|s.recs|] == s.recs;
  }

  /** The reader passes exactly the first record, and that record is finished. */
  lemma PassKeeps(s: State)
    requires Inv(s) && Guard(s, Pass)
    ensures Inv(Apply(s, Pass)) && !s.recs[0].busy && Apply(s, Pass).cons == s.cons + Span(s.recs[0])
  {
    assert RecOk(s.size, s.recs[0]) && s.recs[0].pos == s.cons;
    TilesOrder(s.recs, s.cons, s.prod, 0);
    FirstWord(s.size, s.cons, s.prod, s.words, s.recs);
    ConsumeKeeps(s.size, s.cons, s.prod, s.words, s.recs);
    assert s.recs[..s.unread][1..] == s.recs[1..][..s.unread - 1];
  }

  lemma SizeKeeps(s: State, n: nat)
    requires Inv(s) && Guard(s, Size(n))
    ensures Inv(Apply(s, Size(n)))
  {
    PadShape(s.size, s.cons, s.prod, s.words, s.recs, n, Room(s.size, s.cons, s.prod, n).value);
  }

  // ---- runs -----------------------------------------------------------------

  lemma StepKeeps(s: State, t: Step)
    requires Inv(s) && Guard(s, t)
    ensures Inv(Apply(s, t))
  {
    match t
    case Size(n) => SizeKeeps(s, n);
    case PutPad => PadKeeps(s);
    case PutHeader => HeaderKeeps(s);
    case Publish => PublishKeeps(s);
    case Finish(i, discard) => FinishKeeps(s, i, discard);
    case Look => LookKeeps(s);
    case Pass => PassKeeps(s);
  }

  ghost predicate IsRun(tr: seq<State>, ts: seq<Step>) {
    && |tr| == |ts| + 1 && SizeOk(tr[0].size)
    && tr[0] == State(tr[0].size, 0, 0, map[], [], Free, 0, 0)
    && forall k :: 0 <= k < |ts| ==> Guard(tr[k], ts[k]) && tr[k + 1] == Apply(tr[k], ts[k])
  }

  /** Whatever the order of loads and stores, the ring stays framed and the reader sees whole records only. */
  lemma {:induction false} RunsKeepInv(tr: seq<State>, ts: seq<Step>, k: nat)
    requires IsRun(tr, ts) && k < |tr|
    ensures Inv(tr[k])
    decreases k
  {
    if k > 0 {
      RunsKeepInv(tr, ts, k - 1);
      assert Guard(tr[k - 1], ts[k - 1]);
      StepKeeps(tr[k - 1], ts[k - 1]);
    }
  }

  lemma NoneSeen(recs: seq<Rec>, n: nat, from: nat, to: nat)
    requires n <= |recs| && Tiles(recs[..n], from, to)
    ensures n == 0 ==> from == to
  {
  }

  /**
   * The reader never waits on a header that is not there: while it believes records are ahead, one is, and its word is
   * the header's.
   */
  lemma ReaderSeesRecord(tr: seq<State>, ts: seq<Step>, k: nat)
    requires IsRun(tr, ts) && k < |tr| && tr[k].cons != tr[k].seen
    ensures tr[k].recs != [] && tr[k].unread > 0 && tr[k].recs[0].pos == tr[k].cons && tr[k].size > 0
    ensures Off(tr[k].cons, tr[k].size) in tr[k].words
    ensures tr[k].words[Off(tr[k].cons, tr[k].size)] == Word(tr[k].recs[0])
  {
    RunsKeepInv(tr, ts, k);
    var s := tr[k];
    NoneSeen(s.recs, s.unread, s.cons, s.seen);
    assert RecOk(s.size, s.recs[0]);
  }
}
