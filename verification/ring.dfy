/** The BPF ring buffer of kernel/bpf/bpf_core.c: records framed by headers in a ring the reader maps. */
module Ring {
  import opened Words
  import opened Memory

  const BUSY: u32 := 0x8000_0000
  const DISCARD: u32 := 0x4000_0000
  const HEADER: nat := 8

  /** Up to a multiple of eight. */
  function Round8(n: nat): (r: nat)
    ensures n <= r < n + 8 && r % 8 == 0
  {
    (n + 7) / 8 * 8
  }

  /** A record at `pos`: its payload's length, and whether it is still being written or is to be skipped. */
  datatype Rec = Rec(pos: nat, len: nat, busy: bool, discard: bool)

  function Span(r: Rec): nat { Round8(r.len + HEADER) }

  /** The header word of a record. */
  function Word(r: Rec): int { r.len + (if r.busy then BUSY else 0) + (if r.discard then DISCARD else 0) }

  /** Where a position falls in the ring: p & (size - 1). */
  function Off(p: nat, size: nat): (o: nat)
    requires size > 0
    ensures o < size && o <= p
    decreases p
  {
    if p < size then p else Off(p - size, size)
  }

  lemma {:induction false} OffIsRemainder(p: nat, size: nat)
    requires size > 0
    ensures Off(p, size) == p % size
    decreases p
  {
    if p >= size {
      OffIsRemainder(p - size, size);
      assert p == (p - size) + 1 * size;
      OneTurn(p - size, size);
    }
  }

  lemma OneTurn(x: nat, size: nat)
    requires size > 0
    ensures (x + size) % size == x % size
  {
    var q := x / size;
    assert x + size == size * (q + 1) + x % size;
    DivModUnique(x + size, size, q + 1, x % size);
  }

  // ---- framing --------------------------------------------------------------

  /** `n` is a size the ring may have: a power of two, from a page to 16 MB. */
  predicate SizeOk(n: nat) { 4096 <= n <= 0x100_0000 && PowerOfTwo(n) }

  predicate PowerOfTwo(n: nat) { n == 1 || (n > 1 && n % 2 == 0 && PowerOfTwo(n / 2)) }

  predicate RecOk(size: nat, r: Rec)
    requires size > 0
  {
    r.pos % 8 == 0 && Off(r.pos, size) + Span(r) <= size && r.len < DISCARD
  }

  /** The records follow one another from `from` to `to`. */
  ghost predicate Tiles(recs: seq<Rec>, from: nat, to: nat)
    decreases |recs|
  {
    if recs == [] then from == to else recs[0].pos == from && Tiles(recs[1..], from + Span(recs[0]), to)
  }

  /** Producer ahead of consumer by a ring's length at most, both at multiples of eight. */
  predicate EndsOk(size: nat, cons: nat, prod: nat) {
    SizeOk(size) && cons % 8 == 0 && prod % 8 == 0 && cons <= prod <= cons + size
  }

  predicate AllOk(size: nat, recs: seq<Rec>)
    requires size > 0
  {
    forall i :: 0 <= i < |recs| ==> RecOk(size, recs[i])
  }

  /** Every record's header is in the ring. */
  predicate WordsOk(size: nat, words: map<nat, int>, recs: seq<Rec>)
    requires size > 0
  {
    forall i :: 0 <= i < |recs| ==> Off(recs[i].pos, size) in words && words[Off(recs[i].pos, size)] == Word(recs[i])
  }

  /**
   * What the ring holds: unread records tile the bytes between consumer and producer, none crosses the end, none is
   * lost.
   */
  ghost predicate Framed(size: nat, cons: nat, prod: nat, words: map<nat, int>, recs: seq<Rec>) {
    EndsOk(size, cons, prod) && Tiles(recs, cons, prod) && AllOk(size, recs) && WordsOk(size, words, recs)
  }

  lemma SizeEights(size: nat)
    requires SizeOk(size)
    ensures size % 8 == 0
  {
    var h := size / 2;
    assert PowerOfTwo(h) && PowerOfTwo(h / 2);
  }

  lemma {:induction false} TilesMore(recs: seq<Rec>, from: nat, to: nat, r: Rec)
    requires Tiles(recs, from, to) && r.pos == to
    ensures Tiles(recs + [r], from, to + Span(r))
    decreases |recs|
  {
    if recs == [] {
      assert (recs + [r])[1..] == [];
    } else {
      TilesMore(recs[1..], from + Span(recs[0]), to, r);
      assert (recs + [r])[1..] == recs[1..] + [r];
    }
  }

  /** Each record lies between the ends, before all that follow. */
  lemma {:induction false} TilesOrder(recs: seq<Rec>, from: nat, to: nat, i: nat)
    requires Tiles(recs, from, to) && i < |recs|
    ensures from <= recs[i].pos && recs[i].pos + Span(recs[i]) <= to
    ensures forall j :: i < j < |recs| ==> recs[i].pos + Span(recs[i]) <= recs[j].pos
    decreases |recs|
  {
    var rest := recs[1..];
    TilesEnds(rest, from + Span(recs[0]), to);
    if i == 0 {
      forall j | 0 < j < |recs|
        ensures recs[0].pos + Span(recs[0]) <= recs[j].pos
      {
        TilesOrder(rest, from + Span(recs[0]), to, j - 1);
      }
    } else {
      TilesOrder(rest, from + Span(recs[0]), to, i - 1);
    }
  }

  lemma {:induction false} TilesEnds(recs: seq<Rec>, from: nat, to: nat)
    requires Tiles(recs, from, to)
    ensures from <= to
    decreases |recs|
  {
    if recs != [] { TilesEnds(recs[1..], from + Span(recs[0]), to); }
  }

  /** Records that do not cross the end and lie within one turn of the ring do not meet in it. */
  lemma {:induction false} ApartInRing(size: nat, a: nat, la: nat, b: nat, lb: nat)
    requires size > 0 && a + la <= b && b + lb <= a + size && Off(a, size) + la <= size && Off(b, size) + lb <= size
    ensures Off(a, size) + la <= Off(b, size) || Off(b, size) + lb <= Off(a, size)
    decreases a
  {
    if a >= size { ApartInRing(size, a - size, la, b - size, lb); }
  }

  /** No two unread records overlap in the ring's memory. */
  lemma RecordsApart(size: nat, cons: nat, prod: nat, words: map<nat, int>, recs: seq<Rec>, i: nat, j: nat)
    requires Framed(size, cons, prod, words, recs) && i < j < |recs|
    ensures Off(recs[i].pos, size) + Span(recs[i]) <= Off(recs[j].pos, size)
            || Off(recs[j].pos, size) + Span(recs[j]) <= Off(recs[i].pos, size)
  {
    TilesOrder(recs, cons, prod, i);
    TilesOrder(recs, cons, prod, j);
    ApartInRing(size, recs[i].pos, Span(recs[i]), recs[j].pos, Span(recs[j]));
  }

  // ---- the three moves ------------------------------------------------------

  /** A record put behind the last, where there is room and it does not cross the end. */
  lemma AppendKeeps(size: nat, cons: nat, prod: nat, words: map<nat, int>, recs: seq<Rec>, r: Rec)
    requires Framed(size, cons, prod, words, recs) && r.pos == prod && RecOk(size, r) && prod + Span(r) <= cons + size
    ensures Framed(size, cons, prod + Span(r), words[Off(prod, size) := Word(r)], recs + [r])
  {
    TilesMore(recs, cons, prod, r);
    EndsMore(size, cons, prod, Span(r));
    AppendWords(size, cons, prod, words, recs, r);
  }

  lemma EndsMore(size: nat, cons: nat, prod: nat, span: nat)
    requires EndsOk(size, cons, prod) && prod + span <= cons + size && span % 8 == 0
    ensures EndsOk(size, cons, prod + span)
  {
  }

  lemma AppendWords(size: nat, cons: nat, prod: nat, words: map<nat, int>, recs: seq<Rec>, r: Rec)
    requires size > 0 && Tiles(recs, cons, prod) && AllOk(size, recs) && WordsOk(size, words, recs)
    requires r.pos == prod && RecOk(size, r) && prod + Span(r) <= cons + size
    ensures WordsOk(size, words[Off(prod, size) := Word(r)], recs + [r])
  {
    var words', recs' := words[Off(prod, size) := Word(r)], recs + [r];
    forall i | 0 <= i < |recs'|
      ensures Off(recs'[i].pos, size) in words' && words'[Off(recs'[i].pos, size)] == Word(recs'[i])
    {
      if i < |recs| {
        TilesOrder(recs, cons, prod, i);
        ApartInRing(size, recs[i].pos, Span(recs[i]), prod, Span(r));
      }
    }
  }

  /** How much is skipped, if anything, before a record of payload `n` goes in; None when there is no room for it. */
  function Room(size: nat, cons: nat, prod: nat, n: nat): Option<nat>
    requires size > 0
  {
    var len, off := Round8(n + HEADER), Off(prod, size);
    if n == 0 || n > BUSY - 1 || len > size then None
    else if off + len > size then
      if prod + (size - off) + len - cons > size then None else Some(size - off)
    else if prod + len - cons > size then None
    else Some(0)
  }

  /** To the end of the ring is to its start. */
  lemma {:induction false} PastEnd(size: nat, p: nat)
    requires size > 0
    ensures Off(p + (size - Off(p, size)), size) == 0
    decreases p
  {
    if p >= size { PastEnd(size, p - size); }
  }

  function Pad(size: nat, prod: nat): Rec
    requires size > 0 && size - Off(prod, size) >= HEADER
  {
    Rec(prod, size - Off(prod, size) - HEADER, false, true)
  }

  lemma PadFits(size: nat, prod: nat)
    requires SizeOk(size) && prod % 8 == 0
    ensures size - Off(prod, size) >= HEADER && (size - Off(prod, size)) % 8 == 0
    ensures RecOk(size, Pad(size, prod)) && Span(Pad(size, prod)) == size - Off(prod, size)
  {
    SizeEights(size);
    OffEights(prod, size);
  }

  lemma {:induction false} OffEights(p: nat, size: nat)
    requires size > 0 && size % 8 == 0 && p % 8 == 0
    ensures Off(p, size) % 8 == 0
    decreases p
  {
    if p >= size { OffEights(p - size, size); }
  }

  /** The records after a reservation, and the words that say so. */
  function ReservedRecs(size: nat, prod: nat, recs: seq<Rec>, n: nat, pad: nat): seq<Rec>
    requires size > 0 && (pad > 0 ==> size - Off(prod, size) >= HEADER)
  {
    (if pad > 0 then recs + [Pad(size, prod)] else recs) + [Rec(prod + pad, n, true, false)]
  }

  function ReservedWords(size: nat, prod: nat, words: map<nat, int>, n: nat, pad: nat): map<nat, int>
    requires size > 0 && (pad > 0 ==> size - Off(prod, size) >= HEADER)
  {
    var w := if pad > 0 then words[Off(prod, size) := Word(Pad(size, prod))] else words;
    w[Off(prod + pad, size) := Word(Rec(prod + pad, n, true, false))]
  }

  lemma ReserveKeeps(size: nat, cons: nat, prod: nat, words: map<nat, int>, recs: seq<Rec>, n: nat, pad: nat)
    requires Framed(size, cons, prod, words, recs) && Room(size, cons, prod, n) == Some(pad)
    ensures pad > 0 ==> size - Off(prod, size) >= HEADER
    ensures Framed(size, cons, prod + pad + Round8(n + HEADER), ReservedWords(size, prod, words, n, pad),
                   ReservedRecs(size, prod, recs, n, pad))
  {
    if pad > 0 {
      PadFits(size, prod);
      AppendKeeps(size, cons, prod, words, recs, Pad(size, prod));
      PastEnd(size, prod);
      assert prod + Span(Pad(size, prod)) == prod + pad;
      AppendKeeps(size, cons, prod + pad, words[Off(prod, size) := Word(Pad(size, prod))], recs + [Pad(size, prod)],
                  Rec(prod + pad, n, true, false));
    } else {
      AppendKeeps(size, cons, prod, words, recs, Rec(prod, n, true, false));
    }
  }

  lemma {:induction false} TilesSame(recs: seq<Rec>, i: nat, r: Rec, from: nat, to: nat)
    requires Tiles(recs, from, to) && i < |recs| && r.pos == recs[i].pos && r.len == recs[i].len
    ensures Tiles(recs[i := r], from, to)
    decreases |recs|
  {
    if i > 0 {
      TilesSame(recs[1..], i - 1, r, from + Span(recs[0]), to);
      assert recs[i := r][1..] == recs[1..][i - 1 := r];
    } else {
      assert recs[0 := r][1..] == recs[1..];
    }
  }

  /** A record is finished: kept or discarded. */
  lemma CommitKeeps(size: nat, cons: nat, prod: nat, words: map<nat, int>, recs: seq<Rec>, i: nat, r: Rec)
    requires Framed(size, cons, prod, words, recs) && i < |recs| && r.pos == recs[i].pos && r.len == recs[i].len
    ensures Framed(size, cons, prod, words[Off(r.pos, size) := Word(r)], recs[i := r])
  {
    TilesSame(recs, i, r, cons, prod);
    var words', recs' := words[Off(r.pos, size) := Word(r)], recs[i := r];
    forall j | 0 <= j < |recs'|
      ensures Off(recs'[j].pos, size) in words' && words'[Off(recs'[j].pos, size)] == Word(recs'[j])
    {
      if j < i { RecordsApart(size, cons, prod, words, recs, j, i); }
      if i < j { RecordsApart(size, cons, prod, words, recs, i, j); }
    }
  }

  /** The reader moves past the first record. */
  lemma ConsumeKeeps(size: nat, cons: nat, prod: nat, words: map<nat, int>, recs: seq<Rec>)
    requires Framed(size, cons, prod, words, recs) && recs != []
    ensures Framed(size, cons + Span(recs[0]), prod, words, recs[1..])
  {
    TilesOrder(recs, cons, prod, 0);
  }

  // ---- the ring -------------------------------------------------------------

  class RingBuf {
    const size: nat
    var cons: nat
    var prod: nat
    var words: map<nat, int>
    ghost var recs: seq<Rec>

    ghost predicate Valid()
      reads this
    {
      Framed(size, cons, prod, words, recs)
    }

    /** ringbuf_alloc, on a size it accepts */
    constructor (n: nat)
      requires SizeOk(n)
      ensures Valid() && size == n && recs == [] && cons == prod == 0
    {
      size := n;
      cons, prod, words, recs := 0, 0, map[], [];
    }

    /** ringbuf_reserve: where the record's data starts, or nothing when the reader has not left room. */
    method Reserve(n: nat) returns (at: Option<nat>)
      requires Valid()
      modifies `prod, `words, `recs
      ensures Valid() && at.Some? == Room(size, cons, old(prod), n).Some?
      ensures at.None? ==> prod == old(prod) && words == old(words) && recs == old(recs)
      ensures at.Some? ==> HEADER <= at.value && at.value + n <= size && old(recs) <= recs
      ensures at.Some? ==> var pad := Room(size, cons, old(prod), n).value;
        && |recs| == |old(recs)| + (if pad > 0 then 2 else 1)
        && (pad > 0 ==> recs[|old(recs)|].discard && !recs[|old(recs)|].busy && recs[|old(recs)|].pos == old(prod))
        && recs[|recs| - 1] == Rec(old(prod) + pad, n, true, false) && at.value == Off(old(prod) + pad, size) + HEADER
    {
      var room := Room(size, cons, prod, n);
      if room.None? { return None; }
      var pad := room.value;
      ReserveKeeps(size, cons, prod, words, recs, n, pad);
      recs := ReservedRecs(size, prod, recs, n, pad);
      words := ReservedWords(size, prod, words, n, pad);
      var pos := prod + pad;
      prod := pos + Round8(n + HEADER);
      assert recs[|recs| - 1] == Rec(pos, n, true, false) && RecOk(size, recs[|recs| - 1]);
      return Some(Off(pos, size) + HEADER);
    }

    /** ringbuf_commit of the record with data at `at`, whose reservation `i` is still open. */
    method Commit(at: nat, discard: bool, ghost i: nat)
      requires Valid() && i < |recs| && recs[i].busy && !recs[i].discard && at == Off(recs[i].pos, size) + HEADER
      modifies `words, `recs
      ensures Valid() && recs == old(recs)[i := Rec(old(recs)[i].pos, old(recs)[i].len, false, discard)]
    {
      var head := at - HEADER;
      ghost var r := Rec(recs[i].pos, recs[i].len, false, discard);
      assert RecOk(size, recs[i]);
      CommitKeeps(size, cons, prod, words, recs, i, r);
      words := words[head := words[head] % BUSY + (if discard then DISCARD else 0)];
      recs := recs[i := r];
    }

    /** The reader: past the record it stands at, unless that is still being written or there is none. */
    method Consume() returns (moved: bool)
      requires Valid()
      modifies `cons, `recs
      ensures Valid() && moved == (old(recs) != [] && !old(recs)[0].busy)
      ensures if moved then recs == old(recs)[1..] && cons == old(cons) + Span(old(recs)[0])
              else recs == old(recs) && cons == old(cons)
    {
      if cons == prod {
        NothingUnread(recs, cons);
        return false;
      }
      FirstWord(size, cons, prod, words, recs);
      var w := words[Off(cons, size)];
      if w >= BUSY { return false; }
      ConsumeKeeps(size, cons, prod, words, recs);
      cons := cons + Round8(w % DISCARD + HEADER);
      recs := recs[1..];
      return true;
    }
  }

  /** The word the reader looks at is the first record's. */
  lemma FirstWord(size: nat, cons: nat, prod: nat, words: map<nat, int>, recs: seq<Rec>)
    requires Framed(size, cons, prod, words, recs) && cons != prod
    ensures recs != [] && Off(cons, size) in words
    ensures words[Off(cons, size)] >= BUSY <==> recs[0].busy
    ensures !recs[0].busy ==> words[Off(cons, size)] % DISCARD == recs[0].len
  {
    assert recs != [] && RecOk(size, recs[0]);
    var r := recs[0];
    assert words[Off(r.pos, size)] == Word(r);
  }

  lemma NothingUnread(recs: seq<Rec>, at: nat)
    requires Tiles(recs, at, at)
    ensures recs == []
  {
    if recs != [] { TilesOrder(recs, at, at, 0); }
  }

  /** On a drained ring every size the verifier lets a program reserve has room. */
  lemma DrainedHasRoom(size: nat, at: nat, n: nat)
    requires SizeOk(size) && 0 < n <= size / 4
    ensures Room(size, at, at, n).Some?
  {
  }
}
