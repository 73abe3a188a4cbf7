/** bpf_jit_compile: two passes over the program into a buffer of fixed size. */
module JitCompile {
  import opened Words
  import opened BpfInsn
  import opened BpfVerifier
  import opened X86
  import opened JitTranslate
  import opened JitExec

  // ---- what a full buffer keeps ---------------------------------------------

  /** The first `cap` bytes. */
  function Take(s: seq<byte>, cap: nat): (r: seq<byte>)
    ensures |r| <= cap && r <= s
  {
    if |s| <= cap then s else s[..cap]
  }

  /** From contents `s` and failure flag `f`, `bs` were emitted: what fits was kept, and an overflow noted. */
  ghost predicate Appended(cap: nat, s: seq<byte>, f: bool, bs: seq<byte>, s': seq<byte>, f': bool) {
    s' == Take(s + bs, cap) && f' == (f || |s| + |bs| > cap)
  }

  lemma AppendedNone(cap: nat, s: seq<byte>, f: bool)
    requires |s| <= cap
    ensures Appended(cap, s, f, [], s, f)
  {
    assert s + [] == s;
  }

  lemma AppendedMore(cap: nat, s: seq<byte>, f: bool, bs: seq<byte>, s1: seq<byte>, f1: bool, bs': seq<byte>,
                     s2: seq<byte>, f2: bool)
    requires Appended(cap, s, f, bs, s1, f1) && Appended(cap, s1, f1, bs', s2, f2)
    ensures Appended(cap, s, f, bs + bs', s2, f2)
  {
    assert s + (bs + bs') == (s + bs) + bs';
  }

  // ---- the code of either pass ----------------------------------------------

  /** The displacement a pass writes: nothing yet in the first. */
  function PassRel(enc: Encoder, q: Req, final: bool, pc: nat): u32
    requires pc < |q.p.insns|
  {
    if final then JumpRel(enc, q, pc) else 0
  }

  function PassPiece(enc: Encoder, q: Req, final: bool, pc: nat): seq<byte> {
    if pc >= |q.p.insns| || Half(q.p.insns, pc) || Xlate(q, pc, PassRel(enc, q, final, pc)).None? then []
    else EncodeAll(enc, Xlate(q, pc, PassRel(enc, q, final, pc)).value)
  }

  function PassPieces(enc: Encoder, q: Req, final: bool): nat -> seq<byte> { (pc: nat) => PassPiece(enc, q, final, pc) }

  function PassTo(enc: Encoder, q: Req, final: bool, pc: nat): seq<byte> {
    Joined(EncodeAll(enc, Prologue()), PassPieces(enc, q, final), pc)
  }

  function PassCode(enc: Encoder, q: Req, final: bool): seq<byte> {
    PassTo(enc, q, final, |q.p.insns|) + EncodeAll(enc, Epilogue)
  }

  lemma {:induction false} JoinedSame(first: seq<byte>, p1: nat -> seq<byte>, p2: nat -> seq<byte>, n: nat)
    requires forall k: nat :: k < n ==> p1(k) == p2(k)
    ensures Joined(first, p1, n) == Joined(first, p2, n)
  {
    if n > 0 { JoinedSame(first, p1, p2, n - 1); }
  }

  /** The final pass writes the translation. */
  lemma FinalPass(enc: Encoder, q: Req)
    ensures PassCode(enc, q, true) == Code(enc, q)
  {
    forall k: nat | k < |q.p.insns|
      ensures PassPieces(enc, q, true)(k) == Pieces(enc, q)(k)
    {
    }
    JoinedSame(EncodeAll(enc, Prologue()), PassPieces(enc, q, true), Pieces(enc, q), |q.p.insns|);
  }

  /** Either pass is as long as the layout says. */
  lemma PassLength(enc: Encoder, q: Req, final: bool, pc: nat)
    requires FixedJumps(enc) && pc <= |q.p.insns|
    ensures |PassTo(enc, q, final, pc)| == End(enc, q, pc)
  {
    forall k: nat | k < pc
      ensures |PassPieces(enc, q, final)(k)| == Lengths(enc, q)(k)
    {
      SameLength(enc, q, k, PassRel(enc, q, final, k));
    }
    JoinedTotal(EncodeAll(enc, Prologue()), PassPieces(enc, q, final), Lengths(enc, q), pc);
  }

  /** The whole code, or a part of it, does not fit. */
  ghost predicate TooLong(enc: Encoder, q: Req, cap: nat) { |Code(enc, q)| > cap }

  lemma PartTooLong(enc: Encoder, q: Req, pc: nat, cap: nat)
    requires FixedJumps(enc) && pc <= |q.p.insns| && End(enc, q, pc) > cap
    ensures TooLong(enc, q, cap)
  {
    EndBounded(enc, q, pc);
  }

  /** An instruction the pass comes to before `pc` has no translation. */
  ghost predicate GivesUp(q: Req, pc: nat)
    requires pc <= |q.p.insns|
  {
    exists j :: 0 <= j < pc && !Half(q.p.insns, j) && Xlate(q, j, 0).None?
  }

  ghost predicate OffsetsTo(enc: Encoder, q: Req, offs: seq<nat>, n: nat) {
    n <= |q.p.insns| <= |offs| && forall j :: 0 <= j < n ==> offs[j] == OffsetOf(enc, q, j)
  }

  /**
   * What a pass has done when it has come to `pc`: written the code so far and noted where everything starts, or failed
   * with reason.
   */
  ghost predicate PassInv(enc: Encoder, q: Req, final: bool, cap: nat, pc: nat, written: seq<byte>, fail: bool,
                          offs: seq<nat>) {
    && pc <= |q.p.insns| && |q.p.insns| <= |offs| && |written| <= cap
    && (final ==> OffsetsTo(enc, q, offs, |q.p.insns|))
    && (if fail then GivesUp(q, pc) || TooLong(enc, q, cap)
        else written == PassTo(enc, q, final, pc) && !GivesUp(q, pc) && OffsetsTo(enc, q, offs, pc))
  }

  lemma PassStarts(enc: Encoder, q: Req, final: bool, cap: nat, offs: seq<nat>, written: seq<byte>, fail: bool)
    requires FixedJumps(enc) && |q.p.insns| <= |offs| && (final ==> OffsetsTo(enc, q, offs, |q.p.insns|))
    requires Appended(cap, [], false, EncodeAll(enc, Prologue()), written, fail)
    ensures PassInv(enc, q, final, cap, 0, written, fail, offs)
  {
    var p := EncodeAll(enc, Prologue());
    assert [] + p == p;
    if fail { PartTooLong(enc, q, 0, cap); }
  }

  /** Where the instruction at `pc` starts and ends, in either pass. */
  lemma PassPlaces(enc: Encoder, q: Req, final: bool, cap: nat, pc: nat, written: seq<byte>, offs: seq<nat>)
    requires FixedJumps(enc) && PassInv(enc, q, final, cap, pc, written, false, offs) && pc < |q.p.insns|
    requires !Half(q.p.insns, pc)
    ensures |written| == End(enc, q, pc) == OffsetOf(enc, q, pc)
    ensures Xlate(q, pc, 0).Some? ==> |written| + |EncodeAll(enc, Xlate(q, pc, 0).value)| == End(enc, q, pc + 1)
  {
    PassLength(enc, q, final, pc);
    assert Lengths(enc, q)(pc) == Length(enc, q, pc);
  }

  lemma GivesUpStep(q: Req, pc: nat)
    requires pc < |q.p.insns|
    ensures GivesUp(q, pc + 1) <==> GivesUp(q, pc) || (!Half(q.p.insns, pc) && Xlate(q, pc, 0).None?)
  {
    if GivesUp(q, pc) {
      var j :| 0 <= j < pc && !Half(q.p.insns, j) && Xlate(q, j, 0).None?;
      assert 0 <= j < pc + 1;
    }
  }

  /** One instruction translated. */
  lemma PassMoves(enc: Encoder, q: Req, final: bool, cap: nat, pc: nat, written: seq<byte>, offs: seq<nat>,
                  written': seq<byte>, fail': bool)
    requires FixedJumps(enc) && PassInv(enc, q, final, cap, pc, written, false, offs) && pc < |q.p.insns|
    requires !Half(q.p.insns, pc)
    requires offs[pc] == OffsetOf(enc, q, pc) && Xlate(q, pc, 0).Some?
    requires Appended(cap, written, false, PassPiece(enc, q, final, pc), written', fail')
    ensures PassInv(enc, q, final, cap, pc + 1, written', fail', offs)
  {
    PassLength(enc, q, final, pc + 1);
    GivesUpStep(q, pc);
    var piece := PassPiece(enc, q, final, pc);
    assert PassPieces(enc, q, final)(pc) == piece;
    if fail' { PartTooLong(enc, q, pc + 1, cap); }
  }

  /** The second half of a wide load, stepped over. */
  lemma PassSkips(enc: Encoder, q: Req, final: bool, cap: nat, pc: nat, written: seq<byte>, fail: bool, offs: seq<nat>)
    requires PassInv(enc, q, final, cap, pc, written, fail, offs) && pc < |q.p.insns| && Half(q.p.insns, pc)
    requires offs[pc] == OffsetOf(enc, q, pc)
    ensures PassInv(enc, q, final, cap, pc + 1, written, fail, offs)
  {
    GivesUpStep(q, pc);
    assert PassPieces(enc, q, final)(pc) == [];
  }

  lemma PassStops(enc: Encoder, q: Req, final: bool, cap: nat, pc: nat, written: seq<byte>, offs: seq<nat>)
    requires PassInv(enc, q, final, cap, pc, written, false, offs) && pc < |q.p.insns| && !Half(q.p.insns, pc)
    requires Xlate(q, pc, 0).None?
    ensures PassInv(enc, q, final, cap, pc + 1, written, true, offs)
  {
    GivesUpStep(q, pc);
  }

  ghost predicate PassDone(enc: Encoder, q: Req, final: bool, cap: nat, written: seq<byte>, fail: bool,
                           offs: seq<nat>) {
    && (fail <==> !Translates(q) || TooLong(enc, q, cap))
    && (!fail ==> written == PassCode(enc, q, final) && OffsetsTo(enc, q, offs, |q.p.insns|))
  }

  lemma GivesUpAll(q: Req)
    ensures GivesUp(q, |q.p.insns|) <==> !Translates(q)
  {
  }

  lemma {:induction false} StillGivesUp(q: Req, pc: nat)
    requires pc <= |q.p.insns| && GivesUp(q, pc)
    ensures !Translates(q)
  {
  }

  lemma PassEnds(enc: Encoder, q: Req, final: bool, cap: nat, pc: nat, written: seq<byte>, fail: bool, offs: seq<nat>,
                 written': seq<byte>, fail': bool)
    requires FixedJumps(enc) && PassInv(enc, q, final, cap, pc, written, fail, offs) && (pc == |q.p.insns| || fail)
    requires Appended(cap, written, fail, EncodeAll(enc, Epilogue), written', fail')
    ensures PassDone(enc, q, final, cap, written', fail', offs)
  {
    if fail {
      if GivesUp(q, pc) { StillGivesUp(q, pc); }
    } else {
      GivesUpAll(q);
      PassLength(enc, q, final, |q.p.insns|);
      LayoutStable(enc, q, |q.p.insns|);
    }
  }

  // ---- the passes -----------------------------------------------------------

  /** struct jit: `cap` is the buffer's length. */
  class Jit {
    const buf: array<byte>
    var len: nat
    var fail: bool

    constructor (cap: nat)
      ensures fresh(buf) && buf.Length == cap && len == 0 && !fail
    {
      buf := new byte[cap];
      len, fail := 0, false;
    }

    ghost predicate Valid()
      reads this
    {
      len <= buf.Length
    }

    ghost function Written(): seq<byte>
      requires Valid()
      reads this, buf
    {
      buf[..len]
    }

    /** e8 */
    method E8(b: byte)
      requires Valid()
      modifies `len, `fail, buf
      ensures Valid() && Appended(buf.Length, old(Written()), old(fail), [b], Written(), fail)
    {
      if len + 1 > buf.Length {
        fail := true;
        assert (Written() + [b])[..len] == Written();
      } else {
        buf[len] := b;
        len := len + 1;
        assert Written() == old(Written()) + [b];
      }
    }

    /** An emitter: the bytes of one instruction, one by one. */
    method Emit(x: X)
      requires Valid()
      modifies `len, `fail, buf
      ensures Valid() && Appended(buf.Length, old(Written()), old(fail), Encode(x), Written(), fail)
    {
      var bs := Encode(x);
      EmitBytes(bs);
    }

    method EmitBytes(bs: seq<byte>)
      requires Valid()
      modifies `len, `fail, buf
      ensures Valid() && Appended(buf.Length, old(Written()), old(fail), bs, Written(), fail)
    {
      AppendedNone(buf.Length, Written(), fail);
      for i := 0 to |bs|
        invariant Valid() && Appended(buf.Length, old(Written()), old(fail), bs[..i], Written(), fail)
      {
        ghost var s1, f1 := Written(), fail;
        E8(bs[i]);
        AppendedMore(buf.Length, old(Written()), old(fail), bs[..i], s1, f1, [bs[i]], Written(), fail);
        assert bs[..i + 1] == bs[..i] + [bs[i]];
      }
      assert bs[..|bs|] == bs;
    }

    method EmitAll(xs: seq<X>)
      requires Valid()
      modifies `len, `fail, buf
      ensures Valid() && Appended(buf.Length, old(Written()), old(fail), EncodeAll(Encode, xs), Written(), fail)
    {
      AppendedNone(buf.Length, Written(), fail);
      for i := 0 to |xs|
        invariant Valid()
        invariant Appended(buf.Length, old(Written()), old(fail), EncodeAll(Encode, xs[..i]), Written(), fail)
      {
        ghost var s1, f1 := Written(), fail;
        EmitOne(xs[i]);
        AppendedMore(buf.Length, old(Written()), old(fail), EncodeAll(Encode, xs[..i]), s1, f1,
                     EncodeAll(Encode, [xs[i]]), Written(), fail);
        EncodeAllSplit(Encode, xs[..i], [xs[i]]);
        assert xs[..i + 1] == xs[..i] + [xs[i]];
      }
      assert xs[..|xs|] == xs;
    }

    method EmitOne(x: X)
      requires Valid()
      modifies `len, `fail, buf
      ensures Valid() && Appended(buf.Length, old(Written()), old(fail), EncodeAll(Encode, [x]), Written(), fail)
    {
      Emit(x);
      EncodeOne(Encode, x);
    }

    /** Note where the instruction at `pc` starts. */
    method Note(q: Req, offs: array<nat>, final: bool, pc: nat)
      requires Valid() && !fail && (offs as object) != buf && offs.Length == |q.p.insns| + 1
      requires pc < |q.p.insns| && !Half(q.p.insns, pc)
      requires PassInv(Encode, q, final, buf.Length, pc, Written(), false, offs[..])
      modifies offs
      ensures offs[pc] == OffsetOf(Encode, q, pc)
      ensures PassInv(Encode, q, final, buf.Length, pc, Written(), false, offs[..])
    {
      EncodeFixesJumps();
      PassPlaces(Encode, q, final, buf.Length, pc, Written(), offs[..]);
      ghost var before := offs[..];
      offs[pc] := len;
      KeepsInv(Encode, q, final, buf.Length, pc, Written(), false, before, offs[..]);
    }

    /** What the instruction at `pc` becomes: its jump is displaced by what `offs` says in the final pass. */
    method PieceOf(q: Req, offs: array<nat>, final: bool, pc: nat) returns (xs: Option<seq<X>>)
      requires Valid() && !fail && offs.Length == |q.p.insns| + 1
      requires pc < |q.p.insns| && !Half(q.p.insns, pc)
      requires PassInv(Encode, q, final, buf.Length, pc, Written(), false, offs[..])
      ensures xs.Some? <==> Xlate(q, pc, 0).Some?
      ensures xs.Some? ==> EncodeAll(Encode, xs.value) == PassPiece(Encode, q, final, pc)
    {
      var plain := Xlate(q, pc, 0);
      if plain.None? { return None; }
      EncodeFixesJumps();
      PassPlaces(Encode, q, final, buf.Length, pc, Written(), offs[..]);
      var here := len + |EncodeAll(Encode, plain.value)|;
      var rel := if final then Displacement(here, offs[TargetPc(q, pc)]) else 0;
      RelRight(Encode, q, final, pc, offs[..], here, rel);
      xs := Xlate(q, pc, rel);
    }

    /** Emit the translation of the instruction at `pc`, or give up on it. */
    method Translate(q: Req, offs: array<nat>, final: bool, pc: nat)
      requires Valid() && !fail && (offs as object) != buf && offs.Length == |q.p.insns| + 1
      requires pc < |q.p.insns| && !Half(q.p.insns, pc)
      requires PassInv(Encode, q, final, buf.Length, pc, Written(), false, offs[..])
      requires offs[pc] == OffsetOf(Encode, q, pc)
      modifies `len, `fail, buf
      ensures Valid() && PassInv(Encode, q, final, buf.Length, pc + 1, Written(), fail, offs[..])
    {
      ghost var s0 := Written();
      var xs := PieceOf(q, offs, final, pc);
      if xs.None? {
        fail := true;
        PassStops(Encode, q, final, buf.Length, pc, s0, offs[..]);
      } else {
        EncodeFixesJumps();
        EmitAll(xs.value);
        PassMoves(Encode, q, final, buf.Length, pc, s0, offs[..], Written(), fail);
      }
    }

    /** The second half of a wide load gets the load's offset and no code. */
    method Skip(q: Req, offs: array<nat>, final: bool, pc: nat)
      requires Valid() && (offs as object) != buf && offs.Length == |q.p.insns| + 1
      requires 0 < pc < |q.p.insns| && Half(q.p.insns, pc)
      requires PassInv(Encode, q, final, buf.Length, pc, Written(), fail, offs[..])
      requires offs[pc - 1] == OffsetOf(Encode, q, pc - 1)
      modifies offs
      ensures PassInv(Encode, q, final, buf.Length, pc + 1, Written(), fail, offs[..])
    {
      ghost var before := offs[..];
      offs[pc] := offs[pc - 1];
      SkipKeeps(Encode, q, final, buf.Length, pc, Written(), fail, before, offs[..]);
    }

    /** The turn of jit_pass's loop at `pc`. */
    method Turn(q: Req, offs: array<nat>, final: bool, pc: nat) returns (next: nat)
      requires Valid() && !fail && (offs as object) != buf && offs.Length == |q.p.insns| + 1
      requires pc < |q.p.insns| && !Half(q.p.insns, pc)
      requires PassInv(Encode, q, final, buf.Length, pc, Written(), false, offs[..])
      modifies `len, `fail, buf, offs
      ensures Valid() && pc < next <= |q.p.insns| && (next < |q.p.insns| && !fail ==> !Half(q.p.insns, next))
      ensures PassInv(Encode, q, final, buf.Length, next, Written(), fail, offs[..])
    {
      Note(q, offs, final, pc);
      Translate(q, offs, final, pc);
      next := pc + 1;
      if q.p.insns[pc].code == WIDE && pc + 1 < |q.p.insns| {
        Skip(q, offs, final, pc + 1);
        next := pc + 2;
      }
    }

    /** jit_pass */
    method Pass(q: Req, offs: array<nat>, final: bool)
      requires Valid() && !fail && (offs as object) != buf && offs.Length == |q.p.insns| + 1
      requires final ==> OffsetsTo(Encode, q, offs[..], |q.p.insns|)
      modifies `len, `fail, buf, offs
      ensures Valid() && PassDone(Encode, q, final, buf.Length, Written(), fail, offs[..])
    {
      EncodeFixesJumps();
      len := 0;
      EmitAll(Prologue());
      PassStarts(Encode, q, final, buf.Length, offs[..], Written(), fail);
      var pc := 0;
      while pc < |q.p.insns| && !fail
        invariant Valid() && pc <= |q.p.insns| && (pc < |q.p.insns| && !fail ==> !Half(q.p.insns, pc))
        invariant PassInv(Encode, q, final, buf.Length, pc, Written(), fail, offs[..])
      {
        pc := Turn(q, offs, final, pc);
      }
      ghost var s0, f0 := Written(), fail;
      EmitAll(Epilogue);
      PassEnds(Encode, q, final, buf.Length, pc, s0, f0, offs[..], Written(), fail);
    }
  }

  /** The displacement worked out from where the code has got to is the layout's. */
  lemma RelRight(enc: Encoder, q: Req, final: bool, pc: nat, offs: seq<nat>, here: nat, rel: u32)
    requires FixedJumps(enc) && pc < |q.p.insns| <= |offs| && !Half(q.p.insns, pc) && Xlate(q, pc, 0).Some?
    requires here == End(enc, q, pc + 1)
    requires final ==> OffsetsTo(enc, q, offs, |q.p.insns|)
    requires rel == if final then Displacement(here, offs[TargetPc(q, pc)]) else 0
    ensures rel == PassRel(enc, q, final, pc) && Xlate(q, pc, rel).Some?
    ensures EncodeAll(enc, Xlate(q, pc, rel).value) == PassPiece(enc, q, final, pc)
  {
    SameLength(enc, q, pc, rel);
  }

  /** Writing down an offset that is right keeps everything. */
  lemma KeepsInv(enc: Encoder, q: Req, final: bool, cap: nat, pc: nat, written: seq<byte>, fail: bool, offs: seq<nat>,
                 offs': seq<nat>)
    requires PassInv(enc, q, final, cap, pc, written, fail, offs) && |offs'| == |offs|
    requires forall j :: 0 <= j < |offs| ==> offs'[j] == offs[j] || (j < |q.p.insns| && offs'[j] == OffsetOf(enc, q, j))
    ensures PassInv(enc, q, final, cap, pc, written, fail, offs')
  {
  }

  /** The second half of a wide load: its offset is the load's. */
  lemma SkipKeeps(enc: Encoder, q: Req, final: bool, cap: nat, pc: nat, written: seq<byte>, fail: bool, offs: seq<nat>,
                  offs': seq<nat>)
    requires PassInv(enc, q, final, cap, pc, written, fail, offs) && 0 < pc < |q.p.insns| <= |offs|
    requires Half(q.p.insns, pc)
    requires offs[pc - 1] == OffsetOf(enc, q, pc - 1) && offs' == offs[pc := offs[pc - 1]]
    ensures PassInv(enc, q, final, cap, pc + 1, written, fail, offs')
  {
    KeepsInv(enc, q, final, cap, pc, written, fail, offs, offs');
    PassSkips(enc, q, final, cap, pc, written, fail, offs');
  }

  /**
   * bpf_jit_compile: the buffer with the code at its front, or nothing. `granted` says whether the kernel had memory
   * for it and would make it executable.
   */
  method Compile(q: Req, granted: bool) returns (r: Option<seq<byte>>)
    ensures r.Some? <==>
            granted && |q.p.insns| > 0 && q.fn != 0 && Translates(q) && |Code(Encode, q)| <= |q.p.insns| * 64 + 128
    ensures r.Some? ==> Code(Encode, q) <= r.value && |r.value| == |q.p.insns| * 64 + 128
  {
    if |q.p.insns| == 0 || q.fn == 0 { return None; }
    var offs := new nat[|q.p.insns| + 1](_ => 0);
    if !granted { return None; }
    var j := new Jit(|q.p.insns| * 64 + 128);
    j.Pass(q, offs, false);
    if !j.fail {
      j.Pass(q, offs, true);
    }
    if j.fail { return None; }
    FinalPass(Encode, q);
    return Some(j.buf[..]);
  }

  // ---- programs too short for the buffer ------------------------------------

  lemma {:induction false} SameSizes(enc: Encoder, xs: seq<X>, n: nat)
    requires forall j :: 0 <= j < |xs| ==> |enc(xs[j])| == n
    ensures |EncodeAll(enc, xs)| == n * |xs|
    decreases |xs|
  {
    if xs != [] {
      SameSizes(enc, xs[1..], n);
      assert n * |xs| == n + n * (|xs| - 1);
    }
  }

  lemma ZeroWordLength(j: nat)
    ensures |Encode(ZeroWord(j))| == 11
  {
  }

  lemma EntryLength()
    ensures |EncodeAll(Encode, Entry)| == 11
  {
    assert Entry == [Push(RBP)] + [Rr(MovRr, true, RBP, RSP), Ri(SubRi, true, RSP, 512)];
    EncodeAllSplit(Encode, [Push(RBP)], [Rr(MovRr, true, RBP, RSP), Ri(SubRi, true, RSP, 512)]);
    EncodeOne(Encode, Push(RBP));
    EncodePair(Encode, Rr(MovRr, true, RBP, RSP), Ri(SubRi, true, RSP, 512));
    assert |Encode(Push(RBP))| == 1 && |Encode(Rr(MovRr, true, RBP, RSP))| == 3
           && |Encode(Ri(SubRi, true, RSP, 512))| == 7;
  }

  lemma PairLength(x: X, y: X, a: nat, b: nat)
    requires |Encode(x)| == a && |Encode(y)| == b
    ensures |EncodeAll(Encode, [x, y])| == a + b
  {
    EncodePair(Encode, x, y);
  }

  lemma PopLength(r: reg)
    ensures |Encode(Pop(r))| == |Encode(Push(r))| == if r >= 8 then 2 else 1
  {
  }

  lemma SavesLength()
    ensures |EncodeAll(Encode, Saves)| == 7
  {
    PopLength(3); PopLength(13); PopLength(14); PopLength(15);
    PairLength(Push(3), Push(13), 1, 2);
    PairLength(Push(14), Push(15), 2, 2);
    assert Saves == [Push(3), Push(13)] + [Push(14), Push(15)];
    EncodeAllSplit(Encode, [Push(3), Push(13)], [Push(14), Push(15)]);
  }

  lemma ThreeLength(enc: Encoder, a: X, b: X, c: X)
    ensures |EncodeAll(enc, [a, b, c])| == |enc(a)| + |enc(b)| + |enc(c)|
  {
    assert [a, b, c] == [a, b] + [c];
    EncodeAllSplit(enc, [a, b], [c]);
    EncodePair(enc, a, b);
    EncodeOne(enc, c);
  }

  lemma SevenLength(enc: Encoder, a: X, b: X, c: X, d: X, e: X, f: X, g: X)
    ensures |EncodeAll(enc, [a, b, c, d, e, f, g])| == |enc(a)| + |enc(b)| + |enc(c)| + |enc(d)| + |enc(e)| + |enc(f)|
            + |enc(g)|
  {
    assert [a, b, c, d, e, f, g] == [a, b, c] + [d] + [e, f, g];
    EncodeAllSplit(enc, [a, b, c], [d]);
    EncodeAllSplit(enc, [a, b, c] + [d], [e, f, g]);
    ThreeLength(enc, a, b, c);
    EncodeOne(enc, d);
    ThreeLength(enc, e, f, g);
  }

  lemma AddLength()
    ensures |Encode(Ri(AddRi, true, RSP, 512))| == 7
  {
  }

  lemma RetLength()
    ensures |Encode(Ret)| == 1
  {
  }

  lemma EpilogueLength()
    ensures |EncodeAll(Encode, Epilogue)| == 16
  {
    PopLength(15); PopLength(14); PopLength(13); PopLength(3); PopLength(RBP);
    AddLength();
    RetLength();
    SevenLength(Encode, Pop(15), Pop(14), Pop(13), Pop(3), Ri(AddRi, true, RSP, 512), Pop(RBP), Ret);
  }

  lemma PrologueLength()
    ensures |EncodeAll(Encode, Prologue())| == 722
  {
    EntryLength();
    SavesLength();
    var zs := ZeroFrame();
    forall j | 0 <= j < |zs| ensures |Encode(zs[j])| == 11 { ZeroWordLength(j); }
    SameSizes(Encode, zs, 11);
    EncodeAllSplit(Encode, Entry, zs);
    EncodeAllSplit(Encode, Entry + zs, Saves);
  }

  // ---- which programs fit ---------------------------------------------------

  /** What the first `n` instructions leave of the 64 bytes each is given. */
  function Spare(q: Req, n: nat): int { if n == 0 then 0 else Spare(q, n - 1) + 64 - |Bytecode(Encode, q, n - 1)| }

  lemma {:induction false} CodeLength(q: Req, n: nat)
    ensures |CodeTo(Encode, q, n)| == 722 + 64 * n - Spare(q, n)
    decreases n
  {
    PrologueLength();
    if n > 0 {
      CodeLength(q, n - 1);
      assert Pieces(Encode, q)(n - 1) == Bytecode(Encode, q, n - 1);
    }
  }

  /** A program fits its buffer exactly when its instructions leave 610 bytes of theirs to prologue and epilogue. */
  lemma FitsIff(q: Req)
    ensures |Code(Encode, q)| <= |q.p.insns| * 64 + 128 <==> Spare(q, |q.p.insns|) >= 610
  {
    CodeLength(q, |q.p.insns|);
    EpilogueLength();
  }

  lemma {:induction false} SpareBounds(q: Req, n: nat, k: nat)
    requires forall pc :: 0 <= pc < n ==> |Bytecode(Encode, q, pc)| <= k
    ensures n * (64 - k) <= Spare(q, n)
    decreases n
  {
    if n > 0 {
      SpareBounds(q, n - 1, k);
      assert n * (64 - k) == (n - 1) * (64 - k) + (64 - k);
    }
  }

  lemma {:induction false} SpareAtMost(q: Req, n: nat)
    ensures Spare(q, n) <= 64 * n
    decreases n
  {
    if n > 0 { SpareAtMost(q, n - 1); }
  }

  /** A program of up to nine instructions has no 610 bytes to leave: it is always interpreted. */
  lemma ShortProgramsInterpreted(q: Req)
    requires |q.p.insns| <= 9
    ensures |Code(Encode, q)| > |q.p.insns| * 64 + 128
  {
    SpareAtMost(q, |q.p.insns|);
    FitsIff(q);
  }

  /**
   * A program whose instructions take at most `k` bytes each fits as soon as their number makes up for prologue and
   * epilogue.
   */
  lemma LongerProgramsFit(q: Req, k: nat)
    requires k <= 64 && (forall pc :: 0 <= pc < |q.p.insns| ==> |Bytecode(Encode, q, pc)| <= k)
    requires |q.p.insns| * (64 - k) >= 610
    ensures |Code(Encode, q)| <= |q.p.insns| * 64 + 128
  {
    SpareBounds(q, |q.p.insns|, k);
    FitsIff(q);
  }
}
