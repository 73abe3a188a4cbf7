/**
 * BTF acceptance (kernel/bpf/bpf_btf.c): the header, every type record, every name and every reference of a blob a
 * loader hands in.
 */
module Btf {
  import opened Words
  import opened Memory

  type Blob = d: seq<byte> | |d| < M32

  const MAGIC: int := 0xEB9F
  const HEADER: nat := 24
  const RECORD: nat := 12

  const INT: int := 1
  const ARRAY: int := 3
  const STRUCT: int := 4
  const UNION: int := 5
  const ENUM: int := 6
  const FUNC_PROTO: int := 13
  const VAR: int := 14
  const DATASEC: int := 15
  const DECL_TAG: int := 17
  const KIND_MAX: int := 19

  // ---- reading --------------------------------------------------------------

  /** `n` bytes at `at`, little-endian. */
  function Bytes(d: Blob, at: nat, n: nat): (v: nat)
    requires at + n <= |d|
    ensures v < Pow256(n)
    decreases n, at
  {
    if n == 0 then 0 else Join(d[at], Bytes(d, at + 1, n - 1))
  }

  function Join(lo: int, hi: int): int { lo + 256 * hi }

  function Word(d: Blob, at: nat): (v: u32)
    requires at + 4 <= |d|
  {
    Pow256Values();
    Bytes(d, at, 4)
  }

  /** The sections: where they start in the blob and how long they are. */
  datatype Sections = Sections(types: nat, typeLen: nat, strs: nat, strLen: nat)

  /** The header's checks, and the sections it names. */
  function Header(d: Blob): Option<Sections> {
    if |d| < HEADER then None
    else if Join(d[0], d[1]) != MAGIC || d[2] != 1 || d[3] != 0 then None
    else
      var hdr, typeOff, typeLen, strOff, strLen := Word(d, 4), Word(d, 8), Word(d, 12), Word(d, 16), Word(d, 20);
      if hdr < HEADER || hdr > |d| then None
      else if typeOff + typeLen > |d| - hdr || strOff + strLen > |d| - hdr || typeOff % 4 != 0 then None
      else if strLen == 0 || d[hdr + strOff] != 0 || d[hdr + strOff + strLen - 1] != 0 then None
      else Some(Sections(hdr + typeOff, typeLen, hdr + strOff, strLen))
  }

  ghost predicate Fits(d: Blob, h: Sections) { h.types + h.typeLen <= |d| && h.strs + h.strLen <= |d| }

  /** A record's words. */
  function Field(d: Blob, h: Sections, off: nat, i: nat): u32
    requires Fits(d, h) && off + 4 * i + 4 <= h.typeLen
  {
    Word(d, h.types + off + 4 * i)
  }

  function Kind(d: Blob, h: Sections, off: nat): (k: nat)
    requires Fits(d, h) && off + RECORD <= h.typeLen
    ensures k < 32
  {
    Shr(Field(d, h, off, 1), 24) % 32
  }

  function Vlen(d: Blob, h: Sections, off: nat): (n: nat)
    requires Fits(d, h) && off + RECORD <= h.typeLen
    ensures n < 65536
  {
    Field(d, h, off, 1) % 65536
  }

  /** btf_extra: the words that follow a record; None for a kind there is not. */
  function Extra(kind: int, vlen: nat): Option<nat> {
    if kind == INT || kind == VAR || kind == DECL_TAG then Some(1)
    else if kind == ARRAY then Some(3)
    else if kind == STRUCT || kind == UNION || kind == DATASEC || kind == KIND_MAX then Some(3 * vlen)
    else if kind == ENUM || kind == FUNC_PROTO then Some(2 * vlen)
    else if kind in {2, 7, 8, 9, 10, 11, 12, 16, 18} then Some(0)
    else None
  }

  /** btf_refers: the third word is a type id. */
  predicate Refers(kind: int) { kind in {2, 8, 9, 10, 11, 12, 13, 14, 17, 18} }

  // ---- well-formed records --------------------------------------------------

  /** A known kind, a name in the string section, and members inside the type section. */
  predicate ShapeOk(d: Blob, h: Sections, off: nat)
    requires Fits(d, h)
  {
    && off + RECORD <= h.typeLen && Extra(Kind(d, h, off), Vlen(d, h, off)).Some? && Field(d, h, off, 0) < h.strLen
    && off + RECORD + 4 * Extra(Kind(d, h, off), Vlen(d, h, off)).value <= h.typeLen
  }

  /** Where the next record starts. */
  function Next(d: Blob, h: Sections, off: nat): nat
    requires Fits(d, h) && ShapeOk(d, h, off)
  {
    off + RECORD + 4 * Extra(Kind(d, h, off), Vlen(d, h, off)).value
  }

  /** Member `i` of a record of kind `kind`: its name and type, where it has them, exist. */
  predicate MemberOk(d: Blob, h: Sections, off: nat, n: nat, i: nat)
    requires Fits(d, h) && ShapeOk(d, h, off) && i < Vlen(d, h, off)
  {
    var kind := Kind(d, h, off);
    if kind == STRUCT || kind == UNION then Field(d, h, off, 3 + 3 * i) < h.strLen && Field(d, h, off, 4 + 3 * i) <= n
    else if kind == FUNC_PROTO then Field(d, h, off, 3 + 2 * i) < h.strLen && Field(d, h, off, 4 + 2 * i) <= n
    else if kind == ENUM then Field(d, h, off, 3 + 2 * i) < h.strLen
    else if kind == KIND_MAX then Field(d, h, off, 3 + 3 * i) < h.strLen
    else if kind == DATASEC then 0 < Field(d, h, off, 3 + 3 * i) <= n
    else true
  }

  /** Everything a record refers to exists, there being `n` types. */
  ghost predicate RefsOk(d: Blob, h: Sections, off: nat, n: nat)
    requires Fits(d, h) && ShapeOk(d, h, off)
  {
    && (Refers(Kind(d, h, off)) ==> Field(d, h, off, 2) <= n)
    && (Kind(d, h, off) == ARRAY ==> Field(d, h, off, 3) <= n && Field(d, h, off, 4) <= n)
    && forall i :: 0 <= i < Vlen(d, h, off) ==> MemberOk(d, h, off, n, i)
  }

  /** `recs` are the records of the type section, one after the other, from `from` to its end. */
  ghost predicate Chain(d: Blob, h: Sections, from: nat, recs: seq<nat>)
    requires Fits(d, h)
    decreases |recs|
  {
    if recs == [] then from == h.typeLen
    else recs[0] == from && ShapeOk(d, h, from) && Chain(d, h, Next(d, h, from), recs[1..])
  }

  /** The blob is well formed and `recs` are its types. */
  ghost predicate WellFormed(d: Blob, recs: seq<nat>) {
    && Header(d).Some? && var h := Header(d).value;
    && Fits(d, h) && Chain(d, h, 0, recs) && forall k :: 0 <= k < |recs| ==>
         ShapeOk(d, h, recs[k]) && RefsOk(d, h, recs[k], |recs|)
  }

  lemma {:induction false} ChainMore(d: Blob, h: Sections, from: nat, recs: seq<nat>, last: nat, rest: seq<nat>)
    requires Fits(d, h) && Walked(d, h, from, recs, last) && Chain(d, h, last, rest)
    ensures Chain(d, h, from, recs + rest)
    decreases |recs|
  {
    if recs == [] {
      assert recs + rest == rest;
    } else {
      ChainMore(d, h, Next(d, h, from), recs[1..], last, rest);
      assert (recs + rest)[1..] == recs[1..] + rest;
    }
  }

  /** `recs` lead from `from` to `to`. */
  ghost predicate Walked(d: Blob, h: Sections, from: nat, recs: seq<nat>, to: nat)
    requires Fits(d, h)
    decreases |recs|
  {
    if recs == [] then from == to
        else recs[0] == from && ShapeOk(d, h, from) && Walked(d, h, Next(d, h, from), recs[1..], to)
  }

  lemma {:induction false} WalkedOne(d: Blob, h: Sections, from: nat, recs: seq<nat>, to: nat)
    requires Fits(d, h) && Walked(d, h, from, recs, to) && ShapeOk(d, h, to)
    ensures Walked(d, h, from, recs + [to], Next(d, h, to))
    decreases |recs|
  {
    if recs == [] {
      assert ([] + [to])[1..] == [];
    } else {
      WalkedOne(d, h, Next(d, h, from), recs[1..], to);
      assert (recs + [to])[1..] == recs[1..] + [to];
    }
  }

  /** There is one way to read the section. */
  lemma {:induction false} ChainUnique(d: Blob, h: Sections, from: nat, a: seq<nat>, b: seq<nat>)
    requires Fits(d, h) && Chain(d, h, from, a) && Chain(d, h, from, b)
    ensures a == b
    decreases |a|
  {
    if a != [] && b != [] {
      ChainUnique(d, h, Next(d, h, from), a[1..], b[1..]);
      assert a == [a[0]] + a[1..] && b == [b[0]] + b[1..];
    }
  }

  /** What has been walked is the front of any reading of the whole. */
  lemma {:induction false} WalkedFront(d: Blob, h: Sections, from: nat, recs: seq<nat>, to: nat, all: seq<nat>)
    requires Fits(d, h) && Walked(d, h, from, recs, to) && Chain(d, h, from, all)
    ensures recs <= all && Chain(d, h, to, all[|recs|..])
    decreases |recs|
  {
    if recs == [] {
      assert all[0..] == all;
    } else {
      WalkedFront(d, h, Next(d, h, from), recs[1..], to, all[1..]);
      assert all == [all[0]] + all[1..] && recs == [recs[0]] + recs[1..];
      assert all[|recs|..] == all[1..][|recs| - 1..];
    }
  }

  // ---- btf_parse ------------------------------------------------------------

  /** The first pass: the records one by one, or None at the first that is not one. */
  method Records(d: Blob, h: Sections) returns (n: Option<nat>, ghost recs: seq<nat>)
    requires Fits(d, h)
    ensures n.Some? ==> Chain(d, h, 0, recs) && n.value == |recs|
    ensures n.None? ==> forall all :: !Chain(d, h, 0, all)
  {
    var off, count := 0, 0;
    recs := [];
    while off < h.typeLen
      invariant off <= h.typeLen && Walked(d, h, 0, recs, off) && count == |recs|
      decreases h.typeLen - off
    {
      if !ShapeOk(d, h, off) {
        forall all ensures !Chain(d, h, 0, all) { StuckAt(d, h, recs, off, all); }
        return None, recs;
      }
      WalkedOne(d, h, 0, recs, off);
      recs := recs + [off];
      off := Next(d, h, off);
      count := count + 1;
    }
    ChainMore(d, h, 0, recs, off, []);
    assert recs + [] == recs;
    return Some(count), recs;
  }

  lemma StuckAt(d: Blob, h: Sections, recs: seq<nat>, off: nat, all: seq<nat>)
    requires Fits(d, h) && Walked(d, h, 0, recs, off) && off < h.typeLen && !ShapeOk(d, h, off)
    ensures !Chain(d, h, 0, all)
  {
    if Chain(d, h, 0, all) { WalkedFront(d, h, 0, recs, off, all); }
  }

  /** The loop over a record's members. */
  method Members(d: Blob, h: Sections, off: nat, n: nat) returns (ok: bool)
    requires Fits(d, h) && ShapeOk(d, h, off)
    ensures ok <==> forall i :: 0 <= i < Vlen(d, h, off) ==> MemberOk(d, h, off, n, i)
  {
    var vlen := Vlen(d, h, off);
    for i := 0 to vlen
      invariant forall j :: 0 <= j < i ==> MemberOk(d, h, off, n, j)
    {
      if !MemberOk(d, h, off, n, i) { return false; }
    }
    return true;
  }

  method References(d: Blob, h: Sections, off: nat, n: nat) returns (ok: bool)
    requires Fits(d, h) && ShapeOk(d, h, off)
    ensures ok <==> RefsOk(d, h, off, n)
  {
    var kind := Kind(d, h, off);
    if Refers(kind) && Field(d, h, off, 2) > n { return false; }
    if kind == ARRAY && (Field(d, h, off, 3) > n || Field(d, h, off, 4) > n) { return false; }
    ok := Members(d, h, off, n);
  }

  /** btf_parse: accepted exactly when well formed, with the number of its types. */
  method Parse(d: Blob) returns (n: Option<nat>, ghost recs: seq<nat>)
    ensures n.Some? ==> WellFormed(d, recs) && n.value == |recs|
    ensures n.None? ==> forall all :: !WellFormed(d, all)
  {
    recs := [];
    var header := Header(d);
    if header.None? { return None, []; }
    var h := header.value;
    assert Fits(d, h);
    n, recs := Records(d, h);
    if n.None? { return; }
    InChain(d, h, 0, recs);
    var off := 0;
    ghost var k := 0;
    assert recs[0..] == recs;
    while off < h.typeLen
      invariant off <= h.typeLen && k <= |recs| && Chain(d, h, off, recs[k..])
      invariant forall j :: 0 <= j < k ==> RefsOk(d, h, recs[j], |recs|)
      decreases h.typeLen - off
    {
      assert recs[k..][0] == recs[k] == off && recs[k..][1..] == recs[k + 1..];
      var ok := References(d, h, off, n.value);
      if !ok {
        forall all ensures !WellFormed(d, all) { BadReference(d, h, recs, k, all); }
        return None, recs;
      }
      off := Next(d, h, off);
      k := k + 1;
    }
    EndOfChain(d, h, recs, k);
  }

  lemma EndOfChain(d: Blob, h: Sections, recs: seq<nat>, k: nat)
    requires Fits(d, h) && k <= |recs| && Chain(d, h, h.typeLen, recs[k..])
    ensures k == |recs|
  {
  }

  lemma {:induction false} InChain(d: Blob, h: Sections, from: nat, recs: seq<nat>)
    requires Fits(d, h) && Chain(d, h, from, recs)
    ensures forall k :: 0 <= k < |recs| ==> ShapeOk(d, h, recs[k])
    decreases |recs|
  {
    if recs != [] {
      InChain(d, h, Next(d, h, from), recs[1..]);
      forall k | 0 <= k < |recs| ensures ShapeOk(d, h, recs[k]) { if k > 0 { assert recs[k] == recs[1..][k - 1]; } }
    }
  }

  lemma BadReference(d: Blob, h: Sections, recs: seq<nat>, k: nat, all: seq<nat>)
    requires Header(d) == Some(h) && Fits(d, h) && Chain(d, h, 0, recs) && k < |recs| && ShapeOk(d, h, recs[k])
    requires !RefsOk(d, h, recs[k], |recs|)
    ensures !WellFormed(d, all)
  {
    if Chain(d, h, 0, all) { ChainUnique(d, h, 0, recs, all); }
  }

  // ---- btf_type_kind --------------------------------------------------------

  /** btf_type_kind on an accepted blob: the kind of type `id`, counting from 1; 0 for any other number. */
  method TypeKind(d: Blob, id: u32, ghost recs: seq<nat>) returns (kind: nat)
    requires WellFormed(d, recs)
    ensures 1 <= id <= |recs| ==> kind == Kind(d, Header(d).value, recs[id - 1]) && 1 <= kind <= KIND_MAX
    ensures !(1 <= id <= |recs|) ==> kind == 0
  {
    var h := Header(d).value;
    var off, n := 0, 0;
    assert recs[0..] == recs;
    while off < h.typeLen
      invariant off <= h.typeLen && n <= |recs| && Chain(d, h, off, recs[n..]) && (id > 0 ==> id > n)
      decreases h.typeLen - off
    {
      assert recs[n..][0] == recs[n] == off && recs[n..][1..] == recs[n + 1..];
      n := n + 1;
      if n == id { return Kind(d, h, off); }
      off := Next(d, h, off);
    }
    EndOfChain(d, h, recs, n);
    return 0;
  }
}
