/**
 * Field units of the AML interpreter (kernel/dev/aml.c; the encoding is section 20.2.5.2 of the ACPI specification): a
 * run of bits of an operation region, read and written through aligned accesses of 8, 16, 32 or 64 bits.
 */
module AmlFields {
  import opened Words
  import opened Memory

  /** A 64-bit value, least significant bit first. */
  type Word = w: seq<bool> | |w| == 64 witness Zero()

  function Zero(): seq<bool> { seq(64, _ => false) }

  /** An operation region's bits: little-endian, so bit 0 of byte 0 first. */
  type Region = seq<bool>

  // ---- the operations on words ----------------------------------------------

  function Bit(w: seq<bool>, k: int): bool { 0 <= k < |w| && w[k] }

  function Shl(w: Word, n: nat): Word { seq(64, k requires 0 <= k < 64 => Bit(w, k - n)) }

  function Shr(w: Word, n: nat): Word { seq(64, k requires 0 <= k < 64 => Bit(w, k + n)) }

  function Or(a: Word, b: Word): Word { seq(64, k requires 0 <= k < 64 => a[k] || b[k]) }

  function And(a: Word, b: Word): Word { seq(64, k requires 0 <= k < 64 => a[k] && b[k]) }

  function Not(a: Word): Word { seq(64, k requires 0 <= k < 64 => !a[k]) }

  /** (1 << n) - 1, all ones from 64 up */
  function Ones(n: nat): Word { seq(64, k requires 0 <= k < 64 => k < n) }

  /** The number a sequence of bits stands for. */
  function Value(bits: seq<bool>): nat { if bits == [] then 0 else (if bits[0] then 1 else 0) + 2 * Value(bits[1..]) }

  // ---- regions --------------------------------------------------------------

  datatype Result<T> = Ok(value: T) | ERegion | EUnsupp

  /** The access of `acc` bits at bit `at` is inside the region. */
  predicate Inside(r: Region, at: nat, acc: nat) { at + acc <= |r| }

  /** region_access, reading */
  function Fetch(r: Region, at: nat, acc: nat): Word
    requires Inside(r, at, acc) && acc <= 64
  {
    seq(64, k requires 0 <= k < 64 => k < acc && r[at + k])
  }

  /** region_access, writing: the low bits of the value */
  function Stored(r: Region, at: nat, acc: nat, v: Word): Region
    requires Inside(r, at, acc) && acc <= 64
  {
    seq(|r|, j requires 0 <= j < |r| => if at <= j < at + acc then v[j - at] else r[j])
  }

  // ---- fields ---------------------------------------------------------------

  /** Bit offset and length of a field, and its access and update flags. */
  datatype Field = Field(off: u32, len: u32, flags: byte)

  /** field_access_bits */
  function AccessBits(f: Field): (acc: nat)
    ensures acc in {8, 16, 32, 64}
  {
    match f.flags % 16
    case 1 => 8
    case 2 => 16
    case 3 => 32
    case 4 => 64
    case _ => if f.len <= 8 && f.off % 8 + f.len <= 8 then 8 else if f.len <= 16 then 16 else 32
  }

  /** 0 or 3 Preserve, 1 WriteAsOnes, 2 WriteAsZeros */
  function Update(f: Field): nat { f.flags / 32 % 4 }

  /** A whole number of accesses. */
  predicate Aligned(a: nat, acc: nat)
    requires acc > 0
    decreases a
  {
    a == 0 || (a >= acc && Aligned(a - acc, acc))
  }

  /** Where the access that covers bit `b` starts: b / acc accesses up. */
  function UnitOf(b: nat, acc: nat): (at: nat)
    requires acc > 0
    ensures at <= b < at + acc && Aligned(at, acc)
    decreases b
  {
    if b < acc then 0 else acc + UnitOf(b - acc, acc)
  }

  lemma {:induction false} UnitIsQuotient(b: nat, acc: nat)
    requires acc > 0
    ensures UnitOf(b, acc) == acc * (b / acc)
    decreases b
  {
    if b < acc {
      DivModUnique(b, acc, 0, b);
    } else {
      UnitIsQuotient(b - acc, acc);
      var q := (b - acc) / acc;
      assert b == acc * (q + 1) + (b - acc) % acc;
      DivModUnique(b, acc, q + 1, (b - acc) % acc);
      assert acc * (q + 1) == acc * q + acc;
    }
  }

  /** The accesses a field takes, from the first to past the last. */
  function First(f: Field): nat { UnitOf(f.off, AccessBits(f)) }

  /** bit_off + bit_len - 1 is worked out in 32 bits. */
  function LastBit(f: Field): nat { Low32(f.off + f.len - 1) }

  function Past(f: Field): nat { UnitOf(LastBit(f), AccessBits(f)) + AccessBits(f) }

  /** A field with bits, and with a last bit that 32 bits can number. */
  predicate Regular(f: Field) { f.len > 0 && f.off + f.len <= M32 }

  lemma RegularPast(f: Field)
    requires Regular(f)
    ensures LastBit(f) == f.off + f.len - 1 && First(f) < Past(f) && f.off + f.len <= Past(f)
  {
    assert UnitOf(LastBit(f), AccessBits(f)) <= LastBit(f);
  }

  /**
   * Of the others, one that ends past what 32 bits can number has no accesses, and an empty one has bit 0's, or its
   * first, or none.
   */
  lemma IrregularPast(f: Field)
    requires f.len <= 64 && !Regular(f)
    ensures f.len > 0 ==> Past(f) <= First(f)
    ensures f.len == 0 && f.off == 0 ==> First(f) == 0 && Past(f) == M32
    ensures f.len == 0 && f.off > 0 ==> Past(f) <= First(f) || Past(f) == First(f) + AccessBits(f)
  {
    var acc := AccessBits(f);
    if f.len == 0 && f.off == 0 {
      assert LastBit(f) == M32 - 1;
      UnitIsQuotient(M32 - 1, acc);
    } else if f.len == 0 {
      assert LastBit(f) == f.off - 1;
      var last := Past(f) - acc;
      if last > First(f) { WholeUnits(last, First(f), acc); }
      if last < First(f) { WholeUnits(First(f), last, acc); }
    } else {
      assert LastBit(f) == f.off + f.len - 1 - M32;
    }
  }

  /** How far into the region a read looks: of an empty field at bit 0, until it has 64 bits and one access more. */
  function ReadPast(f: Field): nat {
    if Past(f) <= First(f) then 0 else if f.len == 0 && f.off == 0 then 64 + AccessBits(f) else Past(f)
  }

  /** Starts of accesses lie whole accesses apart. */
  lemma {:induction false} WholeUnits(a: nat, b: nat, acc: nat)
    requires acc > 0 && Aligned(a, acc) && Aligned(b, acc) && a > b
    ensures a >= b + acc
    decreases b
  {
    if b > 0 { WholeUnits(a - acc, b - acc, acc); }
  }

  /** The field's own bits. */
  function FieldBits(r: Region, f: Field): Word
    requires f.off + f.len <= |r|
  {
    seq(64, k requires 0 <= k < 64 => k < f.len && r[f.off + k])
  }

  /** `v` has the first `n` bits of the field and nothing else. */
  ghost predicate Gathered(r: Region, f: Field, v: Word, n: nat) {
    forall k :: 0 <= k < 64 ==> v[k] == (k < n && Bit(r, f.off + k))
  }

  lemma GatherFirst(r: Region, f: Field, v: Word, acc: nat, at: nat, lo: nat)
    requires acc <= 64 && Inside(r, at, acc) && at + lo == f.off && lo < acc && Gathered(r, f, v, 0)
    ensures Gathered(r, f, Or(v, Shl(Shr(Fetch(r, at, acc), lo), 0)), acc - lo)
  {
    var unit := Fetch(r, at, acc);
    forall k | 0 <= k < 64
      ensures Shl(Shr(unit, lo), 0)[k] == (k < acc - lo && Bit(r, f.off + k))
    {
      assert Shr(unit, lo)[k] == Bit(unit, k + lo);
      if k + lo < 64 { assert unit[k + lo] == (k + lo < acc && r[at + (k + lo)]); }
    }
  }

  lemma GatherMore(r: Region, f: Field, v: Word, acc: nat, at: nat, shift: nat)
    requires acc <= 64 && Inside(r, at, acc) && at == f.off + shift && Gathered(r, f, v, shift)
    ensures Gathered(r, f, Or(v, Shl(Fetch(r, at, acc), shift)), shift + acc)
  {
    var unit := Fetch(r, at, acc);
    forall k | 0 <= k < 64
      ensures Shl(unit, shift)[k] == (shift <= k < shift + acc && Bit(r, f.off + k))
    {
      assert Shl(unit, shift)[k] == Bit(unit, k - shift);
      if shift <= k {
        var j := k - shift;
        assert at + j == f.off + k;
        assert unit[j] == (j < acc && r[at + j]);
      }
    }
  }

  lemma GatheredAll(r: Region, f: Field, v: Word, n: nat)
    requires Gathered(r, f, v, n) && 0 < f.len <= 64 && f.len <= n && f.off + f.len <= |r|
    ensures (if f.len < 64 then And(v, Ones(f.len)) else v) == FieldBits(r, f)
  {
  }

  lemma SixtyFour(at: nat, acc: nat)
    requires acc in {8, 16, 32, 64} && Aligned(at, acc) && at < 64 + acc
    ensures at <= 64
  {
    assert UnitOf(64, acc) == 64 by { UnitIsQuotient(64, acc); }
    if at > 64 { WholeUnits(at, 64, acc); }
  }

  /** An access at `at` that is not inside the region is one the read needs. */
  lemma ReadStops(r: Region, f: Field, at: nat)
    requires f.len <= 64 && First(f) <= at < Past(f) && Aligned(at, AccessBits(f)) && !Inside(r, at, AccessBits(f))
    requires f.len == 0 && f.off == 0 ==> at < 64 + AccessBits(f)
    ensures ReadPast(f) > |r|
  {
    var acc := AccessBits(f);
    var last := Past(f) - acc;
    if at > last { WholeUnits(at, last, acc); }
    if f.len == 0 && f.off == 0 { SixtyFour(at, acc); }
  }

  /** What a field reads as. */
  function ReadValue(r: Region, f: Field): Word
    requires Regular(f) ==> f.off + f.len <= |r|
  {
    if Regular(f) then FieldBits(r, f) else Zero()
  }

  /** Nothing of the value is left under an empty mask, or none was read. */
  lemma NothingRead(r: Region, f: Field, v: Word, n: nat)
    requires !Regular(f) && Gathered(r, f, v, n) && f.len <= 64 && (f.len > 0 ==> n == 0)
    ensures (if f.len < 64 then And(v, Ones(f.len)) else v) == Zero()
  {
  }

  /** field_read_int: the field's bits, if its accesses are all inside the region. */
  method ReadField(r: Region, f: Field) returns (v: Result<Word>)
    ensures f.len > 64 ==> v == EUnsupp
    ensures f.len <= 64 && ReadPast(f) > |r| ==> v == ERegion
    ensures f.len <= 64 && ReadPast(f) <= |r| ==> (Regular(f) ==> f.off + f.len <= |r|) && v == Ok(ReadValue(r, f))
  {
    if f.len > 64 { return EUnsupp; }
    if Regular(f) { RegularPast(f); } else { IrregularPast(f); }
    var acc := AccessBits(f);
    var lo := f.off - First(f);
    var at, last := First(f), Past(f) - acc;
    var out: Word := Zero();
    var shift: nat := 0;
    while at <= last
      invariant Aligned(at, acc) && First(f) <= at && (First(f) < Past(f) ==> at <= last + acc)
      invariant if at == First(f) then shift == 0 else shift == at - f.off && at <= |r|
      invariant Gathered(r, f, out, shift)
      invariant at > First(f) ==> First(f) < Past(f)
      invariant at > First(f) && f.len == 0 && f.off == 0 ==> at < 64 + acc
      decreases last + acc - at
    {
      if !Inside(r, at, acc) {
        ReadStops(r, f, at);
        return ERegion;
      }
      var unit := Fetch(r, at, acc);
      if at == First(f) {
        GatherFirst(r, f, out, acc, at, lo);
        unit := Shr(unit, lo);
      } else {
        GatherMore(r, f, out, acc, at, shift);
      }
      if shift >= 64 { break; }
      out := Or(out, Shl(unit, shift));
      shift := shift + (if at == First(f) then acc - lo else acc);
      if at < last { WholeUnits(last, at, acc); }
      at := at + acc;
    }
    if Regular(f) {
      WholeUnits(at, last, acc);
      GatheredAll(r, f, out, shift);
    } else {
      if f.len == 0 && f.off == 0 { SixtyFour(at, acc); } else if First(f) < Past(f) { WholeUnits(at, last, acc); }
      NothingRead(r, f, out, shift);
    }
    if f.len < 64 { out := And(out, Ones(f.len)); }
    return Ok(out);
  }

  // ---- writing --------------------------------------------------------------

  /** What the update rule leaves in a bit of a touched access outside the field. */
  function Outside(f: Field, was: bool): bool { if Update(f) == 1 then true else if Update(f) == 2 then false else was }

  /** The region after a write of `v`, as far as bit `to`. */
  function Written(r: Region, f: Field, v: Word, to: nat): Region
    requires f.len <= 64
  {
    seq(|r|, j requires 0 <= j < |r| =>
      if f.off <= j < f.off + f.len && j < to then v[j - f.off]
      else if First(f) <= j < to then Outside(f, r[j])
      else r[j])
  }

  /**
   * The bits of the field an access at `at` covers: from `lo` of the access, `take` of them, `consumed` having gone
   * before.
   */
  function Mask(take: nat, lo: nat): Word { if take >= 64 then Ones(64) else Shl(Ones(take), lo) }

  function Piece(v: Word, consumed: nat, lo: nat, take: nat): Word { And(Shl(Shr(v, consumed), lo), Mask(take, lo)) }

  lemma MaskBit(take: nat, lo: nat, k: nat)
    requires k < 64 && lo + take <= 64
    ensures Mask(take, lo)[k] == (lo <= k < lo + take)
  {
    if take < 64 { assert Shl(Ones(take), lo)[k] == Bit(Ones(take), k - lo); }
  }

  lemma PieceBit(v: Word, consumed: nat, lo: nat, take: nat, k: nat)
    requires k < 64 && lo + take <= 64 && consumed + take <= 64
    ensures Piece(v, consumed, lo, take)[k] == (lo <= k < lo + take && v[consumed + (k - lo)])
  {
    MaskBit(take, lo, k);
    assert Shl(Shr(v, consumed), lo)[k] == Bit(Shr(v, consumed), k - lo);
    if lo <= k < lo + take { assert Shr(v, consumed)[k - lo] == Bit(v, k - lo + consumed); }
  }

  /** The value the access at `at` writes, `was` being what is there. */
  function Unit(f: Field, v: Word, was: Word, acc: nat, consumed: nat, lo: nat, take: nat): Word {
    var piece, mask := Piece(v, consumed, lo, take), Mask(take, lo);
    if take == acc && lo == 0 then piece
    else if Update(f) == 1 then Or(piece, Not(mask))
    else if Update(f) == 2 then piece
    else Or(And(was, Not(mask)), piece)
  }

  lemma UnitBit(f: Field, v: Word, was: Word, acc: nat, consumed: nat, lo: nat, take: nat, k: nat)
    requires k < acc <= 64 && lo + take <= acc && consumed + take <= 64
    ensures Unit(f, v, was, acc, consumed, lo, take)[k] == if lo <= k < lo + take then v[consumed + (k - lo)]
            else Outside(f, was[k])
  {
    PieceBit(v, consumed, lo, take, k);
    MaskBit(take, lo, k);
  }

  /** One access more. */
  lemma WriteStep(r: Region, f: Field, v: Word, acc: nat, at: nat, consumed: nat, lo: nat, take: nat)
    requires 0 < f.len <= 64 && acc <= 64 && Inside(r, at, acc) && First(f) <= at && acc == AccessBits(f)
    requires lo == (if at == First(f) then f.off - First(f) else 0) && at + lo == f.off + consumed && consumed <= f.len
    requires take == (if f.len - consumed < acc - lo then f.len - consumed else acc - lo)
    ensures Stored(Written(r, f, v, at), at, acc, Unit(f, v, Fetch(Written(r, f, v, at), at, acc), acc, consumed, lo,
                                                       take)) == Written(r, f, v, at + acc)
  {
    var now := Written(r, f, v, at);
    var was := Fetch(now, at, acc);
    var unit := Unit(f, v, was, acc, consumed, lo, take);
    var then_ := Written(r, f, v, at + acc);
    assert |Stored(now, at, acc, unit)| == |then_|;
    forall j | 0 <= j < |r|
      ensures Stored(now, at, acc, unit)[j] == then_[j]
    {
      if at <= j < at + acc {
        var k := j - at;
        UnitBit(f, v, was, acc, consumed, lo, take, k);
        assert was[k] == now[at + k] == r[j];
        assert lo <= k < lo + take <==> f.off <= j < f.off + f.len;
      }
    }
  }

  /** An access of an empty field: the update rule is all there is to it. */
  lemma EmptyStep(r: Region, f: Field, v: Word, acc: nat, at: nat, lo: nat)
    requires f.len == 0 && Inside(r, at, acc) && First(f) <= at && acc == AccessBits(f) && lo < acc
    ensures Stored(Written(r, f, v, at), at, acc, Unit(f, v, Fetch(Written(r, f, v, at), at, acc), acc, 0, lo, 0))
            == Written(r, f, v, at + acc)
  {
    var now := Written(r, f, v, at);
    var was := Fetch(now, at, acc);
    var unit := Unit(f, v, was, acc, 0, lo, 0);
    assert |Stored(now, at, acc, unit)| == |Written(r, f, v, at + acc)|;
    forall j | 0 <= j < |r|
      ensures Stored(now, at, acc, unit)[j] == Written(r, f, v, at + acc)[j]
    {
      if at <= j < at + acc { UnitBit(f, v, was, acc, 0, lo, 0, j - at); }
    }
  }

  /** How many of the field's bits lie before `at`. */
  function Consumed(f: Field, at: nat): nat {
    if at <= f.off then 0 else if at - f.off < f.len then at - f.off else f.len
  }

  /** An access after the first starts on a bit of the field. */
  lemma ConsumedSoFar(f: Field, at: nat)
    requires 0 < f.len <= 64 && First(f) <= at < Past(f) && Aligned(at, AccessBits(f))
    ensures Regular(f) && (at > First(f) ==> f.off < at < f.off + f.len)
  {
    var acc := AccessBits(f);
    if !Regular(f) {
      IrregularPast(f);
      assert false;
    }
    RegularPast(f);
    var last := Past(f) - acc;
    if at > last { WholeUnits(at, last, acc); }
    if at > First(f) { WholeUnits(at, First(f), acc); }
  }

  lemma AllWritten(r: Region, f: Field, v: Word, at: nat)
    requires f.len <= 64 && Aligned(at, AccessBits(f)) && at >= Past(f) - AccessBits(f) + 1
    requires (First(f) < Past(f) ==> at <= Past(f))
    requires Past(f) <= First(f) ==> at == First(f)
    ensures Written(r, f, v, at) == Written(r, f, v, Past(f)) && (First(f) < Past(f) ==> at == Past(f))
  {
    var acc := AccessBits(f);
    if First(f) < Past(f) { WholeUnits(at, Past(f) - acc, acc); }
  }

  /** The first access of the field that is not inside the region is the one at `at`. */
  ghost predicate Stops(r: Region, f: Field, at: nat) {
    && First(f) <= at < Past(f) && Aligned(at, AccessBits(f))
    && !Inside(r, at, AccessBits(f)) && (at == First(f) || at <= |r|)
  }

  /** The accesses of a field that come to lie inside the region are written; the write succeeds if they all do. */
  class OpRegion {
    var bits: Region

    constructor (r: Region)
      ensures bits == r
    {
      bits := r;
    }

    /** field_write_int */
    method WriteField(f: Field, v: Word) returns (ok: Result<()>)
      modifies this
      ensures f.len > 64 ==> ok == EUnsupp && bits == old(bits)
      ensures f.len <= 64 ==> ok == if Past(f) <= First(f) || Past(f) <= |old(bits)| then Ok(()) else ERegion
      ensures f.len <= 64 && ok.Ok? ==> bits == Written(old(bits), f, v, Past(f))
      ensures ok == ERegion ==> exists at :: Stops(old(bits), f, at) && bits == Written(old(bits), f, v, at)
    {
      if f.len > 64 { return EUnsupp; }
      if Regular(f) { RegularPast(f); } else { IrregularPast(f); }
      ghost var r := bits;
      var acc := AccessBits(f);
      var at, last := First(f), Past(f) - acc;
      var consumed: nat := 0;
      assert Written(r, f, v, at) == r;
      while at <= last
        invariant Aligned(at, acc) && First(f) <= at && (First(f) < Past(f) ==> at <= last + acc)
        invariant bits == Written(r, f, v, at)
        invariant if at == First(f) then consumed == 0 else at <= |r| && consumed == Consumed(f, at)
        invariant at > First(f) ==> First(f) < Past(f)
        decreases last + acc - at
      {
        if !Inside(bits, at, acc) {
          assert Stops(r, f, at);
          return ERegion;
        }
        consumed := WriteUnit(f, v, at, consumed, r);
        if at < last { WholeUnits(last, at, acc); }
        at := at + acc;
      }
      AllWritten(r, f, v, at);
      return Ok(());
    }

    /** One access of the write. */
    method WriteUnit(f: Field, v: Word, at: nat, consumed: nat, ghost r: Region) returns (more: nat)
      requires f.len <= 64 && First(f) <= at < Past(f) && Aligned(at, AccessBits(f)) && Inside(bits, at, AccessBits(f))
      requires bits == Written(r, f, v, at)
      requires consumed == if at == First(f) then 0 else Consumed(f, at)
      modifies this
      ensures bits == Written(r, f, v, at + AccessBits(f)) && more == Consumed(f, at + AccessBits(f))
    {
      var acc := AccessBits(f);
      var lo := if at == First(f) then f.off - First(f) else 0;
      var take := if f.len - consumed < acc - lo then f.len - consumed else acc - lo;
      if f.len == 0 { EmptyStep(r, f, v, acc, at, lo); } else {
        ConsumedSoFar(f, at);
        WriteStep(r, f, v, acc, at, consumed, lo, take);
      }
      bits := Stored(bits, at, acc, Unit(f, v, Fetch(bits, at, acc), acc, consumed, lo, take));
      more := consumed + take;
    }
  }

  // ---- reading back ---------------------------------------------------------

  /** The low `n` bits of a word. */
  function Low(v: Word, n: nat): Word { And(v, Ones(n)) }

  /** Reading a field just written gives the value back, to the field's width, whatever the update rule. */
  lemma ReadsBack(r: Region, f: Field, v: Word)
    requires Regular(f) && f.len <= 64 && Past(f) <= |r|
    ensures f.off + f.len <= |r| && FieldBits(Written(r, f, v, Past(f)), f) == Low(v, f.len)
  {
    RegularPast(f);
    var w := Written(r, f, v, Past(f));
    assert |FieldBits(w, f)| == |Low(v, f.len)|;
    forall k | 0 <= k < 64
      ensures FieldBits(w, f)[k] == Low(v, f.len)[k]
    {
      if k < f.len { assert w[f.off + k] == v[f.off + k - f.off]; }
    }
  }

  /**
   * Reading back works for every value exactly when the field's last bit has a number: past 2^32 bits a field reads as
   * zero.
   */
  lemma ReadsBackIff(r: Region, f: Field)
    requires f.len <= 64 && (Regular(f) ==> Past(f) <= |r|)
    ensures Regular(f) ==> f.off + f.len <= |r|
    ensures (forall v: Word :: ReadValue(Written(r, f, v, Past(f)), f) == Low(v, f.len)) <==> f.off + f.len <= M32
  {
    if Regular(f) {
      RegularPast(f);
      forall v: Word ensures ReadValue(Written(r, f, v, Past(f)), f) == Low(v, f.len) { ReadsBack(r, f, v); }
    } else if f.len == 0 {
      forall v: Word ensures Low(v, 0) == Zero() { }
    } else {
      var v: Word := Ones(64);
      assert ReadValue(Written(r, f, v, Past(f)), f)[0] != Low(v, f.len)[0];
    }
  }

  /**
   * Under Preserve, no bit outside the field moves, however far the write gets; under any rule, none outside its
   * accesses.
   */
  lemma Preserves(r: Region, f: Field, v: Word, to: nat, j: nat)
    requires f.len <= 64 && j < |r| && !(f.off <= j < f.off + f.len)
    ensures Update(f) in {0, 3} ==> Written(r, f, v, to)[j] == r[j]
    ensures !(First(f) <= j < to) ==> Written(r, f, v, to)[j] == r[j]
  {
  }

  /** The low `n` bits are the value modulo 2^n. */
  lemma {:induction false} LowIsModulo(bits: seq<bool>, n: nat)
    requires n <= |bits|
    ensures Value(bits[..n]) < Pow2(n) && Value(bits[..n]) == Value(bits) % Pow2(n)
    decreases n
  {
    if n == 0 {
      assert bits[..0] == [];
    } else {
      var rest := bits[1..];
      LowIsModulo(rest, n - 1);
      assert bits[..n][1..] == rest[..n - 1];
      ModDouble(Value(rest), Pow2(n - 1), if bits[0] then 1 else 0);
    }
  }

  lemma ModDouble(x: nat, p: nat, b: nat)
    requires p > 0 && b < 2
    ensures (b + 2 * x) % (2 * p) == b + 2 * (x % p)
  {
    var q := x / p;
    assert x == p * q + x % p;
    assert b + 2 * x == (2 * p) * q + (b + 2 * (x % p)) by { assert 2 * (p * q) == (2 * p) * q; }
    DivModUnique(b + 2 * x, 2 * p, q, b + 2 * (x % p));
  }

  lemma {:induction false} ZerosAbove(bits: seq<bool>, n: nat)
    requires n <= |bits| && forall k :: n <= k < |bits| ==> !bits[k]
    ensures Value(bits) == Value(bits[..n])
    decreases |bits|
  {
    if bits == [] {
    } else if n == 0 {
      ZerosAbove(bits[1..], 0);
      assert bits[..0] == [] && bits[1..][..0] == [];
    } else {
      ZerosAbove(bits[1..], n - 1);
      assert bits[..n][1..] == bits[1..][..n - 1];
    }
  }

  /** As numbers: what is read back is the value written modulo two to the field's width. */
  lemma ReadsBackValue(r: Region, f: Field, v: Word)
    requires Regular(f) && f.len <= 64 && Past(f) <= |r|
    ensures f.off + f.len <= |r| && Value(FieldBits(Written(r, f, v, Past(f)), f)) == Value(v) % Pow2(f.len)
  {
    ReadsBack(r, f, v);
    var w := Low(v, f.len);
    ZerosAbove(w, f.len);
    LowIsModulo(v, f.len);
    assert w[..f.len] == v[..f.len];
  }
}
