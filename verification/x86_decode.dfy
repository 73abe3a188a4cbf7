/** The decoder undoes the emitters, for every register, width, immediate and displacement. */
module X86Decode {
  import opened Words
  import opened X86

  lemma Le32Round(v: u32, rest: seq<byte>)
    ensures UnLe32(Le32(v) + rest) == v
  {
    assert v == v % 256 + 256 * (v / 256);
    assert v / 0x1_0000 == (v / 256) / 256;
    assert v / 0x100_0000 == (v / 0x1_0000) / 256;
  }

  // ---- prefixes -------------------------------------------------------------

  /** The first byte of an instruction proper is no prefix. */
  predicate Body(body: seq<byte>) { |body| > 0 && !(0x40 <= body[0] < 0x50) && body[0] != 0x66 }

  function PreOf(p: PrefixBits): Pre { Pre(p.short, Rex(p.w, p.r, p.b, p.force) != [], p.w, p.r, p.b) }

  lemma RexRound(p: PrefixBits, body: seq<byte>)
    requires Body(body)
    ensures DecodeRex(p.short, Rex(p.w, p.r, p.b, p.force) + body) == (PreOf(p), |Rex(p.w, p.r, p.b, p.force)|)
  {
  }

  lemma PrefixRound(p: PrefixBits, body: seq<byte>)
    requires Body(body)
    ensures DecodePrefixes(Prefix(p) + body) == (PreOf(p), |Prefix(p)|)
  {
    RexRound(p, body);
    var rx := Rex(p.w, p.r, p.b, p.force);
    if p.short {
      assert (Prefix(p) + body)[1..] == rx + body;
    } else {
      assert Prefix(p) == rx;
    }
  }

  // ---- operands -------------------------------------------------------------

  lemma ModRound(p: Pre, r: reg, rm: reg, rest: seq<byte>)
    requires p.r == (r >= 8) && p.b == (rm >= 8)
    ensures DecodeModRm(p, [ModRr(r, rm)] + rest) == Some(ModRm(r % 8, r, RegOp(rm), 1))
  {
    RegByte(r % 8, rm % 8);
    RegForm(p, [ModRr(r, rm)] + rest, r % 8, rm % 8);
    ExtRound(r);
    ExtRound(rm);
  }

  /** The fields of a ModRM byte that names a register. */
  lemma RegByte(field: int, low: int)
    requires 0 <= field < 8 && 0 <= low < 8
    ensures var b := 0xC0 + 8 * field + low; b >= 0xC0 && (b / 8) % 8 == field && b % 8 == low
  {
  }

  lemma RegForm(p: Pre, bs: seq<byte>, field: int, low: int)
    requires bs != [] && bs[0] >= 0xC0 && 0 <= field < 8 && 0 <= low < 8 && (bs[0] / 8) % 8 == field && bs[0] % 8 == low
    ensures DecodeModRm(p, bs) == Some(ModRm(field, Ext(p.r, field), RegOp(Ext(p.b, low)), 1))
  {
  }

  lemma MemRound(p: Pre, r: reg, base: reg, disp: u32, rest: seq<byte>)
    requires p.r == (r >= 8) && p.b == (base >= 8)
    ensures DecodeModRm(p, MemOperand(r, base, disp) + rest)
            == Some(ModRm(r % 8, r, MemOp(base, disp), |MemOperand(r, base, disp)|))
  {
    Le32Round(disp, rest);
    if base % 8 == 4 {
      SibRound(p, r, base, disp, Le32(disp), rest);
    } else {
      BaseRound(p, r, base, disp, Le32(disp), rest);
    }
  }

  lemma SibRound(p: Pre, r: reg, base: reg, disp: u32, ds: seq<byte>, rest: seq<byte>)
    requires p.r == (r >= 8) && p.b == (base >= 8) && base % 8 == 4 && |ds| == 4 && UnLe32(ds + rest) == disp
    ensures DecodeModRm(p, [0x80 + 8 * (r % 8) + base % 8] + [0x24] + ds + rest)
            == Some(ModRm(r % 8, r, MemOp(base, disp), 6))
  {
    var first: byte := 0x80 + 8 * (r % 8) + base % 8;
    var bs := [first] + [0x24] + ds + rest;
    ModByte(r % 8, base % 8);
    assert bs[2..] == ds + rest;
    SibForm(p, bs, r % 8);
    ExtRound(r);
    ExtRound(base);
  }

  lemma BaseRound(p: Pre, r: reg, base: reg, disp: u32, ds: seq<byte>, rest: seq<byte>)
    requires p.r == (r >= 8) && p.b == (base >= 8) && base % 8 != 4 && |ds| == 4 && UnLe32(ds + rest) == disp
    ensures DecodeModRm(p, [0x80 + 8 * (r % 8) + base % 8] + [] + ds + rest)
            == Some(ModRm(r % 8, r, MemOp(base, disp), 5))
  {
    var first: byte := 0x80 + 8 * (r % 8) + base % 8;
    var bs := [first] + [] + ds + rest;
    ModByte(r % 8, base % 8);
    assert bs[1..] == ds + rest;
    BaseForm(p, bs, r % 8, base % 8);
    ExtRound(r);
    ExtRound(base);
  }

  /** The fields of a ModRM byte that names memory. */
  lemma ModByte(field: int, low: int)
    requires 0 <= field < 8 && 0 <= low < 8
    ensures var b := 0x80 + 8 * field + low; b / 64 == 2 && (b / 8) % 8 == field && b % 8 == low
  {
  }

  lemma BaseForm(p: Pre, bs: seq<byte>, field: int, low: int)
    requires |bs| >= 5 && bs[0] / 64 == 2 && 0 <= field < 8 && 0 <= low < 8 && low != 4
    requires (bs[0] / 8) % 8 == field && bs[0] % 8 == low && bs[0] < 0xC0
    ensures DecodeModRm(p, bs) == Some(ModRm(field, Ext(p.r, field), MemOp(Ext(p.b, low), UnLe32(bs[1..])), 5))
  {
  }

  lemma SibForm(p: Pre, bs: seq<byte>, field: int)
    requires |bs| >= 6 && bs[0] / 64 == 2 && 0 <= field < 8 && bs[1] == 0x24
    requires (bs[0] / 8) % 8 == field && bs[0] % 8 == 4 && bs[0] < 0xC0
    ensures DecodeModRm(p, bs) == Some(ModRm(field, Ext(p.r, field), MemOp(Ext(p.b, 4), UnLe32(bs[2..])), 6))
  {
  }

  // ---- opcodes --------------------------------------------------------------

  /** Opcodes that a ModRM byte follows. */
  predicate HasModRm(code: byte) {
    Body([code]) && code != 0x0F && code != 0xC3 && code != 0xE9 && !(0x50 <= code < 0x60) && !(0xB8 <= code < 0xC0)
  }

  /** An opcode and its operand, with `after` behind them. */
  lemma OperandOp(p: Pre, code: byte, operand: seq<byte>, after: seq<byte>, m: ModRm)
    requires HasModRm(code) && DecodeModRm(p, operand + after) == Some(m) && m.len == |operand|
    ensures DecodeOp(p, [code] + operand + after) ==
              if TakesImm(code, m.field) then DecodeImm(p, code, m, after) else DecodePlain(p, code, 1, m)
  {
    var bs := [code] + operand + after;
    assert bs[1..] == operand + after;
    assert bs[1 + m.len..] == after;
  }

  lemma RegisterOp(p: Pre, code: byte, r: reg, rm: reg, after: seq<byte>)
    requires HasModRm(code) && p.r == (r >= 8) && p.b == (rm >= 8)
    ensures DecodeOp(p, [code, ModRr(r, rm)] + after) ==
              var m := ModRm(r % 8, r, RegOp(rm), 1);
              if TakesImm(code, r % 8) then DecodeImm(p, code, m, after) else DecodePlain(p, code, 1, m)
  {
    ModRound(p, r, rm, after);
    OperandOp(p, code, [ModRr(r, rm)], after, ModRm(r % 8, r, RegOp(rm), 1));
    assert [code, ModRr(r, rm)] + after == [code] + [ModRr(r, rm)] + after;
  }

  lemma MemoryOp(p: Pre, code: byte, r: reg, base: reg, disp: u32, after: seq<byte>)
    requires HasModRm(code) && p.r == (r >= 8) && p.b == (base >= 8)
    ensures DecodeOp(p, [code] + MemOperand(r, base, disp) + after) ==
              var m := ModRm(r % 8, r, MemOp(base, disp), |MemOperand(r, base, disp)|);
              if TakesImm(code, r % 8) then DecodeImm(p, code, m, after) else DecodePlain(p, code, 1, m)
  {
    MemRound(p, r, base, disp, after);
    OperandOp(p, code, MemOperand(r, base, disp), after, ModRm(r % 8, r, MemOp(base, disp),
                                                               |MemOperand(r, base, disp)|));
  }

  // ---- instruction by instruction -------------------------------------------

  /** The instruction proper decodes to itself under its own prefixes. */
  predicate TailDecodes(x: X, rest: seq<byte>) {
    DecodeOp(PreOf(Bits(x)), Tail(x) + rest) == Some(Decoded(x, |Tail(x)|))
  }

  lemma RrTail(x: X, rest: seq<byte>)
    requires x.Rr?
    ensures TailDecodes(x, rest)
  {
    RegisterOp(PreOf(Bits(x)), RrCode(x.rop), x.src, x.dst, rest);
    assert RrOf(RrCode(x.rop)) == Some(x.rop);
  }

  lemma PlainTail(x: X, rest: seq<byte>)
    requires x.Neg? || x.ShiftCl? || x.CallRax?
    ensures TailDecodes(x, rest)
  {
    var p := PreOf(Bits(x));
    match x
    case Neg(_, d) => RegisterOp(p, 0xF7, 3, d, rest);
    case ShiftCl(op, _, d) => RegisterOp(p, 0xD3, ShiftDigit(op), d, rest);
    case CallRax => RegisterOp(p, 0xFF, 2, 0, rest);
  }

  lemma ImmTail(x: X, code: byte, r: reg, rm: reg, imm: seq<byte>, rest: seq<byte>)
    requires Tail(x) == [code, ModRr(r, rm)] + imm && HasModRm(code) && TakesImm(code, r % 8)
    requires Bits(x).r == (r >= 8) && Bits(x).b == (rm >= 8)
    requires DecodeImm(PreOf(Bits(x)), code, ModRm(r % 8, r, RegOp(rm), 1), imm + rest) == Some(Decoded(x, 2 + |imm|))
    ensures TailDecodes(x, rest)
  {
    RegisterOp(PreOf(Bits(x)), code, r, rm, imm + rest);
    Together([code, ModRr(r, rm)], imm, rest);
  }

  lemma Together(a: seq<byte>, b: seq<byte>, c: seq<byte>)
    ensures a + b + c == a + (b + c)
  {
  }

  lemma RiTail(x: X, rest: seq<byte>)
    requires x.Ri? || x.MovImm?
    ensures TailDecodes(x, rest)
  {
    if x.Ri? { AluImmTail(x, rest); } else { MovImmTail(x, rest); }
  }

  lemma AluImmTail(x: X, rest: seq<byte>)
    requires x.Ri?
    ensures TailDecodes(x, rest)
  {
    Le32Round(x.imm, rest);
    ImmTail(x, 0x81, RiDigit(x.iop), x.dst, Le32(x.imm), rest);
  }

  lemma MovImmTail(x: X, rest: seq<byte>)
    requires x.MovImm?
    ensures TailDecodes(x, rest)
  {
    Le32Round(x.imm, rest);
    ImmTail(x, 0xC7, 0, x.dst, Le32(x.imm), rest);
  }

  lemma TestTail(x: X, rest: seq<byte>)
    requires x.TestImm? || x.ImulRi? || x.ShiftImm?
    ensures TailDecodes(x, rest)
  {
    match x
    case TestImm(w, d, imm) => Le32Round(imm, rest); ImmTail(x, 0xF7, 0, d, Le32(imm), rest);
    case ImulRi(w, d, imm) => Le32Round(imm, rest); ImmTail(x, 0x69, d, d, Le32(imm), rest);
    case ShiftImm(op, w, d, n) => ImmTail(x, 0xC1, ShiftDigit(op), d, [n], rest);
  }

  lemma ImulTail(x: X, rest: seq<byte>)
    requires x.ImulRr?
    ensures TailDecodes(x, rest)
  {
    var body := Tail(x) + rest;
    ModRound(PreOf(Bits(x)), x.dst, x.src, rest);
    assert body[1..][1..] == [ModRr(x.dst, x.src)] + rest;
  }

  lemma WideLoadTail(x: X, rest: seq<byte>)
    requires x.LoadX? && (x.size == 4 || x.size == 8)
    ensures TailDecodes(x, rest)
  {
    MemoryOp(PreOf(Bits(x)), 0x8B, x.dst, x.base, x.disp, rest);
  }

  lemma NarrowLoadTail(x: X, rest: seq<byte>)
    requires x.LoadX? && (x.size == 1 || x.size == 2)
    ensures TailDecodes(x, rest)
  {
    var body := Tail(x) + rest;
    MemRound(PreOf(Bits(x)), x.dst, x.base, x.disp, rest);
    assert body[1..][1..] == MemOperand(x.dst, x.base, x.disp) + rest;
  }

  /** Including the byte store whose source needs a REX prefix to be named at all. */
  lemma StoreTail(x: X, rest: seq<byte>)
    requires x.StoreX? && Emittable(x)
    ensures TailDecodes(x, rest)
  {
    MemoryOp(PreOf(Bits(x)), if x.size == 1 then 0x88 else 0x89, x.src, x.base, x.disp, rest);
  }

  lemma StoredImm(x: X, m: ModRm, rest: seq<byte>)
    requires x.StoreImm? && Emittable(x) && m.field == 0 && m.rm == MemOp(x.base, x.disp)
    ensures DecodeImm(PreOf(Bits(x)), if x.size == 1 then 0xC6 else 0xC7, m, ImmBytes(x.size, x.imm) + rest)
            == Some(Decoded(x, 1 + m.len + |ImmBytes(x.size, x.imm)|))
  {
    if x.size >= 4 { Le32Round(x.imm, rest); }
  }

  lemma Regroup(a: seq<byte>, b: seq<byte>, c: seq<byte>, d: seq<byte>)
    ensures a + b + c + d == a + b + (c + d)
  {
  }

  lemma StoreImmTail(x: X, rest: seq<byte>)
    requires x.StoreImm? && Emittable(x)
    ensures TailDecodes(x, rest)
  {
    var imm := ImmBytes(x.size, x.imm);
    var code: byte := if x.size == 1 then 0xC6 else 0xC7;
    MemoryOp(PreOf(Bits(x)), code, 0, x.base, x.disp, imm + rest);
    StoredImm(x, ModRm(0, 0, MemOp(x.base, x.disp), |MemOperand(0, x.base, x.disp)|), rest);
    Regroup([code], MemOperand(0, x.base, x.disp), imm, rest);
  }

  lemma MovAbsOp(p: Pre, d: reg, tail: seq<byte>)
    requires p.w && p.b == (d >= 8) && |tail| >= 8
    ensures DecodeOp(p, [0xB8 + d % 8] + tail) == Some(Decoded(MovAbs(d, UnLe64(tail)), 9))
  {
    var bs := [0xB8 + d % 8] + tail;
    assert bs[1..] == tail;
    ExtRound(d);
    AbsOp(p, bs);
  }

  lemma AbsOp(p: Pre, bs: seq<byte>)
    requires p.w && |bs| >= 9 && 0xB8 <= bs[0] < 0xC0
    ensures DecodeOp(p, bs) == Some(Decoded(MovAbs(Ext(p.b, bs[0] - 0xB8), UnLe64(bs[1..])), 9))
  {
  }

  lemma ExtRound(d: reg)
    ensures Ext(d >= 8, d % 8) == d
  {
  }

  lemma MovAbsTail(d: reg, v: u64, rest: seq<byte>)
    ensures TailDecodes(MovAbs(d, v), rest)
  {
    var bs := Le64(v);
    Le64Round(v, rest);
    MovAbsOp(PreOf(Bits(MovAbs(d, v))), d, bs + rest);
    Together([0xB8 + d % 8], bs, rest);
  }

  lemma Le64Round(v: u64, rest: seq<byte>)
    ensures UnLe64(Le64(v) + rest) == v
  {
    var lo, hi := Le32(v % M32), Le32(v / M32);
    Le32Round(v % M32, hi + rest);
    Le32Round(v / M32, rest);
    assert Le64(v) + rest == lo + (hi + rest);
    assert (lo + (hi + rest))[4..] == hi + rest;
  }

  lemma StackTail(x: X, rest: seq<byte>)
    requires x.Push? || x.Pop? || x.Ret?
    ensures TailDecodes(x, rest)
  {
  }

  lemma JumpTail(x: X, rest: seq<byte>)
    requires x.Jcc? || x.Jmp?
    ensures TailDecodes(x, rest)
  {
    var body := Tail(x) + rest;
    Le32Round(x.rel, rest);
    match x
    case Jcc(_, rel) => assert body[1..][1..] == Le32(rel) + rest;
    case Jmp(rel) => assert body[1..] == Le32(rel) + rest;
  }

  lemma TailRound(x: X, rest: seq<byte>)
    requires Emittable(x)
    ensures TailDecodes(x, rest)
  {
    match x
    case Rr(_, _, _, _) => RrTail(x, rest);
    case Neg(_, _) => PlainTail(x, rest);
    case ShiftCl(_, _, _) => PlainTail(x, rest);
    case CallRax => PlainTail(x, rest);
    case Ri(_, _, _, _) => RiTail(x, rest);
    case MovImm(_, _, _) => RiTail(x, rest);
    case TestImm(_, _, _) => TestTail(x, rest);
    case ImulRi(_, _, _) => TestTail(x, rest);
    case ShiftImm(_, _, _, _) => TestTail(x, rest);
    case ImulRr(_, _, _) => ImulTail(x, rest);
    case LoadX(size, _, _, _) => if size >= 4 { WideLoadTail(x, rest); } else { NarrowLoadTail(x, rest); }
    case StoreX(_, _, _, _) => StoreTail(x, rest);
    case StoreImm(_, _, _, _) => StoreImmTail(x, rest);
    case MovAbs(d, v) => MovAbsTail(d, v, rest);
    case Push(_) => StackTail(x, rest);
    case Pop(_) => StackTail(x, rest);
    case Ret => StackTail(x, rest);
    case Jcc(_, _) => JumpTail(x, rest);
    case Jmp(_) => JumpTail(x, rest);
  }

  lemma TailIsBody(x: X, rest: seq<byte>)
    ensures Body(Tail(x) + rest)
  {
  }

  /** Whatever an emitter wrote, the decoder reads back: the same instruction, and where the next one starts. */
  lemma DecodeEncode(x: X, rest: seq<byte>)
    requires Emittable(x)
    ensures Decode(Encode(x) + rest) == Some(Decoded(x, |Encode(x)|))
  {
    TailIsBody(x, rest);
    TailRound(x, rest);
    DecodePrefixed(Bits(x), Tail(x) + rest, Decoded(x, |Tail(x)|));
    Together(Prefix(Bits(x)), Tail(x), rest);
  }

  /** An instruction proper decodes behind its prefixes as it does on its own. */
  lemma DecodePrefixed(b: PrefixBits, body: seq<byte>, d: Decoded)
    requires Body(body) && DecodeOp(PreOf(b), body) == Some(d)
    ensures Decode(Prefix(b) + body) == Some(Decoded(d.x, |Prefix(b)| + d.len))
  {
    PrefixRound(b, body);
    var bs := Prefix(b) + body;
    assert bs[|Prefix(b)|..] == body;
  }
}
