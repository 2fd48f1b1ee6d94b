// The other direction of the encoder's round trip: a word that the decoder accepts is the code
// of the instruction it decodes to, so encoder and decoder are inverse to each other.
module Reencode {
  import opened Words
  import opened BitStrings
  import opened Encoder

  predicate BitFields(w: Fields) {
    IsBits(w.f7) && IsBits(w.rs2) && IsBits(w.rs1) && IsBits(w.f3) && IsBits(w.rd) && IsBits(w.op)
  }

  lemma LayoutOfFields(s: string)
    requires |s| == 32
    ensures Layout(FieldsOf(s)) == s
  {
  }

  lemma FieldsAreBits(s: string)
    requires |s| == 32 && IsBits(s)
    ensures BitFields(FieldsOf(s))
  {
  }

  lemma {:induction false} FoundMajor(op: string, cs: seq<Major>)
    ensures FindMajor(op, cs).Some? ==> OpCode(FindMajor(op, cs).value) == op
  {
    if cs != [] && op != OpCode(cs[0]) {
      FoundMajor(op, cs[1..]);
    }
  }

  lemma RegisterBack(r: string)
    requires |r| == 5 && IsBits(r)
    ensures XReg(Value(r)) == r && Value(r) < 32
  {
    BitsOfValue(r);
    assert Pow2(4) == 16 && Pow2(5) == 32;
  }

  lemma SignedMod(m: string)
    requires m != [] && IsBits(m)
    ensures Signed(m) % Pow2(|m|) == Value(m) == Value(m) % Pow2(|m|)
  {
    var v, p := Value(m), Pow2(|m|);
    BitsOfValue(m);
    TopBitSet(v, |m|);
    ModSmall(v, p);
    if m[0] == '1' {
      ModNegative(Signed(m), p);
    }
  }

  lemma ImmIs(imm: int, m: string)
    requires m != [] && IsBits(m) && imm % Pow2(|m|) == Value(m)
    ensures ImmGen(imm, |m|) == m
  {
    ImmGenBits(imm, |m|);
    BitsOfValue(m);
  }

  /** Generating an immediate from what its bits read as gives the bits back. */
  lemma ImmBack(m: string, len: nat)
    requires |m| == len > 0 && IsBits(m)
    ensures ImmGen(Signed(m), len) == m && ImmGen(Value(m), len) == m
  {
    SignedMod(m);
    ImmIs(Signed(m), m);
    ImmIs(Value(m), m);
  }

  // ----- each format -----

  lemma BackI(w: Fields)
    requires Sized(w) && BitFields(w)
    ensures IFormat(ImmI(w), Value(w.rs1), w.f3, Value(w.rd), w.op) == Layout(w)
  {
    var m := w.f7 + w.rs2;
    ImmBack(m, IMM_LEN);
    RegisterBack(w.rs1);
    RegisterBack(w.rd);
  }

  lemma BackS(w: Fields)
    requires Sized(w) && BitFields(w)
    ensures SFormat(ImmS(w), Value(w.rs2), Value(w.rs1), w.f3, w.op) == Layout(w)
  {
    var m := w.f7 + w.rd;
    ImmBack(m, IMM_LEN);
    assert m[0..7] == w.f7 && m[7..12] == w.rd;
    RegisterBack(w.rs1);
    RegisterBack(w.rs2);
  }

  lemma BackB(w: Fields)
    requires Sized(w) && BitFields(w)
    ensures BFormat(ImmB(w), Value(w.rs2), Value(w.rs1), w.f3, w.op) == Layout(w)
  {
    var m := w.f7[..1] + w.rd[4..] + w.f7[1..] + w.rd[..4] + "0";
    ImmBack(m, B_IMM_LEN);
    assert [m[0]] + m[2..8] == w.f7 && m[8..12] + [m[1]] == w.rd;
    RegisterBack(w.rs1);
    RegisterBack(w.rs2);
    FormatB(m, w.rs2, w.rs1, w.f3, w.op);
  }

  lemma BackU(w: Fields)
    requires Sized(w) && BitFields(w)
    ensures UFormat(ImmU(w), Value(w.rd), w.op) == Layout(w)
  {
    ImmBack(w.f7 + w.rs2 + w.rs1 + w.f3, U_IMM_LEN);
    RegisterBack(w.rd);
  }

  /** The bits of a jump's immediate, in order. */
  function JumpBits(w: Fields): (m: string)
    requires Sized(w)
    ensures |m| == 21
  {
    w.f7[..1] + (w.rs1 + w.f3) + w.rs2[4..] + (w.f7[1..] + w.rs2[..4]) + "0"
  }

  lemma JumpUpper(w: Fields)
    requires Sized(w)
    ensures var m := JumpBits(w); [m[0]] + m[10..16] == w.f7 && m[16..20] + [m[9]] == w.rs2
  {
    var m := JumpBits(w);
    assert m[10..16] == w.f7[1..] && m[16..20] == w.rs2[..4] && [m[9]] == w.rs2[4..];
  }

  lemma JumpLower(w: Fields)
    requires Sized(w)
    ensures var m := JumpBits(w); m[1..6] == w.rs1 && m[6..9] == w.f3
  {
  }

  lemma BackJ(w: Fields)
    requires Sized(w) && BitFields(w)
    ensures JFormat(ImmJ(w), Value(w.rd), w.op) == Layout(w)
  {
    var m := JumpBits(w);
    ImmBack(m, J_IMM_LEN);
    JumpUpper(w);
    JumpLower(w);
    RegisterBack(w.rd);
    FormatJ(m, w.rd, w.op);
  }

  lemma BackR(w: Fields)
    requires Sized(w) && BitFields(w)
    ensures RFormat(w.f7, Value(w.rs2), Value(w.rs1), w.f3, Value(w.rd), w.op) == Layout(w)
  {
    RegisterBack(w.rd);
    RegisterBack(w.rs1);
    RegisterBack(w.rs2);
  }

  /** The fields of an accepted word, encoded again, make up the same word. */
  lemma FieldsBack(w: Fields, c: Major)
    requires Sized(w) && BitFields(w) && OpCode(c) == w.op && DecodeAs(w, c).Some?
    ensures Registers(DecodeAs(w, c).value) && Translate(DecodeAs(w, c).value) == Layout(w)
  {
    RegisterBack(w.rd);
    RegisterBack(w.rs1);
    RegisterBack(w.rs2);
    match c
    case OpAdd => BackR(w);
    case OpAddi => BackI(w);
    case OpJalr => BackI(w);
    case OpLoad => BackI(w);
    case OpSystem => assert "000000000000" == w.f7 + w.rs2;
    case OpBranch => BackB(w);
    case OpStore => BackS(w);
    case OpLui => BackU(w);
    case OpAuipc => BackU(w);
    case OpJal => BackJ(w);
  }

  /** Every 32-bit word the decoder accepts is the code of the instruction it decodes to. */
  lemma TranslateDecode(s: string)
    requires |s| == 32 && IsBits(s) && Decode(s).Some?
    ensures Registers(Decode(s).value) && Translate(Decode(s).value) == s
  {
    var w := FieldsOf(s);
    LayoutOfFields(s);
    FieldsAreBits(s);
    FoundMajor(w.op, MAJORS);
    FieldsBack(w, MajorOf(w.op).value);
  }
}
