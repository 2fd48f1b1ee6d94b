// The hexadecimal form in which encoded instructions are stored (`bin2hex` of
// src/rcu/data/data_gen.py) and how the unit tests read fields out of it (ut/params.py).
module InstrHex {
  import opened Words
  import opened BitStrings
  import opened Encoder

  const WORD_LEN: nat := 32
  const HEX_LEN: nat := WORD_LEN / 4

  const HEX_DIGITS: string := "0123456789abcdef"

  function HexOf(v: nat): char
    requires v < 16
  {
    HEX_DIGITS[v]
  }

  function DigitOf(c: char): nat {
    if '0' <= c <= '9' then c as nat - '0' as nat
    else if 'a' <= c <= 'f' then 10 + (c as nat - 'a' as nat)
    else 0
  }

  lemma DigitOfHex(v: nat)
    requires v < 16
    ensures DigitOf(HexOf(v)) == v
    ensures HexOf(v) as nat == if v < 10 then '0' as nat + v else 'a' as nat + (v - 10)
  {
  }

  /** The first `k` hexadecimal digits of a bit string, four bits each. */
  function HexPrefix(s: string, k: nat): (h: string)
    requires IsBits(s) && 4 * k <= |s|
    ensures |h| == k
  {
    if k == 0 then []
    else
      NibbleBound(s[4 * (k - 1)..4 * k]);
      HexPrefix(s, k - 1) + [HexOf(Value(s[4 * (k - 1)..4 * k]))]
  }

  lemma NibbleBound(s: string)
    requires IsBits(s) && |s| == 4
    ensures Value(s) < 16
  {
    BitsOfValue(s);
    assert Pow2(4) == 16;
  }

  /** `bin2hex`: four bits at a time through the table; a shorter rest is left off. */
  method Bin2Hex(s: string) returns (h: string)
    requires IsBits(s)
    ensures h == HexPrefix(s, |s| / 4)
  {
    h := [];
    var i := 0;
    while i < |s| / 4
      invariant 0 <= i <= |s| / 4 && h == HexPrefix(s, i)
    {
      NibbleBound(s[4 * i..4 * i + 4]);
      h := h + [HexOf(Value(s[4 * i..4 * i + 4]))];
      i := i + 1;
    }
  }

  /** Python's int(h, 16). */
  function HexValue(h: string): nat {
    if h == [] then 0 else 16 * HexValue(h[..|h| - 1]) + DigitOf(h[|h| - 1])
  }

  /** `bin_instr`: back to binary, filled up to 32 bits behind the prefix. */
  function BinInstr(h: string): string {
    var bits := Bin(HexValue(h));
    "0b" + (Zeros(WORD_LEN - |bits|) + bits)
  }

  lemma {:induction false} ValueConcat(a: string, b: string)
    ensures Value(a + b) == Value(a) * Pow2(|b|) + Value(b)
    decreases |b|
  {
    if b == [] {
      assert a + b == a;
    } else {
      var f := b[..|b| - 1];
      ValueConcat(a, f);
      assert (a + b)[..|a + b| - 1] == a + f;
      LastBit(Value(a), Pow2(|f|), Value(f), BitOf(b[|b| - 1]));
    }
  }

  lemma LastBit(x: nat, p: nat, y: nat, b: nat)
    ensures 2 * (x * p + y) + b == x * (2 * p) + (2 * y + b)
  {
  }

  lemma NibbleStep(front: string, digit: string)
    requires |digit| == 4
    ensures Value(front + digit) == 16 * Value(front) + Value(digit)
  {
    ValueConcat(front, digit);
    assert Pow2(4) == 16;
  }

  lemma HexPrefixStep(s: string, k: nat)
    requires IsBits(s) && 0 < k && 4 * k <= |s|
    ensures HexValue(HexPrefix(s, k)) == 16 * HexValue(HexPrefix(s, k - 1)) + Value(s[4 * (k - 1)..4 * k])
  {
    var digit := s[4 * (k - 1)..4 * k];
    NibbleBound(digit);
    DigitOfHex(Value(digit));
    HexSnoc(HexPrefix(s, k - 1), HexOf(Value(digit)));
  }

  lemma {:induction false} HexValueOfPrefix(s: string, k: nat)
    requires IsBits(s) && 4 * k <= |s|
    ensures HexValue(HexPrefix(s, k)) == Value(s[..4 * k])
    decreases k
  {
    if k > 0 {
      HexPrefixStep(s, k);
      HexValueOfPrefix(s, k - 1);
      assert s[..4 * k] == s[..4 * (k - 1)] + s[4 * (k - 1)..4 * k];
      NibbleStep(s[..4 * (k - 1)], s[4 * (k - 1)..4 * k]);
    }
  }

  lemma HexSnoc(h: string, c: char)
    ensures HexValue(h + [c]) == 16 * HexValue(h) + DigitOf(c)
  {
    assert (h + [c])[..|h|] == h;
  }

  /** Reading the stored form of a 32-bit code gives the code back. */
  lemma BinInstrInverts(s: string)
    requires |s| == WORD_LEN && IsBits(s)
    ensures BinInstr(HexPrefix(s, HEX_LEN)) == "0b" + s
  {
    HexValueOfPrefix(s, HEX_LEN);
    assert s[..4 * HEX_LEN] == s;
    BitsOfValue(s);
    PaddedBin(Value(s), |s|);
  }

  // ----- the slices -----

  /** "0b" and the characters from `from` to `to` counted from the end. */
  function Slice(h: string, from: nat, to: nat): string
    requires to <= from <= 32
  {
    var t := BinInstr(h);
    "0b" + t[|t| - from..|t| - to]
  }

  function Rs1Address(h: string): string {
    Slice(h, 20, 15)
  }

  function Rs2Address(h: string): string {
    Slice(h, 25, 20)
  }

  function CmpFunction(h: string): string {
    Slice(h, 15, 12)
  }

  /** On a stored 32-bit code the slices are the rs1, rs2 and funct3 fields. */
  lemma SlicesAreFields(s: string)
    requires |s| == WORD_LEN && IsBits(s)
    ensures Rs1Address(HexPrefix(s, HEX_LEN)) == "0b" + FieldsOf(s).rs1
    ensures Rs2Address(HexPrefix(s, HEX_LEN)) == "0b" + FieldsOf(s).rs2
    ensures CmpFunction(HexPrefix(s, HEX_LEN)) == "0b" + FieldsOf(s).f3
  {
    BinInstrInverts(s);
    var t := "0b" + s;
    assert t[14..19] == s[12..17] && t[9..14] == s[7..12] && t[19..22] == s[17..20];
  }

  function Rs1Of(i: Instr): Option<nat> {
    if i.Ecall? || i.Lui? || i.Auipc? || i.Jal? then None else Some(i.rs1)
  }

  function Rs2Of(i: Instr): Option<nat> {
    if i.Add? || i.Beq? || i.Sd? then Some(i.rs2) else None
  }

  lemma FieldsI(imm: int, rs1: nat, f3: string, rd: nat, op: string)
    requires rs1 < 32 && rd < 32 && |f3| == 3 && |op| == 7
    ensures var w := FieldsOf(IFormat(imm, rs1, f3, rd, op)); w.rs1 == XReg(rs1) && w.f3 == f3
  {
    ValuesI(imm, rs1, f3, rd, op);
  }

  lemma FieldsS(imm: int, rs2: nat, rs1: nat, f3: string, op: string)
    requires rs2 < 32 && rs1 < 32 && |f3| == 3 && |op| == 7
    ensures var w := FieldsOf(SFormat(imm, rs2, rs1, f3, op));
            w.rs1 == XReg(rs1) && w.rs2 == XReg(rs2) && w.f3 == f3
  {
    ValuesS(imm, rs2, rs1, f3, op);
  }

  lemma FieldsB(imm: int, rs2: nat, rs1: nat, f3: string, op: string)
    requires rs2 < 32 && rs1 < 32 && |f3| == 3 && |op| == 7
    ensures var w := FieldsOf(BFormat(imm, rs2, rs1, f3, op));
            w.rs1 == XReg(rs1) && w.rs2 == XReg(rs2) && w.f3 == f3
  {
    ValuesB(imm, rs2, rs1, f3, op);
  }

  lemma FieldsR(f7: string, rs2: nat, rs1: nat, f3: string, rd: nat, op: string)
    requires |f7| == 7 && |f3| == 3 && |op| == 7
    ensures var w := FieldsOf(RFormat(f7, rs2, rs1, f3, rd, op));
            w.rs1 == XReg(rs1) && w.rs2 == XReg(rs2) && w.f3 == f3
  {
    FieldsOfLayout(Fields(f7, XReg(rs2), XReg(rs1), f3, XReg(rd), op));
  }

  function Funct3Of(i: Instr): string {
    if i.Ld? || i.Sd? then "011" else "000"
  }

  lemma FieldRegisters(i: Instr)
    requires Registers(i) && Rs1Of(i).Some?
    ensures var w := FieldsOf(Translate(i));
            && w.rs1 == XReg(Rs1Of(i).value) && (Rs2Of(i).Some? ==> w.rs2 == XReg(Rs2Of(i).value))
            && w.f3 == Funct3Of(i)
  {
    match i
    case Add(rd, rs1, rs2) => FieldsR("0000000", rs2, rs1, "000", rd, OpCode(OpAdd));
    case Addi(rd, rs1, imm) => FieldsI(imm, rs1, "000", rd, OpCode(OpAddi));
    case Jalr(rd, imm, rs1) => FieldsI(imm, rs1, "000", rd, OpCode(OpJalr));
    case Ld(rd, imm, rs1) => FieldsI(imm, rs1, "011", rd, OpCode(OpLoad));
    case Beq(rs1, rs2, imm) => FieldsB(imm, rs2, rs1, "000", OpCode(OpBranch));
    case Sd(rs2, imm, rs1) => FieldsS(imm, rs2, rs1, "011", OpCode(OpStore));
  }

  // ----- every code is a bit string -----

  lemma BitsConcat(a: string, b: string)
    requires IsBits(a) && IsBits(b)
    ensures IsBits(a + b)
  {
  }

  lemma BitsOfFour(a: string, b: string, c: string, d: string)
    requires IsBits(a) && IsBits(b) && IsBits(c) && IsBits(d)
    ensures IsBits(a + b + c + d)
  {
    BitsConcat(a, b);
    BitsConcat(a + b, c);
    BitsConcat(a + b + c, d);
  }

  lemma BitsR(f7: string, rs2: nat, rs1: nat, f3: string, rd: nat, op: string)
    requires IsBits(f7) && IsBits(f3) && IsBits(op)
    ensures IsBits(RFormat(f7, rs2, rs1, f3, rd, op))
  {
    BitsOfFour(f7, XReg(rs2), XReg(rs1), f3);
    BitsConcat(f7 + XReg(rs2) + XReg(rs1) + f3, XReg(rd));
    BitsConcat(f7 + XReg(rs2) + XReg(rs1) + f3 + XReg(rd), op);
  }

  lemma BitsI(imm: int, rs1: nat, f3: string, rd: nat, op: string)
    requires IsBits(f3) && IsBits(op)
    ensures IsBits(IFormat(imm, rs1, f3, rd, op))
  {
    var m := ImmGen(imm, IMM_LEN);
    BitsOfFour(m, XReg(rs1), f3, XReg(rd));
    BitsConcat(m + XReg(rs1) + f3 + XReg(rd), op);
  }

  lemma BitsS(imm: int, rs2: nat, rs1: nat, f3: string, op: string)
    requires IsBits(f3) && IsBits(op)
    ensures IsBits(SFormat(imm, rs2, rs1, f3, op))
  {
    var m := ImmGen(imm, IMM_LEN);
    BitsOfFour(m[0..7], XReg(rs2), XReg(rs1), f3);
    BitsConcat(m[0..7] + XReg(rs2) + XReg(rs1) + f3, m[7..12]);
    BitsConcat(m[0..7] + XReg(rs2) + XReg(rs1) + f3 + m[7..12], op);
  }

  lemma BitsB(imm: int, rs2: nat, rs1: nat, f3: string, op: string)
    requires IsBits(f3) && IsBits(op)
    ensures IsBits(BFormat(imm, rs2, rs1, f3, op))
  {
    var m := ImmGen(imm, B_IMM_LEN);
    BitsOfFour([m[0]], m[2..8], XReg(rs2), XReg(rs1));
    var head := [m[0]] + m[2..8] + XReg(rs2) + XReg(rs1);
    BitsOfFour(head, f3, m[8..12], [m[1]]);
    BitsConcat(head + f3 + m[8..12] + [m[1]], op);
  }

  lemma BitsU(imm: int, rd: nat, op: string)
    requires IsBits(op)
    ensures IsBits(UFormat(imm, rd, op))
  {
    BitsConcat(ImmGen(imm, U_IMM_LEN), XReg(rd));
    BitsConcat(ImmGen(imm, U_IMM_LEN) + XReg(rd), op);
  }

  lemma BitsJ(imm: int, rd: nat, op: string)
    requires IsBits(op)
    ensures IsBits(JFormat(imm, rd, op))
  {
    var m := ImmGen(imm, J_IMM_LEN);
    BitsOfFour([m[0]], m[10..20], [m[9]], m[1..9]);
    BitsConcat([m[0]] + m[10..20] + [m[9]] + m[1..9], XReg(rd));
    BitsConcat([m[0]] + m[10..20] + [m[9]] + m[1..9] + XReg(rd), op);
  }

  lemma EcallBits()
    ensures IsBits(Translate(Ecall))
  {
    BitsOfFour("000000000000", "00000", "000", "00000");
    BitsConcat("000000000000" + "00000" + "000" + "00000", OpCode(OpSystem));
  }

  lemma CodeIsBits(i: Instr)
    ensures IsBits(Translate(i))
  {
    match i
    case Add(rd, rs1, rs2) => BitsR("0000000", rs2, rs1, "000", rd, OpCode(OpAdd));
    case Addi(rd, rs1, imm) => BitsI(imm, rs1, "000", rd, OpCode(OpAddi));
    case Jalr(rd, imm, rs1) => BitsI(imm, rs1, "000", rd, OpCode(OpJalr));
    case Ld(rd, imm, rs1) => BitsI(imm, rs1, "011", rd, OpCode(OpLoad));
    case Ecall => EcallBits();
    case Beq(rs1, rs2, imm) => BitsB(imm, rs2, rs1, "000", OpCode(OpBranch));
    case Sd(rs2, imm, rs1) => BitsS(imm, rs2, rs1, "011", OpCode(OpStore));
    case Lui(rd, imm) => BitsU(imm, rd, OpCode(OpLui));
    case Auipc(rd, imm) => BitsU(imm, rd, OpCode(OpAuipc));
    case Jal(rd, imm) => BitsJ(imm, rd, OpCode(OpJal));
  }

  /** The slicers return the registers that were encoded, and the function code. */
  lemma SlicesReadRegisters(i: Instr)
    requires Registers(i)
    ensures IsBits(Translate(i))
    ensures var h := HexPrefix(Translate(i), HEX_LEN);
            && (Rs1Of(i).Some? ==> Rs1Address(h) == "0b" + BitString(Rs1Of(i).value, REG_LEN))
            && (Rs2Of(i).Some? ==> Rs2Address(h) == "0b" + BitString(Rs2Of(i).value, REG_LEN))
            && (Rs1Of(i).Some? ==> CmpFunction(h) == "0b" + Funct3Of(i))
  {
    if Rs1Of(i).Some? {
      FieldRegisters(i);
    }
    CodeIsBits(i);
    SlicesAreFields(Translate(i));
  }
}
