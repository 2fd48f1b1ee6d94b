// The codes of the instructions as numbers, by the formats of section 2.3 and the opcode map of
// chapter 24 of the RISC-V Unprivileged ISA 20191213.
module CodeValues {
  import opened Words
  import opened BitStrings
  import opened Encoder
  import opened InstrHex
  import Ptes

  // ----- slices of a bit string -----

  lemma SliceBounds(m: string, a: nat, b: nat)
    requires IsBits(m) && a <= b <= |m|
    ensures Value(m[a..b]) < Pow2(b - a)
  {
    BitsOfValue(m[a..b]);
  }

  lemma SliceSum(m: string, a: nat, b: nat)
    requires a <= b <= |m|
    ensures Value(m) == (Value(m[..a]) * Pow2(b - a) + Value(m[a..b])) * Pow2(|m| - b) + Value(m[b..])
  {
    ValueConcat(m[..a], m[a..b]);
    ValueConcat(m[..b], m[b..]);
    assert m[..b] == m[..a] + m[a..b] && m == m[..b] + m[b..];
  }

  lemma Ordered(k: nat, f: nat, b: nat, rest: nat, lo: nat)
    ensures (rest * b + f) * k + lo == lo + k * (f + b * rest)
  {
  }

  /** The characters from `a` up to `b` write the bits at their place. */
  lemma SliceValue(m: string, n: nat, a: nat, b: nat, q: nat, p: nat)
    requires IsBits(m) && Value(m) == n && a <= b <= |m| && q == Pow2(|m| - b) && p == Pow2(b - a)
    ensures Value(m[a..b]) == n / q % p
  {
    SliceSum(m, a, b);
    SliceBounds(m, a, b);
    SliceBounds(m, b, |m|);
    assert m[b..|m|] == m[b..];
    Ordered(q, Value(m[a..b]), p, Value(m[..a]), Value(m[b..]));
    Ptes.FieldAt(n, Value(m[b..]), q, Value(m[a..b]), p, Value(m[..a]));
  }

  lemma Parts(n: nat, hi: nat, q: nat, lo: nat)
    requires n == hi * q + lo && lo < q
    ensures n / q == hi && n % q == lo
  {
    Ordered(q, hi, 0, 0, lo);
    Ptes.QuotientIs(lo, q, hi);
  }

  lemma TwoParts(m: string, k: nat, q: nat)
    requires k <= |m| && q == Pow2(|m| - k)
    ensures Value(m) == Value(m[..k]) * q + Value(m[k..])
  {
    ValueConcat(m[..k], m[k..]);
    assert m == m[..k] + m[k..];
  }

  lemma RestBound(m: string, k: nat, q: nat)
    requires IsBits(m) && k <= |m| && q == Pow2(|m| - k)
    ensures Value(m[k..]) < q
  {
    BitsOfValue(m[k..]);
  }

  /** The first characters write what is above the others. */
  lemma FirstValue(m: string, n: nat, k: nat, q: nat)
    requires IsBits(m) && Value(m) == n && k <= |m| && q == Pow2(|m| - k)
    ensures Value(m[..k]) == n / q && Value(m[k..]) == n % q
  {
    TwoParts(m, k, q);
    RestBound(m, k, q);
    Parts(n, Value(m[..k]), q, Value(m[k..]));
  }

  lemma FirstChar(m: string, n: nat, q: nat)
    requires IsBits(m) && Value(m) == n && m != [] && q == Pow2(|m| - 1)
    ensures Value([m[0]]) == n / q
  {
    FirstValue(m, n, 1, q);
    assert m[..1] == [m[0]];
  }

  // ----- a word from its fields -----

  lemma FieldPowers()
    ensures Pow2(7) == 0x80 && Pow2(5) == 0x20 && Pow2(3) == 8 && Pow2(10) == 0x400
    ensures Pow2(1) == 2 && Pow2(4) == 0x10 && Pow2(6) == 0x40 && Pow2(8) == 0x100
    ensures Pow2(11) == 0x800 && Pow2(12) == 0x1000 && Pow2(15) == 0x8000 && Pow2(20) == 0x10_0000
    ensures Pow2(0) == 1 && Pow2(13) == 0x2000 && Pow2(21) == 0x20_0000
  {
    LengthValues();
    assert Pow2(3) == 8;
    assert Pow2(6) == 0x40;
    assert Pow2(9) == 0x200;
    assert Pow2(15) == 8 * Pow2(12);
  }

  /** What six fields are worth together. */
  function Worth(f7: nat, rs2: nat, rs1: nat, f3: nat, rd: nat, op: nat): nat {
    f7 * 0x200_0000 + rs2 * 0x10_0000 + rs1 * 0x8000 + f3 * 0x1000 + rd * 0x80 + op
  }

  lemma LayoutValue(w: Fields)
    requires Sized(w)
    ensures Value(Layout(w)) == Worth(Value(w.f7), Value(w.rs2), Value(w.rs1), Value(w.f3), Value(w.rd), Value(w.op))
  {
    FieldPowers();
    ValueConcat(w.f7, w.rs2);
    ValueConcat(w.f7 + w.rs2, w.rs1);
    ValueConcat(w.f7 + w.rs2 + w.rs1, w.f3);
    ValueConcat(w.f7 + w.rs2 + w.rs1 + w.f3, w.rd);
    ValueConcat(w.f7 + w.rs2 + w.rs1 + w.f3 + w.rd, w.op);
  }

  /** The numbers of the opcode map. */
  function OpcodeNumber(c: Major): nat {
    match c
    case OpAdd => 0x33
    case OpAddi => 0x13
    case OpJalr => 0x67
    case OpLoad => 0x03
    case OpSystem => 0x73
    case OpBranch => 0x63
    case OpStore => 0x23
    case OpLui => 0x37
    case OpAuipc => 0x17
    case OpJal => 0x6f
  }

  lemma FourChars(a: char, b: char, c: char, d: char)
    ensures Value([a, b, c, d]) == 8 * BitOf(a) + 4 * BitOf(b) + 2 * BitOf(c) + BitOf(d)
    ensures Value([a, b, c]) == 4 * BitOf(a) + 2 * BitOf(b) + BitOf(c)
  {
    assert Value([]) == 0;
    assert [a] == [] + [a] && [a, b] == [a] + [b] && [a, b, c] == [a, b] + [c] && [a, b, c, d] == [a, b, c] + [d];
    ValueSnoc([], a);
    ValueSnoc([a], b);
    ValueSnoc([a, b], c);
    ValueSnoc([a, b, c], d);
  }

  lemma SevenChars(s: string)
    requires |s| == 7
    ensures Value(s) == 64 * BitOf(s[0]) + 32 * BitOf(s[1]) + 16 * BitOf(s[2]) + 8 * BitOf(s[3])
                        + 4 * BitOf(s[4]) + 2 * BitOf(s[5]) + BitOf(s[6])
  {
    FieldPowers();
    assert s[..3] == [s[0], s[1], s[2]] && s[3..] == [s[3], s[4], s[5], s[6]];
    assert s == s[..3] + s[3..];
    ValueConcat(s[..3], s[3..]);
    FourChars(s[0], s[1], s[2], s[2]);
    FourChars(s[3], s[4], s[5], s[6]);
  }

  lemma OpcodeValue(c: Major)
    ensures Value(OpCode(c)) == OpcodeNumber(c)
  {
    SevenChars(OpCode(c));
  }

  lemma FunctValue(f3: string)
    requires f3 == "000" || f3 == "011"
    ensures Value(f3) == if f3 == "000" then 0 else 3
  {
    assert f3 == [f3[0], f3[1], f3[2]];
    FourChars(f3[0], f3[1], f3[2], '0');
  }

  lemma ZeroValue(s: string)
    requires s == "0000000"
    ensures Value(s) == 0
  {
    SevenChars(s);
  }

  // ----- each format -----

  /** The immediate as its format takes it. */
  function Cut(imm: int, range: nat): nat
    requires range > 0
  {
    imm % range
  }

  lemma ImmBits(imm: int, len: nat)
    requires len > 0
    ensures Value(ImmGen(imm, len)) == Cut(imm, Pow2(len)) < Pow2(len)
  {
    ImmRead(imm, len);
  }

  lemma ValueI(imm: int, rs1: nat, f3: string, rd: nat, c: Major)
    requires rs1 < 32 && rd < 32 && |f3| == 3
    ensures Value(IFormat(imm, rs1, f3, rd, OpCode(c))) ==
            Cut(imm, 0x1000) * 0x10_0000 + rs1 * 0x8000 + Value(f3) * 0x1000 + rd * 0x80 + OpcodeNumber(c)
  {
    var m, op := ImmGen(imm, IMM_LEN), OpCode(c);
    FormatI(m, XReg(rs1), f3, XReg(rd), op);
    LayoutValue(IFields(m, XReg(rs1), f3, XReg(rd), op));
    TwelveValue(m);
    FieldPowers();
    ImmBits(imm, IMM_LEN);
    RegisterRead(rs1);
    RegisterRead(rd);
    OpcodeValue(c);
  }

  lemma TwelveValue(m: string)
    requires |m| == 12
    ensures Value(m) == Value(m[..7]) * 0x20 + Value(m[7..])
  {
    FieldPowers();
    ValueConcat(m[..7], m[7..]);
    assert m == m[..7] + m[7..];
  }

  lemma PartsS(n: nat, m: string)
    requires |m| == 12 && IsBits(m) && Value(m) == n < 0x1000
    ensures Value(m[0..7]) == n / 0x20 && Value(m[7..12]) == n % 0x20
  {
    FieldPowers();
    FirstValue(m, n, 7, 0x20);
    assert m[0..7] == m[..7] && m[7..12] == m[7..];
  }

  lemma ValueS(imm: int, rs2: nat, rs1: nat, f3: string, c: Major)
    requires rs1 < 32 && rs2 < 32 && |f3| == 3
    ensures Value(SFormat(imm, rs2, rs1, f3, OpCode(c))) ==
            Worth(Cut(imm, 0x1000) / 0x20, rs2, rs1, Value(f3), Cut(imm, 0x1000) % 0x20, OpcodeNumber(c))
  {
    FieldPowers();
    var m, op := ImmGen(imm, IMM_LEN), OpCode(c);
    FormatS(m, XReg(rs2), XReg(rs1), f3, op);
    LayoutValue(SFields(m, XReg(rs2), XReg(rs1), f3, op));
    ImmBits(imm, IMM_LEN);
    PartsS(Cut(imm, 0x1000), m);
    RegisterRead(rs1);
    RegisterRead(rs2);
    OpcodeValue(c);
  }

  lemma OneChar(m: string, k: nat)
    requires k < |m|
    ensures [m[k]] == m[k..k + 1]
  {
  }

  lemma PartsB(n: nat, m: string)
    requires |m| == 13 && IsBits(m) && Value(m) == n < 0x2000
    ensures Value([m[0]] + m[2..8]) == n / 0x1000 * 0x40 + n / 0x20 % 0x40
    ensures Value(m[8..12] + [m[1]]) == n / 2 % 0x10 * 2 + n / 0x800 % 2
  {
    BranchUpper(n, m);
    BranchLower(n, m);
  }

  lemma BranchUpper(n: nat, m: string)
    requires |m| == 13 && IsBits(m) && Value(m) == n < 0x2000
    ensures Value([m[0]] + m[2..8]) == n / 0x1000 * 0x40 + n / 0x20 % 0x40
  {
    FieldPowers();
    FirstChar(m, n, 0x1000);
    SliceValue(m, n, 2, 8, 0x20, 0x40);
    ValueConcat([m[0]], m[2..8]);
  }

  lemma BranchLower(n: nat, m: string)
    requires |m| == 13 && IsBits(m) && Value(m) == n
    ensures Value(m[8..12] + [m[1]]) == n / 2 % 0x10 * 2 + n / 0x800 % 2
  {
    FieldPowers();
    OneChar(m, 1);
    SliceValue(m, n, 8, 12, 2, 0x10);
    SliceValue(m, n, 1, 2, 0x800, 2);
    ValueConcat(m[8..12], [m[1]]);
  }

  lemma ValueB(imm: int, rs2: nat, rs1: nat, f3: string, c: Major)
    requires rs1 < 32 && rs2 < 32 && |f3| == 3
    ensures var n := Cut(imm, 0x2000);
            Value(BFormat(imm, rs2, rs1, f3, OpCode(c))) ==
            Worth(n / 0x1000 * 0x40 + n / 0x20 % 0x40, rs2, rs1, Value(f3), n / 2 % 0x10 * 2 + n / 0x800 % 2,
                  OpcodeNumber(c))
  {
    FieldPowers();
    var m, op := ImmGen(imm, B_IMM_LEN), OpCode(c);
    FormatB(m, XReg(rs2), XReg(rs1), f3, op);
    LayoutValue(BFields(m, XReg(rs2), XReg(rs1), f3, op));
    ImmBits(imm, B_IMM_LEN);
    PartsB(Cut(imm, 0x2000), m);
    RegisterRead(rs1);
    RegisterRead(rs2);
    OpcodeValue(c);
  }

  lemma UpperSlices(m: string)
    requires |m| == 20
    ensures m[..12][..7] == m[..7] && m[..12][7..] == m[7..12]
    ensures m[12..][..5] == m[12..17] && m[12..][5..] == m[17..]
  {
  }

  lemma UpperValue(m: string)
    requires |m| == 20
    ensures Value(m) == Value(m[..7]) * 0x2000 + Value(m[7..12]) * 0x100 + Value(m[12..17]) * 8 + Value(m[17..])
  {
    FieldPowers();
    UpperSlices(m);
    TwoParts(m, 12, 0x100);
    TwoParts(m[..12], 7, 0x20);
    TwoParts(m[12..], 5, 8);
  }

  lemma ValueU(imm: int, rd: nat, c: Major)
    requires rd < 32
    ensures Value(UFormat(imm, rd, OpCode(c))) == Cut(imm, 0x10_0000) * 0x1000 + rd * 0x80 + OpcodeNumber(c)
  {
    FieldPowers();
    var m, op := ImmGen(imm, U_IMM_LEN), OpCode(c);
    FormatU(m, XReg(rd), op);
    LayoutValue(UFields(m, XReg(rd), op));
    UpperValue(m);
    ImmRead(imm, U_IMM_LEN);
    RegisterRead(rd);
    OpcodeValue(c);
  }

  lemma JumpSeven(n: nat, m: string)
    requires |m| == 21 && IsBits(m) && Value(m) == n < 0x20_0000
    ensures Value([m[0]] + m[10..16]) == n / 0x10_0000 * 0x40 + n / 0x20 % 0x40
  {
    FieldPowers();
    FirstChar(m, n, 0x10_0000);
    SliceValue(m, n, 10, 16, 0x20, 0x40);
    ValueConcat([m[0]], m[10..16]);
  }

  lemma JumpFive(n: nat, m: string)
    requires |m| == 21 && IsBits(m) && Value(m) == n
    ensures Value(m[16..20] + [m[9]]) == n / 2 % 0x10 * 2 + n / 0x800 % 2
  {
    FieldPowers();
    OneChar(m, 9);
    SliceValue(m, n, 16, 20, 2, 0x10);
    SliceValue(m, n, 9, 10, 0x800, 2);
    ValueConcat(m[16..20], [m[9]]);
  }

  lemma JumpLow(n: nat, m: string)
    requires |m| == 21 && IsBits(m) && Value(m) == n
    ensures Value(m[1..6]) == n / 0x8000 % 0x20 && Value(m[6..9]) == n / 0x1000 % 8
  {
    FieldPowers();
    SliceValue(m, n, 1, 6, 0x8000, 0x20);
    SliceValue(m, n, 6, 9, 0x1000, 8);
  }

  lemma ValueJ(imm: int, rd: nat, c: Major)
    requires rd < 32
    ensures var n := Cut(imm, 0x20_0000);
            Value(JFormat(imm, rd, OpCode(c))) ==
            Worth(n / 0x10_0000 * 0x40 + n / 0x20 % 0x40, n / 2 % 0x10 * 2 + n / 0x800 % 2,
                  n / 0x8000 % 0x20, n / 0x1000 % 8, rd, OpcodeNumber(c))
  {
    FieldPowers();
    var m, op := ImmGen(imm, J_IMM_LEN), OpCode(c);
    FormatJ(m, XReg(rd), op);
    LayoutValue(JFields(m, XReg(rd), op));
    ImmBits(imm, J_IMM_LEN);
    JumpSeven(Cut(imm, 0x20_0000), m);
    JumpFive(Cut(imm, 0x20_0000), m);
    JumpLow(Cut(imm, 0x20_0000), m);
    RegisterRead(rd);
    OpcodeValue(c);
  }

  lemma ValueR(rd: nat, rs1: nat, rs2: nat, c: Major)
    requires rd < 32 && rs1 < 32 && rs2 < 32
    ensures Value(RFormat("0000000", rs2, rs1, "000", rd, OpCode(c))) == Worth(0, rs2, rs1, 0, rd, OpcodeNumber(c))
  {
    var w := Fields("0000000", XReg(rs2), XReg(rs1), "000", XReg(rd), OpCode(c));
    LayoutValue(w);
    ZeroValue(w.f7);
    FunctValue(w.f3);
    RegisterRead(rd);
    RegisterRead(rs1);
    RegisterRead(rs2);
    OpcodeValue(c);
  }

  lemma ValueEcall()
    ensures Value(Translate(Ecall)) == 0x73
  {
    var w := Fields("0000000", XReg(0), XReg(0), "000", XReg(0), OpCode(OpSystem));
    RegisterRead(0);
    ZeroRegister(XReg(0));
    assert "000000000000" == w.f7 + w.rs2;
    assert Layout(w) == Translate(Ecall);
    LayoutValue(w);
    ZeroValue(w.f7);
    FunctValue(w.f3);
    OpcodeValue(OpSystem);
  }

  lemma ZeroRegister(s: string)
    requires |s| == 5 && IsBits(s) && Value(s) == 0
    ensures s == "00000"
  {
    BitsOfValue(s);
    ZeroBits(5);
    assert Zeros(3) == "000";
  }

  // ----- the codes -----

  function Regs(rs2: nat, rs1: nat, rd: nat): nat {
    rs2 * 0x10_0000 + rs1 * 0x8000 + rd * 0x80
  }

  /** Where a branch and a jump keep the bits of their offset. */
  function BranchBits(n: nat): nat {
    n / 0x1000 * 0x8000_0000 + n / 0x20 % 0x40 * 0x200_0000 + n / 2 % 0x10 * 0x100 + n / 0x800 % 2 * 0x80
  }

  function JumpBits(n: nat): nat {
    n / 0x10_0000 * 0x8000_0000 + n / 2 % 0x400 * 0x20_0000 + n / 0x800 % 2 * 0x10_0000 + n / 0x1000 % 0x100 * 0x1000
  }

  /** The code of an instruction as a number. */
  function Code(i: Instr): nat {
    match i
    case Add(rd, rs1, rs2) => 0x33 + Regs(rs2, rs1, rd)
    case Addi(rd, rs1, imm) => 0x13 + Regs(0, rs1, rd) + Cut(imm, 0x1000) * 0x10_0000
    case Jalr(rd, imm, rs1) => 0x67 + Regs(0, rs1, rd) + Cut(imm, 0x1000) * 0x10_0000
    case Ld(rd, imm, rs1) => 0x3003 + Regs(0, rs1, rd) + Cut(imm, 0x1000) * 0x10_0000
    case Ecall => 0x73
    case Beq(rs1, rs2, imm) => 0x63 + Regs(rs2, rs1, 0) + BranchBits(Cut(imm, 0x2000))
    case Sd(rs2, imm, rs1) =>
      0x3023 + Regs(rs2, rs1, 0) + Cut(imm, 0x1000) / 0x20 * 0x200_0000 + Cut(imm, 0x1000) % 0x20 * 0x80
    case Lui(rd, imm) => 0x37 + Regs(0, 0, rd) + Cut(imm, 0x10_0000) * 0x1000
    case Auipc(rd, imm) => 0x17 + Regs(0, 0, rd) + Cut(imm, 0x10_0000) * 0x1000
    case Jal(rd, imm) => 0x6f + Regs(0, 0, rd) + JumpBits(Cut(imm, 0x20_0000))
  }

  lemma TenBits(x: nat)
    ensures x % 0x400 == x / 0x10 % 0x40 * 0x10 + x % 0x10
  {
  }

  lemma EightBits(y: nat)
    ensures y % 0x100 == y / 8 % 0x20 * 8 + y % 8
  {
  }

  lemma JumpParts(n: nat)
    ensures n / 2 % 0x400 == n / 0x20 % 0x40 * 0x10 + n / 2 % 0x10
    ensures n / 0x1000 % 0x100 == n / 0x8000 % 0x20 * 8 + n / 0x1000 % 8
  {
    TenBits(n / 2);
    EightBits(n / 0x1000);
    assert n / 2 / 0x10 == n / 0x20;
    assert n / 0x1000 / 8 == n / 0x8000;
  }

  lemma CodeR(i: Instr)
    requires Registers(i) && (i.Add? || i.Ecall?)
    ensures Value(Translate(i)) == Code(i)
  {
    if i.Add? {
      ValueR(i.rd, i.rs1, i.rs2, OpAdd);
    } else {
      ValueEcall();
    }
  }

  lemma CodeI(i: Instr)
    requires Registers(i) && (i.Addi? || i.Jalr? || i.Ld?)
    ensures Value(Translate(i)) == Code(i)
  {
    FunctValue("000");
    FunctValue("011");
    match i
    case Addi(rd, rs1, imm) => ValueI(imm, rs1, "000", rd, OpAddi);
    case Jalr(rd, imm, rs1) => ValueI(imm, rs1, "000", rd, OpJalr);
    case Ld(rd, imm, rs1) => ValueI(imm, rs1, "011", rd, OpLoad);
  }

  lemma CodeSB(i: Instr)
    requires Registers(i) && (i.Sd? || i.Beq?)
    ensures Value(Translate(i)) == Code(i)
  {
    FunctValue("000");
    FunctValue("011");
    match i
    case Beq(rs1, rs2, imm) => ValueB(imm, rs2, rs1, "000", OpBranch);
    case Sd(rs2, imm, rs1) => ValueS(imm, rs2, rs1, "011", OpStore);
  }

  lemma CodeUJ(i: Instr)
    requires Registers(i) && (i.Lui? || i.Auipc? || i.Jal?)
    ensures Value(Translate(i)) == Code(i)
  {
    match i
    case Lui(rd, imm) => ValueU(imm, rd, OpLui);
    case Auipc(rd, imm) => ValueU(imm, rd, OpAuipc);
    case Jal(rd, imm) =>
      ValueJ(imm, rd, OpJal);
      JumpParts(Cut(imm, 0x20_0000));
  }

  /** The string the generator builds writes the code of the instruction. */
  lemma TranslateValue(i: Instr)
    requires Registers(i)
    ensures Value(Translate(i)) == Code(i)
  {
    if i.Add? || i.Ecall? {
      CodeR(i);
    } else if i.Addi? || i.Jalr? || i.Ld? {
      CodeI(i);
    } else if i.Sd? || i.Beq? {
      CodeSB(i);
    } else {
      CodeUJ(i);
    }
  }

  lemma WholePrefix(s: string, k: nat)
    requires IsBits(s) && 4 * k == |s|
    ensures HexValue(HexPrefix(s, k)) == Value(s)
  {
    HexValueOfPrefix(s, k);
    assert s[..4 * k] == s;
  }

  /** And what is stored in eight hexadecimal digits is that number. */
  lemma StoredValue(i: Instr, k: nat)
    requires Registers(i) && k == 8
    ensures IsBits(Translate(i)) && HexValue(HexPrefix(Translate(i), k)) == Code(i)
  {
    CodeIsBits(i);
    WholePrefix(Translate(i), k);
    TranslateValue(i);
  }
}
