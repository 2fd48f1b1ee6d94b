// The RISC-V instruction encoder of the decoder test data (src/rcu/data/data_gen.py) and the
// field slicers that take its words apart again (ut/params.py).
module Encoder {
  import opened Words
  import opened BitStrings

  /** An assembly line, split into its operands. */
  datatype Instr =
    | Add(rd: nat, rs1: nat, rs2: nat)
    | Addi(rd: nat, rs1: nat, imm: int)
    | Jalr(rd: nat, imm: int, rs1: nat)
    | Ld(rd: nat, imm: int, rs1: nat)
    | Ecall
    | Beq(rs1: nat, rs2: nat, imm: int)
    | Sd(rs2: nat, imm: int, rs1: nat)
    | Lui(rd: nat, imm: int)
    | Auipc(rd: nat, imm: int)
    | Jal(rd: nat, imm: int)

  /** The registers there are codes for: x0 to x31. */
  predicate Registers(i: Instr) {
    match i
    case Add(rd, rs1, rs2) => rd < 32 && rs1 < 32 && rs2 < 32
    case Addi(rd, rs1, _) => rd < 32 && rs1 < 32
    case Jalr(rd, _, rs1) => rd < 32 && rs1 < 32
    case Ld(rd, _, rs1) => rd < 32 && rs1 < 32
    case Ecall => true
    case Beq(rs1, rs2, _) => rs1 < 32 && rs2 < 32
    case Sd(rs2, _, rs1) => rs1 < 32 && rs2 < 32
    case Lui(rd, _) => rd < 32
    case Auipc(rd, _) => rd < 32
    case Jal(rd, _) => rd < 32
  }

  const REG_LEN: nat := 5
  const IMM_LEN: nat := 12
  const B_IMM_LEN: nat := 13
  const U_IMM_LEN: nat := 20
  const J_IMM_LEN: nat := 21

  function XReg(n: nat): (s: string)
    ensures |s| == 5 && IsBits(s)
  {
    BitString(n, REG_LEN)
  }

  /** The low bits of an immediate, filled up to its length. */
  function ImmGen(imm: int, len: nat): (s: string)
    requires len > 0
    ensures |s| == len && IsBits(s)
  {
    ImmGenBits(imm, len);
    ImmText(imm, len)
  }

  function ImmText(imm: int, len: nat): string
    requires len > 0
  {
    var n := imm % Pow2(len);
    Zeros(len - |Bin(n)|) + Bin(n)
  }

  lemma ImmGenBits(imm: int, len: nat)
    requires len > 0
    ensures imm % Pow2(len) >= 0 && ImmText(imm, len) == BitString(imm % Pow2(len), len)
  {
    PaddedBin(imm % Pow2(len), len);
  }

  /** The major opcodes, one for each of the instructions. */
  datatype Major = OpAdd | OpAddi | OpJalr | OpLoad | OpSystem | OpBranch | OpStore | OpLui | OpAuipc | OpJal

  function OpCode(c: Major): (s: string)
    ensures |s| == 7 && IsBits(s)
  {
    match c
    case OpAdd => "0110011"
    case OpAddi => "0010011"
    case OpJalr => "1100111"
    case OpLoad => "0000011"
    case OpSystem => "1110011"
    case OpBranch => "1100011"
    case OpStore => "0100011"
    case OpLui => "0110111"
    case OpAuipc => "0010111"
    case OpJal => "1101111"
  }

  // ----- the formats -----

  function RFormat(f7: string, rs2: nat, rs1: nat, f3: string, rd: nat, op: string): string {
    f7 + XReg(rs2) + XReg(rs1) + f3 + XReg(rd) + op
  }

  function IFormat(imm: int, rs1: nat, f3: string, rd: nat, op: string): string {
    ImmGen(imm, IMM_LEN) + XReg(rs1) + f3 + XReg(rd) + op
  }

  function BFormat(imm: int, rs2: nat, rs1: nat, f3: string, op: string): string {
    var m := ImmGen(imm, B_IMM_LEN);
    [m[0]] + m[2..8] + XReg(rs2) + XReg(rs1) + f3 + m[8..12] + [m[1]] + op
  }

  function SFormat(imm: int, rs2: nat, rs1: nat, f3: string, op: string): string {
    var m := ImmGen(imm, IMM_LEN);
    m[0..7] + XReg(rs2) + XReg(rs1) + f3 + m[7..12] + op
  }

  function UFormat(imm: int, rd: nat, op: string): string {
    ImmGen(imm, U_IMM_LEN) + XReg(rd) + op
  }

  function JFormat(imm: int, rd: nat, op: string): string {
    var m := ImmGen(imm, J_IMM_LEN);
    [m[0]] + m[10..20] + [m[9]] + m[1..9] + XReg(rd) + op
  }

  /** The 32-bit code of an instruction. */
  function Translate(i: Instr): (s: string)
    ensures |s| == 32
  {
    match i
    case Add(rd, rs1, rs2) => RFormat("0000000", rs2, rs1, "000", rd, OpCode(OpAdd))
    case Addi(rd, rs1, imm) => IFormat(imm, rs1, "000", rd, OpCode(OpAddi))
    case Jalr(rd, imm, rs1) => IFormat(imm, rs1, "000", rd, OpCode(OpJalr))
    case Ld(rd, imm, rs1) => IFormat(imm, rs1, "011", rd, OpCode(OpLoad))
    case Ecall => "000000000000" + "00000" + "000" + "00000" + OpCode(OpSystem)
    case Beq(rs1, rs2, imm) => BFormat(imm, rs2, rs1, "000", OpCode(OpBranch))
    case Sd(rs2, imm, rs1) => SFormat(imm, rs2, rs1, "011", OpCode(OpStore))
    case Lui(rd, imm) => UFormat(imm, rd, OpCode(OpLui))
    case Auipc(rd, imm) => UFormat(imm, rd, OpCode(OpAuipc))
    case Jal(rd, imm) => JFormat(imm, rd, OpCode(OpJal))
  }

  // ----- a decoder, by sections 2.2 and 2.3 of the RISC-V Unprivileged ISA 20191213 -----

  /** The fields that the formats have in common: inst[31:25], [24:20], [19:15], [14:12], [11:7]
      and [6:0]. */
  datatype Fields = Fields(f7: string, rs2: string, rs1: string, f3: string, rd: string, op: string)

  predicate Sized(w: Fields) {
    |w.f7| == 7 && |w.rs2| == 5 && |w.rs1| == 5 && |w.f3| == 3 && |w.rd| == 5 && |w.op| == 7
  }

  /** The fields of a word written highest bit first. */
  function FieldsOf(s: string): (w: Fields)
    requires |s| == 32
    ensures Sized(w)
  {
    Fields(s[0..7], s[7..12], s[12..17], s[17..20], s[20..25], s[25..32])
  }

  function ImmI(w: Fields): int {
    Signed(w.f7 + w.rs2)
  }

  function ImmS(w: Fields): int {
    Signed(w.f7 + w.rd)
  }

  /** inst[31], inst[7], inst[30:25], inst[11:8] and a zero. */
  function ImmB(w: Fields): int
    requires Sized(w)
  {
    Signed(w.f7[..1] + w.rd[4..] + w.f7[1..] + w.rd[..4] + "0")
  }

  /** The twenty bits that go to the top of the register. */
  function ImmU(w: Fields): int {
    Value(w.f7 + w.rs2 + w.rs1 + w.f3)
  }

  /** inst[31], inst[19:12], inst[20], inst[30:21] and a zero. */
  function ImmJ(w: Fields): int
    requires Sized(w)
  {
    Signed(w.f7[..1] + (w.rs1 + w.f3) + w.rs2[4..] + (w.f7[1..] + w.rs2[..4]) + "0")
  }

  const MAJORS: seq<Major> :=
    [OpAdd, OpAddi, OpJalr, OpLoad, OpSystem, OpBranch, OpStore, OpLui, OpAuipc, OpJal]

  /** The instruction a major opcode stands for. */
  function MajorOf(op: string): Option<Major> {
    FindMajor(op, MAJORS)
  }

  function FindMajor(op: string, cs: seq<Major>): Option<Major> {
    if cs == [] then None
    else if op == OpCode(cs[0]) then Some(cs[0])
    else FindMajor(op, cs[1..])
  }

  /** No two instructions share a major opcode. */
  lemma CodesDistinct(c: Major, d: Major)
    requires OpCode(c) == OpCode(d)
    ensures c == d
  {
    var s, t := OpCode(c), OpCode(d);
    assert s[0] == t[0] && s[1] == t[1] && s[2] == t[2] && s[3] == t[3] && s[4] == t[4];
  }

  lemma {:induction false} FindsMajor(c: Major, cs: seq<Major>)
    requires c in cs
    ensures FindMajor(OpCode(c), cs) == Some(c)
  {
    if OpCode(c) == OpCode(cs[0]) {
      CodesDistinct(c, cs[0]);
    } else {
      FindsMajor(c, cs[1..]);
    }
  }

  lemma MajorOfCode(c: Major)
    ensures MajorOf(OpCode(c)) == Some(c)
  {
    assert c in MAJORS;
    FindsMajor(c, MAJORS);
  }

  function Decode(s: string): Option<Instr>
    requires |s| == 32
  {
    DecodeFields(FieldsOf(s))
  }

  function DecodeFields(w: Fields): Option<Instr>
    requires Sized(w)
  {
    match MajorOf(w.op)
    case None => None
    case Some(c) => DecodeAs(w, c)
  }

  function DecodeAs(w: Fields, c: Major): Option<Instr>
    requires Sized(w)
  {
    var rd, rs1, rs2 := Value(w.rd), Value(w.rs1), Value(w.rs2);
    match c
    case OpAdd => if w.f3 == "000" && w.f7 == "0000000" then Some(Add(rd, rs1, rs2)) else None
    case OpAddi => if w.f3 == "000" then Some(Addi(rd, rs1, ImmI(w))) else None
    case OpJalr => if w.f3 == "000" then Some(Jalr(rd, ImmI(w), rs1)) else None
    case OpLoad => if w.f3 == "011" then Some(Ld(rd, ImmI(w), rs1)) else None
    case OpSystem =>
      if w.f7 == "0000000" && w.rs2 == w.rs1 == w.rd == "00000" && w.f3 == "000" then Some(Ecall) else None
    case OpBranch => if w.f3 == "000" then Some(Beq(rs1, rs2, ImmB(w))) else None
    case OpStore => if w.f3 == "011" then Some(Sd(rs2, ImmS(w), rs1)) else None
    case OpLui => Some(Lui(rd, ImmU(w)))
    case OpAuipc => Some(Auipc(rd, ImmU(w)))
    case OpJal => Some(Jal(rd, ImmJ(w)))
  }

  // ----- what survives -----

  function DropLowBit(i: int): int {
    i - i % 2
  }

  /** The instruction with its immediate cut to what its format can hold. */
  function Carried(i: Instr): Instr {
    match i
    case Addi(rd, rs1, imm) => Addi(rd, rs1, Wrap(imm, IMM_LEN))
    case Jalr(rd, imm, rs1) => Jalr(rd, Wrap(imm, IMM_LEN), rs1)
    case Ld(rd, imm, rs1) => Ld(rd, Wrap(imm, IMM_LEN), rs1)
    case Beq(rs1, rs2, imm) => Beq(rs1, rs2, DropLowBit(Wrap(imm, B_IMM_LEN)))
    case Sd(rs2, imm, rs1) => Sd(rs2, Wrap(imm, IMM_LEN), rs1)
    case Lui(rd, imm) => Lui(rd, imm % Pow2(U_IMM_LEN))
    case Auipc(rd, imm) => Auipc(rd, imm % Pow2(U_IMM_LEN))
    case Jal(rd, imm) => Jal(rd, DropLowBit(Wrap(imm, J_IMM_LEN)))
    case _ => i
  }

  /** The immediates a caller should stay within. */
  predicate ImmediateFits(i: Instr) {
    match i
    case Addi(_, _, imm) => -0x800 <= imm < 0x800
    case Jalr(_, imm, _) => -0x800 <= imm < 0x800
    case Ld(_, imm, _) => -0x800 <= imm < 0x800
    case Beq(_, _, imm) => -0x1000 <= imm < 0x1000 && imm % 2 == 0
    case Sd(_, imm, _) => -0x800 <= imm < 0x800
    case Lui(_, imm) => 0 <= imm < 0x10_0000
    case Auipc(_, imm) => 0 <= imm < 0x10_0000
    case Jal(_, imm) => -0x10_0000 <= imm < 0x10_0000 && imm % 2 == 0
    case _ => true
  }

  // ----- the fields of a word -----

  /** Six fields put together. */
  function Layout(w: Fields): string {
    w.f7 + w.rs2 + w.rs1 + w.f3 + w.rd + w.op
  }

  lemma Middle(a: string, b: string, c: string)
    ensures (a + b + c)[|a|..|a| + |b|] == b
  {
  }

  lemma LayoutUpper(w: Fields)
    requires Sized(w)
    ensures var s := Layout(w); |s| == 32 && s[0..7] == w.f7 && s[7..12] == w.rs2 && s[12..17] == w.rs1
  {
    var s := Layout(w);
    var tail := w.f3 + w.rd + w.op;
    Middle([], w.f7, w.rs2 + w.rs1 + tail);
    Middle(w.f7, w.rs2, w.rs1 + tail);
    Middle(w.f7 + w.rs2, w.rs1, tail);
    assert s == [] + w.f7 + (w.rs2 + w.rs1 + tail);
    assert s == w.f7 + w.rs2 + (w.rs1 + tail);
    assert s == (w.f7 + w.rs2) + w.rs1 + tail;
  }

  lemma LayoutLower(w: Fields)
    requires Sized(w)
    ensures var s := Layout(w); |s| == 32 && s[17..20] == w.f3 && s[20..25] == w.rd && s[25..32] == w.op
  {
    var s := Layout(w);
    var head := w.f7 + w.rs2 + w.rs1;
    Middle(head, w.f3, w.rd + w.op);
    Middle(head + w.f3, w.rd, w.op);
    Middle(head + w.f3 + w.rd, w.op, []);
    assert s == head + w.f3 + (w.rd + w.op);
    assert s == (head + w.f3) + w.rd + w.op;
    assert s == (head + w.f3 + w.rd) + w.op + [];
  }

  lemma FieldsOfLayout(w: Fields)
    requires Sized(w)
    ensures |Layout(w)| == 32 && FieldsOf(Layout(w)) == w
  {
    LayoutUpper(w);
    LayoutLower(w);
  }

  // ----- how each format lays its immediate over the fields -----

  function IFields(m: string, rs1: string, f3: string, rd: string, op: string): Fields
    requires |m| == 12
  {
    Fields(m[..7], m[7..], rs1, f3, rd, op)
  }

  function SFields(m: string, rs2: string, rs1: string, f3: string, op: string): Fields
    requires |m| == 12
  {
    Fields(m[0..7], rs2, rs1, f3, m[7..12], op)
  }

  function BFields(m: string, rs2: string, rs1: string, f3: string, op: string): Fields
    requires |m| == 13
  {
    Fields([m[0]] + m[2..8], rs2, rs1, f3, m[8..12] + [m[1]], op)
  }

  function UFields(m: string, rd: string, op: string): Fields
    requires |m| == 20
  {
    Fields(m[..7], m[7..12], m[12..17], m[17..], rd, op)
  }

  function JFields(m: string, rd: string, op: string): Fields
    requires |m| == 21
  {
    Fields([m[0]] + m[10..16], m[16..20] + [m[9]], m[1..6], m[6..9], rd, op)
  }

  lemma FormatI(m: string, rs1: string, f3: string, rd: string, op: string)
    requires |m| == 12
    ensures Layout(IFields(m, rs1, f3, rd, op)) == m + rs1 + f3 + rd + op
  {
    assert m[..7] + m[7..] == m;
  }

  lemma FormatS(m: string, rs2: string, rs1: string, f3: string, op: string)
    requires |m| == 12
    ensures Layout(SFields(m, rs2, rs1, f3, op)) == m[0..7] + rs2 + rs1 + f3 + m[7..12] + op
  {
  }

  lemma FormatB(m: string, rs2: string, rs1: string, f3: string, op: string)
    requires |m| == 13
    ensures Layout(BFields(m, rs2, rs1, f3, op)) == [m[0]] + m[2..8] + rs2 + rs1 + f3 + m[8..12] + [m[1]] + op
  {
    var head := [m[0]] + m[2..8] + rs2 + rs1 + f3;
    assert head + (m[8..12] + [m[1]]) == head + m[8..12] + [m[1]];
  }

  lemma FormatU(m: string, rd: string, op: string)
    requires |m| == 20
    ensures Layout(UFields(m, rd, op)) == m + rd + op
  {
    assert m[..7] + m[7..12] + m[12..17] + m[17..] == m;
  }

  lemma FormatJ(m: string, rd: string, op: string)
    requires |m| == 21
    ensures Layout(JFields(m, rd, op)) == [m[0]] + m[10..20] + [m[9]] + m[1..9] + rd + op
  {
    assert m[10..20] == m[10..16] + m[16..20] && m[1..9] == m[1..6] + m[6..9];
    assert [m[0]] + m[10..16] + (m[16..20] + [m[9]]) + m[1..6] + m[6..9] == [m[0]] + m[10..20] + [m[9]] + m[1..9];
  }

  // The decoder's immediates, put together again.

  lemma GatherS(m: string, rs2: string, rs1: string, f3: string, op: string)
    requires |m| == 12
    ensures ImmS(SFields(m, rs2, rs1, f3, op)) == Signed(m)
  {
    assert m[0..7] + m[7..12] == m;
  }

  lemma GatherB(m: string, rs2: string, rs1: string, f3: string, op: string)
    requires |m| == 13 && IsBits(m) && |rs2| == |rs1| == 5 && |f3| == 3 && |op| == 7
    ensures ImmB(BFields(m, rs2, rs1, f3, op)) == DropLowBit(Signed(m))
  {
    var w := BFields(m, rs2, rs1, f3, op);
    assert w.f7[..1] == [m[0]] && w.f7[1..] == m[2..8] && w.rd[4..] == [m[1]] && w.rd[..4] == m[8..12];
    assert [m[0]] + [m[1]] + m[2..8] + m[8..12] == m[..12];
    EvenRead(m);
  }

  lemma GatherJ(m: string, rd: string, op: string)
    requires |m| == 21 && IsBits(m) && |rd| == 5 && |op| == 7
    ensures ImmJ(JFields(m, rd, op)) == DropLowBit(Signed(m))
  {
    var w := JFields(m, rd, op);
    assert w.f7[..1] == [m[0]] && w.f7[1..] == m[10..16] && w.rs2[4..] == [m[9]] && w.rs2[..4] == m[16..20];
    assert [m[0]] + (m[1..6] + m[6..9]) + [m[9]] + (m[10..16] + m[16..20]) == m[..20];
    EvenRead(m);
  }

  lemma GatherU(m: string, rd: string, op: string)
    requires |m| == 20
    ensures ImmU(UFields(m, rd, op)) == Value(m)
  {
    assert m[..7] + m[7..12] + m[12..17] + m[17..] == m;
  }

  lemma RegisterRead(n: nat)
    requires n < 32
    ensures Value(XReg(n)) == n
  {
    assert Pow2(4) == 16 && Pow2(5) == 32;
    ValueOfBits(n, REG_LEN);
  }

  lemma ImmRead(imm: int, len: nat)
    requires len > 0
    ensures Signed(ImmGen(imm, len)) == Wrap(imm, len)
    ensures Value(ImmGen(imm, len)) == imm % Pow2(len)
  {
    ImmGenBits(imm, len);
    SignedOfBits(imm, len);
    ValueOfBits(imm % Pow2(len), len);
  }

  /** Replacing the lowest bit by zero makes the number even. */
  lemma EvenRead(m: string)
    requires |m| >= 2 && IsBits(m)
    ensures Signed(m[..|m| - 1] + "0") == DropLowBit(Signed(m))
  {
    var f := m[..|m| - 1];
    ValueSnoc(f, '0');
    assert m == f + [m[|m| - 1]];
    ValueSnoc(f, m[|m| - 1]);
    assert Pow2(|m|) == 2 * Pow2(|m| - 1);
  }

  // ----- what the decoder reads from each instruction -----

  lemma AsAdd(w: Fields, rd: nat, rs1: nat, rs2: nat)
    requires Sized(w) && MajorOf(w.op) == Some(OpAdd) && w.f3 == "000" && w.f7 == "0000000"
    requires Value(w.rd) == rd && Value(w.rs1) == rs1 && Value(w.rs2) == rs2
    ensures DecodeFields(w) == Some(Add(rd, rs1, rs2))
  {
  }

  lemma AsI(w: Fields, c: Major, rd: nat, rs1: nat, imm: int)
    requires Sized(w) && MajorOf(w.op) == Some(c) && w.f3 == if c == OpLoad then "011" else "000"
    requires Value(w.rd) == rd && Value(w.rs1) == rs1 && ImmI(w) == imm
    ensures c == OpAddi ==> DecodeFields(w) == Some(Addi(rd, rs1, imm))
    ensures c == OpJalr ==> DecodeFields(w) == Some(Jalr(rd, imm, rs1))
    ensures c == OpLoad ==> DecodeFields(w) == Some(Ld(rd, imm, rs1))
  {
  }

  lemma AsSd(w: Fields, rs2: nat, rs1: nat, imm: int)
    requires Sized(w) && MajorOf(w.op) == Some(OpStore) && w.f3 == "011"
    requires Value(w.rs2) == rs2 && Value(w.rs1) == rs1 && ImmS(w) == imm
    ensures DecodeFields(w) == Some(Sd(rs2, imm, rs1))
  {
  }

  lemma AsBeq(w: Fields, rs2: nat, rs1: nat, imm: int)
    requires Sized(w) && MajorOf(w.op) == Some(OpBranch) && w.f3 == "000"
    requires Value(w.rs2) == rs2 && Value(w.rs1) == rs1 && ImmB(w) == imm
    ensures DecodeFields(w) == Some(Beq(rs1, rs2, imm))
  {
  }

  lemma AsU(w: Fields, c: Major, rd: nat, imm: int)
    requires Sized(w) && MajorOf(w.op) == Some(c) && Value(w.rd) == rd && ImmU(w) == imm
    ensures c == OpLui ==> DecodeFields(w) == Some(Lui(rd, imm))
    ensures c == OpAuipc ==> DecodeFields(w) == Some(Auipc(rd, imm))
  {
  }

  lemma AsJal(w: Fields, rd: nat, imm: int)
    requires Sized(w) && MajorOf(w.op) == Some(OpJal) && Value(w.rd) == rd && ImmJ(w) == imm
    ensures DecodeFields(w) == Some(Jal(rd, imm))
  {
  }

  // What each format holds for the decoder.

  lemma ValuesI(imm: int, rs1: nat, f3: string, rd: nat, op: string)
    requires rs1 < 32 && rd < 32 && |f3| == 3 && |op| == 7
    ensures var w := IFields(ImmGen(imm, IMM_LEN), XReg(rs1), f3, XReg(rd), op);
            && FieldsOf(IFormat(imm, rs1, f3, rd, op)) == w
            && Value(w.rd) == rd && Value(w.rs1) == rs1 && ImmI(w) == Wrap(imm, IMM_LEN)
  {
    var m := ImmGen(imm, IMM_LEN);
    FormatI(m, XReg(rs1), f3, XReg(rd), op);
    FieldsOfLayout(IFields(m, XReg(rs1), f3, XReg(rd), op));
    assert m[..7] + m[7..] == m;
    ImmRead(imm, IMM_LEN);
    RegisterRead(rd);
    RegisterRead(rs1);
  }

  lemma ValuesS(imm: int, rs2: nat, rs1: nat, f3: string, op: string)
    requires rs2 < 32 && rs1 < 32 && |f3| == 3 && |op| == 7
    ensures var w := SFields(ImmGen(imm, IMM_LEN), XReg(rs2), XReg(rs1), f3, op);
            && FieldsOf(SFormat(imm, rs2, rs1, f3, op)) == w
            && Value(w.rs2) == rs2 && Value(w.rs1) == rs1 && ImmS(w) == Wrap(imm, IMM_LEN)
  {
    var m := ImmGen(imm, IMM_LEN);
    FormatS(m, XReg(rs2), XReg(rs1), f3, op);
    FieldsOfLayout(SFields(m, XReg(rs2), XReg(rs1), f3, op));
    GatherS(m, XReg(rs2), XReg(rs1), f3, op);
    ImmRead(imm, IMM_LEN);
    RegisterRead(rs2);
    RegisterRead(rs1);
  }

  lemma ValuesB(imm: int, rs2: nat, rs1: nat, f3: string, op: string)
    requires rs2 < 32 && rs1 < 32 && |f3| == 3 && |op| == 7
    ensures var w := BFields(ImmGen(imm, B_IMM_LEN), XReg(rs2), XReg(rs1), f3, op);
            && FieldsOf(BFormat(imm, rs2, rs1, f3, op)) == w
            && Value(w.rs2) == rs2 && Value(w.rs1) == rs1 && ImmB(w) == DropLowBit(Wrap(imm, B_IMM_LEN))
  {
    var m := ImmGen(imm, B_IMM_LEN);
    FormatB(m, XReg(rs2), XReg(rs1), f3, op);
    FieldsOfLayout(BFields(m, XReg(rs2), XReg(rs1), f3, op));
    GatherB(m, XReg(rs2), XReg(rs1), f3, op);
    ImmRead(imm, B_IMM_LEN);
    RegisterRead(rs2);
    RegisterRead(rs1);
  }

  lemma ValuesU(imm: int, rd: nat, op: string)
    requires rd < 32 && |op| == 7
    ensures var w := UFields(ImmGen(imm, U_IMM_LEN), XReg(rd), op);
            FieldsOf(UFormat(imm, rd, op)) == w && Value(w.rd) == rd && ImmU(w) == imm % Pow2(U_IMM_LEN)
  {
    var m := ImmGen(imm, U_IMM_LEN);
    FormatU(m, XReg(rd), op);
    FieldsOfLayout(UFields(m, XReg(rd), op));
    GatherU(m, XReg(rd), op);
    ImmRead(imm, U_IMM_LEN);
    RegisterRead(rd);
  }

  lemma ValuesJ(imm: int, rd: nat, op: string)
    requires rd < 32 && |op| == 7
    ensures var w := JFields(ImmGen(imm, J_IMM_LEN), XReg(rd), op);
            && FieldsOf(JFormat(imm, rd, op)) == w
            && Value(w.rd) == rd && ImmJ(w) == DropLowBit(Wrap(imm, J_IMM_LEN))
  {
    var m := ImmGen(imm, J_IMM_LEN);
    FormatJ(m, XReg(rd), op);
    FieldsOfLayout(JFields(m, XReg(rd), op));
    GatherJ(m, XReg(rd), op);
    ImmRead(imm, J_IMM_LEN);
    RegisterRead(rd);
  }

  // What the decoder makes of each format; the opcode stays a variable so that a proof does not
  // run through the table of opcodes.

  lemma ReadR(c: Major, rd: nat, rs1: nat, rs2: nat)
    requires c == OpAdd && rd < 32 && rs1 < 32 && rs2 < 32
    ensures Decode(RFormat("0000000", rs2, rs1, "000", rd, OpCode(c))) == Some(Add(rd, rs1, rs2))
  {
    var w := Fields("0000000", XReg(rs2), XReg(rs1), "000", XReg(rd), OpCode(c));
    RegisterRead(rd);
    RegisterRead(rs1);
    RegisterRead(rs2);
    FieldsOfLayout(w);
    MajorOfCode(c);
    AsAdd(w, rd, rs1, rs2);
  }

  lemma ReadI(c: Major, imm: int, rs1: nat, f3: string, rd: nat)
    requires rs1 < 32 && rd < 32 && f3 == if c == OpLoad then "011" else "000"
    ensures var r := Decode(IFormat(imm, rs1, f3, rd, OpCode(c)));
            && (c == OpAddi ==> r == Some(Addi(rd, rs1, Wrap(imm, IMM_LEN))))
            && (c == OpJalr ==> r == Some(Jalr(rd, Wrap(imm, IMM_LEN), rs1)))
            && (c == OpLoad ==> r == Some(Ld(rd, Wrap(imm, IMM_LEN), rs1)))
  {
    ValuesI(imm, rs1, f3, rd, OpCode(c));
    MajorOfCode(c);
    AsI(FieldsOf(IFormat(imm, rs1, f3, rd, OpCode(c))), c, rd, rs1, Wrap(imm, IMM_LEN));
  }

  lemma ReadS(c: Major, imm: int, rs2: nat, rs1: nat)
    requires c == OpStore && rs2 < 32 && rs1 < 32
    ensures Decode(SFormat(imm, rs2, rs1, "011", OpCode(c))) == Some(Sd(rs2, Wrap(imm, IMM_LEN), rs1))
  {
    ValuesS(imm, rs2, rs1, "011", OpCode(c));
    MajorOfCode(c);
    AsSd(FieldsOf(SFormat(imm, rs2, rs1, "011", OpCode(c))), rs2, rs1, Wrap(imm, IMM_LEN));
  }

  lemma ReadB(c: Major, imm: int, rs2: nat, rs1: nat)
    requires c == OpBranch && rs2 < 32 && rs1 < 32
    ensures Decode(BFormat(imm, rs2, rs1, "000", OpCode(c))) ==
            Some(Beq(rs1, rs2, DropLowBit(Wrap(imm, B_IMM_LEN))))
  {
    ValuesB(imm, rs2, rs1, "000", OpCode(c));
    MajorOfCode(c);
    AsBeq(FieldsOf(BFormat(imm, rs2, rs1, "000", OpCode(c))), rs2, rs1, DropLowBit(Wrap(imm, B_IMM_LEN)));
  }

  lemma ReadU(c: Major, imm: int, rd: nat)
    requires rd < 32
    ensures var r := Decode(UFormat(imm, rd, OpCode(c)));
            && (c == OpLui ==> r == Some(Lui(rd, imm % Pow2(U_IMM_LEN))))
            && (c == OpAuipc ==> r == Some(Auipc(rd, imm % Pow2(U_IMM_LEN))))
  {
    ValuesU(imm, rd, OpCode(c));
    MajorOfCode(c);
    AsU(FieldsOf(UFormat(imm, rd, OpCode(c))), c, rd, imm % Pow2(U_IMM_LEN));
  }

  lemma ReadJ(c: Major, imm: int, rd: nat)
    requires c == OpJal && rd < 32
    ensures Decode(JFormat(imm, rd, OpCode(c))) == Some(Jal(rd, DropLowBit(Wrap(imm, J_IMM_LEN))))
  {
    ValuesJ(imm, rd, OpCode(c));
    MajorOfCode(c);
    AsJal(FieldsOf(JFormat(imm, rd, OpCode(c))), rd, DropLowBit(Wrap(imm, J_IMM_LEN)));
  }

  lemma EcallRead()
    ensures Decode(Translate(Ecall)) == Some(Ecall)
  {
    var w := Fields("0000000", "00000", "00000", "000", "00000", OpCode(OpSystem));
    assert "000000000000" == w.f7 + w.rs2;
    assert Layout(w) == Translate(Ecall);
    FieldsOfLayout(w);
    MajorOfCode(OpSystem);
  }

  // ----- round trips -----

  /** What the decoder gets back from the code of an instruction, whatever its immediate. */
  lemma DecodeTranslate(i: Instr)
    requires Registers(i)
    ensures Decode(Translate(i)) == Some(Carried(i))
  {
    match i
    case Add(rd, rs1, rs2) => ReadR(OpAdd, rd, rs1, rs2);
    case Addi(rd, rs1, imm) => ReadI(OpAddi, imm, rs1, "000", rd);
    case Jalr(rd, imm, rs1) => ReadI(OpJalr, imm, rs1, "000", rd);
    case Ld(rd, imm, rs1) => ReadI(OpLoad, imm, rs1, "011", rd);
    case Ecall => EcallRead();
    case Beq(rs1, rs2, imm) => ReadB(OpBranch, imm, rs2, rs1);
    case Sd(rs2, imm, rs1) => ReadS(OpStore, imm, rs2, rs1);
    case Lui(rd, imm) => ReadU(OpLui, imm, rd);
    case Auipc(rd, imm) => ReadU(OpAuipc, imm, rd);
    case Jal(rd, imm) => ReadJ(OpJal, imm, rd);
  }

  /** An instruction comes back unchanged exactly when its immediate is in range, and even where
      the format has no lowest bit. */
  lemma RoundTripIff(i: Instr)
    requires Registers(i)
    ensures Decode(Translate(i)) == Some(i) <==> ImmediateFits(i)
  {
    DecodeTranslate(i);
    LengthValues();
    match i
    case Addi(_, _, imm) => WrapKeepsIff(imm, IMM_LEN);
    case Jalr(_, imm, _) => WrapKeepsIff(imm, IMM_LEN);
    case Ld(_, imm, _) => WrapKeepsIff(imm, IMM_LEN);
    case Beq(_, _, imm) => EvenKeepsIff(imm, B_IMM_LEN);
    case Sd(_, imm, _) => WrapKeepsIff(imm, IMM_LEN);
    case Lui(_, imm) => UpperKeepsIff(imm);
    case Auipc(_, imm) => UpperKeepsIff(imm);
    case Jal(_, imm) => EvenKeepsIff(imm, J_IMM_LEN);
    case _ =>
  }

  lemma LengthValues()
    ensures Pow2(IMM_LEN - 1) == 0x800 && Pow2(IMM_LEN) == 0x1000
    ensures Pow2(B_IMM_LEN - 1) == 0x1000 && Pow2(B_IMM_LEN) == 0x2000
    ensures Pow2(U_IMM_LEN) == 0x10_0000
    ensures Pow2(J_IMM_LEN - 1) == 0x10_0000 && Pow2(J_IMM_LEN) == 0x20_0000
  {
    assert Pow2(4) == 0x10;
    assert Pow2(8) == 0x100;
    assert Pow2(11) == 0x800;
    assert Pow2(14) == 0x4000;
    assert Pow2(17) == 0x2_0000;
  }

  lemma EvenKeepsIff(imm: int, w: nat)
    requires w > 1
    ensures DropLowBit(Wrap(imm, w)) == imm <==> 0 <= imm + Pow2(w - 1) < Pow2(w) && imm % 2 == 0
  {
    WrapKeepsIff(imm, w);
    WrapParity(imm, w);
    SameParity(Wrap(imm, w), imm);
  }

  lemma SameParity(v: int, i: int)
    requires v % 2 == i % 2
    ensures DropLowBit(v) == i <==> v == i && i % 2 == 0
  {
  }

  /** Cutting a number to two bits or more keeps its lowest bit. */
  lemma WrapParity(imm: int, w: nat)
    requires w > 0
    ensures Wrap(imm, w) % 2 == imm % 2
  {
    var p, h := Pow2(w), Pow2(w - 1);
    var q, n := imm / p, imm % p;
    assert imm == q * p + n && p == 2 * h;
    EvenMultiple(q, h, n);
  }

  lemma EvenMultiple(q: int, h: nat, n: int)
    ensures (q * (2 * h) + n) % 2 == n % 2
    ensures (n - 2 * h) % 2 == n % 2
  {
    assert q * (2 * h) == 2 * (q * h);
  }

  lemma UpperKeepsIff(imm: int)
    ensures imm % Pow2(U_IMM_LEN) == imm <==> 0 <= imm < Pow2(U_IMM_LEN)
  {
    LengthValues();
  }
}
