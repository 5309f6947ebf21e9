// An assembler of line-number programs, and an encoder of line-number matrices in
// the way DWARF version 4, section 6.2.5 describes: special opcodes where they reach,
// DW_LNS_const_add_pc before one where that helps, and otherwise the general
// advances. Running what they emit reproduces the instructions and the matrix.
module LineEncoding {
  import opened Base
  import opened Leb128
  import opened LineProgram

  // ---------------------------------------------------------------------
  // Assembler
  // ---------------------------------------------------------------------

  function LittleEndianBytes(v: nat, n: nat): (s: seq<byte>)
    ensures |s| == n
  {
    if n == 0 then [] else [v % 256] + LittleEndianBytes(v / 256, n - 1)
  }

  /** The byte that names a standard instruction. */
  function StandardOpcode(i: Instruction): Option<byte> {
    match i
    case Copy => Some(LNS_COPY)
    case AdvancePc(_) => Some(LNS_ADVANCE_PC)
    case AdvanceLine(_) => Some(LNS_ADVANCE_LINE)
    case SetFile(_) => Some(LNS_SET_FILE)
    case SetColumn(_) => Some(LNS_SET_COLUMN)
    case NegateStmt => Some(LNS_NEGATE_STMT)
    case SetBasicBlock => Some(LNS_SET_BASIC_BLOCK)
    case ConstAddPc => Some(LNS_CONST_ADD_PC)
    case FixedAdvancePc(_) => Some(LNS_FIXED_ADVANCE_PC)
    case SetPrologueEnd => Some(LNS_SET_PROLOGUE_END)
    case SetEpilogueBegin => Some(LNS_SET_EPILOGUE_BEGIN)
    case SetIsa(_) => Some(LNS_SET_ISA)
    case _ => None
  }

  function StandardOperand(i: Instruction): seq<byte> {
    match i
    case AdvancePc(v) => EncodeUleb(v)
    case AdvanceLine(v) => EncodeSleb(v)
    case SetFile(v) => EncodeUleb(v)
    case SetColumn(v) => EncodeUleb(v)
    case FixedAdvancePc(v) => LittleEndianBytes(v, 2)
    case SetIsa(v) => EncodeUleb(v)
    case _ => []
  }

  function ExtendedOpcode(i: Instruction): byte {
    match i
    case EndSequence => LNE_END_SEQUENCE
    case SetAddress(_) => LNE_SET_ADDRESS
    case SetDiscriminator(_) => LNE_SET_DISCRIMINATOR
    case Unhandled(opcode, _) => opcode
    case _ => 0
  }

  function ExtendedOperand(i: Instruction): seq<byte> {
    match i
    case SetAddress(a) => LittleEndianBytes(a, 8)
    case SetDiscriminator(d) => EncodeUleb(d)
    case Unhandled(_, operand) => operand
    case _ => []
  }

  /** Instructions a header of this kind can express. */
  predicate Expressible(h: Header, i: Instruction)
    requires h.Valid()
  {
    match i
    case Special(adjusted) => adjusted + h.opcodeBase <= 255
    case Vendor => false
    case FixedAdvancePc(n) => LNS_FIXED_ADVANCE_PC < h.opcodeBase && n < 0x1_0000
    case SetPrologueEnd => LNS_SET_PROLOGUE_END < h.opcodeBase && h.version != 2
    case SetEpilogueBegin => LNS_SET_EPILOGUE_BEGIN < h.opcodeBase && h.version != 2
    case SetIsa(_) => LNS_SET_ISA < h.opcodeBase && h.version != 2
    case Unhandled(opcode, operand) =>
      && opcode !in {LNE_END_SEQUENCE, LNE_SET_ADDRESS, LNE_SET_DISCRIMINATOR}
      && |operand| + 1 < TWO64
    case _ => StandardOpcode(i).Some? ==> StandardOpcode(i).value < h.opcodeBase
  }

  function AssembleOne(h: Header, i: Instruction): (s: seq<byte>)
    requires h.Valid() && Expressible(h, i)
    ensures s != []
  {
    if i.Special? then [i.adjusted + h.opcodeBase]
    else if StandardOpcode(i).Some? then [StandardOpcode(i).value] + StandardOperand(i)
    else [0] + EncodeUleb(|ExtendedOperand(i)| + 1) + [ExtendedOpcode(i)] + ExtendedOperand(i)
  }

  lemma {:induction false} LittleEndianRoundTrip(v: nat, n: nat)
    requires v < Pow2(8 * n)
    ensures LittleEndian(LittleEndianBytes(v, n)) == v
    decreases n
  {
    if n > 0 {
      LittleEndianBound(LittleEndianBytes(v, n));
      LittleEndianRoundTrip(v / 256, n - 1);
      assert LittleEndianBytes(v, n)[1..] == LittleEndianBytes(v / 256, n - 1);
    }
  }

  lemma FixedRoundTrip(v: nat, n: nat, tail: seq<byte>)
    requires v < Pow2(8 * n)
    ensures Fixed(LittleEndianBytes(v, n) + tail, n) == Done(v, tail)
  {
    var s := LittleEndianBytes(v, n) + tail;
    assert s[..n] == LittleEndianBytes(v, n) && s[n..] == tail;
    LittleEndianRoundTrip(v, n);
  }

  lemma StandardRoundTrip(h: Header, i: Instruction, tail: seq<byte>)
    requires h.Valid() && Expressible(h, i) && StandardOpcode(i).Some?
    ensures StandardOperands(h, StandardOpcode(i).value, StandardOperand(i) + tail) == Done(i, tail)
  {
    assert [] + tail == tail;
    match i
    case AdvancePc(v) => UlebRoundTrip(v, tail);
    case AdvanceLine(v) => SlebRoundTrip(v, tail);
    case SetFile(v) => UlebRoundTrip(v, tail);
    case SetColumn(v) => UlebRoundTrip(v, tail);
    case SetIsa(v) => UlebRoundTrip(v, tail);
    case FixedAdvancePc(v) => Pow2At16(); FixedRoundTrip(v, 2, tail);
    case _ => // no operand
  }

  lemma ExtendedRoundTrip(i: Instruction, tail: seq<byte>)
    requires i.EndSequence? || i.SetAddress? || i.SetDiscriminator?
          || (i.Unhandled? && i.opcode !in {LNE_END_SEQUENCE, LNE_SET_ADDRESS, LNE_SET_DISCRIMINATOR}
              && |i.operand| < TWO64)
    requires |ExtendedOperand(i)| < TWO64
    ensures ExtendedOperands(|ExtendedOperand(i)|, ExtendedOpcode(i), ExtendedOperand(i) + tail) == Done(i, tail)
  {
    match i
    case SetAddress(a) => Pow2At64(); FixedRoundTrip(a, 8, tail);
    case SetDiscriminator(d) => UlebRoundTrip(d, tail);
    case Unhandled(_, operand) =>
      var s := operand + tail;
      assert s[..|operand|] == operand && s[|operand|..] == tail;
    case EndSequence => assert ExtendedOperand(i) + tail == tail;
  }

  lemma {:induction false} EncodeUlebLength(v: nat)
    ensures v < 128 ==> |EncodeUleb(v)| == 1
    ensures |EncodeUleb(v)| <= 1 + v
    decreases v
  {
    if v >= 128 {
      EncodeUlebLength(v / 128);
    }
  }

  lemma ExtendedOperandLength(h: Header, i: Instruction)
    requires h.Valid() && Expressible(h, i) && !i.Special? && StandardOpcode(i).None?
    ensures |ExtendedOperand(i)| + 1 < TWO64
  {
    if i.SetDiscriminator? {
      UlebRoundTrip(i.discriminator, []);
      assert EncodeUleb(i.discriminator) + [] == EncodeUleb(i.discriminator);
      assert Digits(EncodeUleb(i.discriminator), 0, 0).value.count <= 10;
    }
  }

  lemma Regrouped(a: seq<byte>, b: seq<byte>, c: seq<byte>, d: seq<byte>, e: seq<byte>)
    ensures (a + b + c + d + e)[|a|..] == b + (c + (d + e))
  {
    assert a + b + c + d + e == a + (b + (c + (d + e)));
  }

  lemma ExtendedPrefixRoundTrip(length: nat, opcode: byte, t: seq<byte>)
    requires length + 1 < TWO64
    ensures ExtendedPrefix(EncodeUleb(length + 1) + ([opcode] + t)) == Done((length, opcode), t)
  {
    UlebRoundTrip(length + 1, [opcode] + t);
  }

  /** The reader takes back every instruction the assembler writes, and no more. */
  lemma AssemblerRoundTrip(h: Header, i: Instruction, tail: seq<byte>)
    requires h.Valid() && Expressible(h, i)
    ensures Decode(h, AssembleOne(h, i) + tail) == Done(i, tail)
  {
    hide StandardOperands, ExtendedOperands, ExtendedPrefix, StandardOperand, ExtendedOperand;
    var s := AssembleOne(h, i) + tail;
    if i.Special? {
      assert s[1..] == tail;
    } else if StandardOpcode(i).Some? {
      StandardRoundTrip(h, i, tail);
      assert s[1..] == StandardOperand(i) + tail;
    } else {
      ExtendedOperandLength(h, i);
      var operand, opcode := ExtendedOperand(i), ExtendedOpcode(i);
      ExtendedPrefixRoundTrip(|operand|, opcode, operand + tail);
      Regrouped([0], EncodeUleb(|operand| + 1), [opcode], operand, tail);
      hide EncodeUleb;
      ExtendedRoundTrip(i, tail);
    }
  }

  // ---------------------------------------------------------------------
  // Programs as instruction lists
  // ---------------------------------------------------------------------

  predicate AllExpressible(h: Header, p: seq<Instruction>)
    requires h.Valid()
  {
    forall i :: i in p ==> Expressible(h, i)
  }

  function Assemble(h: Header, p: seq<Instruction>): seq<byte>
    requires h.Valid() && AllExpressible(h, p)
  {
    if p == [] then [] else AssembleOne(h, p[0]) + Assemble(h, p[1..])
  }

  predicate Commits(i: Instruction) {
    i.Special? || i.Copy? || i.EndSequence?
  }

  /** The rows that instructions commit. */
  function RowsOf(h: Header, r: Registers, p: seq<Instruction>): seq<Row>
    requires h.Valid() && h.lineRange != 0
    decreases |p|
  {
    if p == [] then []
    else
      var (result, r') := Execute(h, r, p[0]);
      match result
      case CONTINUE => RowsOf(h, r', p[1..])
      case COMMIT => [RowOf(r', false)] + RowsOf(h, r', p[1..])
      case END => [RowOf(r', true)] + RowsOf(h, Initial(h), p[1..])
  }

  lemma RunOneInstruction(h: Header, r: Registers, s: seq<byte>, i: Instruction, tail: seq<byte>)
    requires h.Valid() && h.lineRange != 0
    requires s != [] && Decode(h, s) == Done(i, tail)
    ensures var (result, r') := Execute(h, r, i);
      match result
      case CONTINUE => tail != [] ==> Run(h, r, s) == Run(h, r', tail)
      case COMMIT => Run(h, r, s) == Matrix([RowOf(r', false)] + Run(h, r', tail).rows, Run(h, r', tail).stopped)
      case END => Run(h, r, s) == Matrix([RowOf(r', true)] + Run(h, Initial(h), tail).rows, Run(h, Initial(h), tail).stopped)
  {
  }

  /** Running assembled bytes commits the rows of the instructions. */
  lemma {:induction false} RunAssembled(h: Header, r: Registers, p: seq<Instruction>)
    requires h.Valid() && h.lineRange != 0 && AllExpressible(h, p)
    requires p == [] || Commits(p[|p| - 1])
    ensures Run(h, r, Assemble(h, p)) == Matrix(RowsOf(h, r, p), None)
    decreases |p|
  {
    if p != [] {
      var (result, r') := Execute(h, r, p[0]);
      var tail := Assemble(h, p[1..]);
      AssemblerRoundTrip(h, p[0], tail);
      RunOneInstruction(h, r, Assemble(h, p), p[0], tail);
      if result == CONTINUE {
        assert |p| > 1;
        assert p[1] == p[1..][0];
      }
      RunAssembled(h, if result == END then Initial(h) else r', p[1..]);
    }
  }

  // ---------------------------------------------------------------------
  // Encoding a matrix
  // ---------------------------------------------------------------------

  /** The registers an encoder follows; opening at the start of a sequence. */
  datatype Position = Position(address: uint64, file: uint64, line: uint64, opening: bool)

  function StartPosition(): Position {
    Position(0, 1, 1, true)
  }

  function After(row: Row): Position {
    if row.end then StartPosition() else Position(row.address, row.file, row.line, false)
  }

  /** Row can follow position p: a sequence starts anywhere, and then moves upward
      by whole instructions. */
  predicate Reachable(h: Header, p: Position, row: Row) {
    p.opening
    || (p.address <= row.address
        && if h.minLength == 0 then row.address == p.address
           else (row.address - p.address) % h.minLength == 0)
  }

  predicate Encodable(h: Header, p: Position, rows: seq<Row>)
    decreases |rows|
  {
    rows == [] || (Reachable(h, p, rows[0]) && Encodable(h, After(rows[0]), rows[1..]))
  }

  /** Instructions between two positions; zero when the encoder sets the address instead. */
  function Operations(h: Header, p: Position, row: Row): (k: uint64)
    requires Reachable(h, p, row)
    ensures !p.opening ==> row.address == p.address + h.minLength * k
    ensures p.opening ==> k == 0
  {
    if p.opening || h.minLength == 0 then 0
    else
      QuotientBounds(row.address - p.address, h.minLength);
      (row.address - p.address) / h.minLength
  }

  lemma QuotientBounds(x: nat, m: nat)
    requires m > 0
    ensures 0 <= x / m <= x && x == m * (x / m) + x % m
  {
    var q := x / m;
    assert x == q * m + x % m;
    AtLeastOnce(q, m);
  }

  lemma AtLeastOnce(q: nat, m: nat)
    requires m > 0
    ensures q <= q * m
  {
  }

  /** The line advance, as the signed number that wraps to the right line. */
  function LineDelta(from: uint64, to: uint64): (d: int64)
    ensures Wrap64(from + d) == to
  {
    ToInt64(Wrap64(to - from))
  }

  /** The adjusted special opcode that advances k instructions and d lines. */
  function Adjusted(h: Header, k: nat, d: int64): int {
    d - h.lineBase + h.lineRange * k
  }

  predicate SpecialReaches(h: Header, k: nat, d: int64) {
    h.lineBase <= d < h.lineBase + h.lineRange && Adjusted(h, k, d) + h.opcodeBase <= 255
  }

  lemma SpecialIsExpressible(h: Header, k: nat, d: int64)
    requires h.Valid() && SpecialReaches(h, k, d)
    ensures 0 <= Adjusted(h, k, d) < 256 && Expressible(h, Special(Adjusted(h, k, d)))
    ensures Adjusted(h, k, d) / h.lineRange == k && Adjusted(h, k, d) % h.lineRange == d - h.lineBase
  {
    assert h.lineRange * k >= 0;
    DivisionIsUnique(Adjusted(h, k, d), h.lineRange, k, d - h.lineBase);
  }

  predicate Adequate(h: Header) {
    h.Valid() && h.lineRange != 0 && h.opcodeBase > LNS_SET_FILE
  }

  predicate ConstAddReaches(h: Header, k: nat, d: int64)
    requires Adequate(h)
  {
    && LNS_CONST_ADD_PC < h.opcodeBase
    && k >= ConstAddOperations(h)
    && SpecialReaches(h, k - ConstAddOperations(h), d)
  }

  function EmitSpecial(h: Header, k: nat, d: int64): (p: seq<Instruction>)
    requires Adequate(h) && SpecialReaches(h, k, d)
    ensures AllExpressible(h, p) && |p| == 1 && Commits(p[0])
  {
    SpecialIsExpressible(h, k, d);
    [Special(Adjusted(h, k, d))]
  }

  function EmitLongMove(h: Header, k: uint64, d: int64): (p: seq<Instruction>)
    requires Adequate(h)
    ensures AllExpressible(h, p) && |p| == 3 && Commits(p[2])
  {
    [AdvancePc(k), AdvanceLine(d), Copy]
  }

  /** Advances k instructions and d lines and commits a row. */
  function EmitMove(h: Header, k: uint64, d: int64): (p: seq<Instruction>)
    requires Adequate(h)
    ensures AllExpressible(h, p) && p != [] && Commits(p[|p| - 1])
  {
    if SpecialReaches(h, k, d) then EmitSpecial(h, k, d)
    else if ConstAddReaches(h, k, d) then [ConstAddPc] + EmitSpecial(h, k - ConstAddOperations(h), d)
    else EmitLongMove(h, k, d)
  }

  function EmitEnd(h: Header, k: uint64, d: int64): (p: seq<Instruction>)
    requires Adequate(h)
    ensures AllExpressible(h, p) && |p| == 3 && Commits(p[2])
  {
    [AdvancePc(k), AdvanceLine(d), EndSequence]
  }

  /** Sets the registers a row needs set outright. */
  function EmitSettings(h: Header, p: Position, row: Row): (i: seq<Instruction>)
    requires Adequate(h)
    ensures AllExpressible(h, i)
  {
    (if p.opening then [SetAddress(row.address)] else [])
    + (if row.file != p.file then [SetFile(row.file)] else [])
  }

  function EmitRow(h: Header, p: Position, row: Row): (i: seq<Instruction>)
    requires Adequate(h) && Reachable(h, p, row)
    ensures AllExpressible(h, i) && i != [] && Commits(i[|i| - 1])
  {
    var k, d := Operations(h, p, row), LineDelta(p.line, row.line);
    EmitSettings(h, p, row) + (if row.end then EmitEnd(h, k, d) else EmitMove(h, k, d))
  }

  function EmitRows(h: Header, p: Position, rows: seq<Row>): (i: seq<Instruction>)
    requires Adequate(h) && Encodable(h, p, rows)
    ensures AllExpressible(h, i) && (i != [] ==> Commits(i[|i| - 1]))
    decreases |rows|
  {
    if rows == [] then [] else EmitRow(h, p, rows[0]) + EmitRows(h, After(rows[0]), rows[1..])
  }

  predicate At(r: Registers, p: Position) {
    r.address == p.address && r.file == p.file && r.line == p.line
  }

  /** Peels the first instruction off a program. */
  lemma RowsOfCons(h: Header, r: Registers, i: Instruction, q: seq<Instruction>)
    requires h.Valid() && h.lineRange != 0
    ensures var (result, r') := Execute(h, r, i);
      RowsOf(h, r, [i] + q) ==
        match result
        case CONTINUE => RowsOf(h, r', q)
        case COMMIT => [RowOf(r', false)] + RowsOf(h, r', q)
        case END => [RowOf(r', true)] + RowsOf(h, Initial(h), q)
  {
    assert ([i] + q)[1..] == q;
  }

  /** Two advances that stay within 64 bits make one. */
  lemma SplitAdvance(a: uint64, m: nat, j: nat, k: nat)
    requires j <= k && a + m * k < TWO64
    ensures Wrap64(Wrap64(a + m * j) + m * (k - j)) == a + m * k
  {
    assert m * j + m * (k - j) == m * k;
    assert 0 <= m * j && 0 <= m * (k - j);
    WrapSmall(a + m * j);
    WrapSmall(a + m * k);
  }

  /** The registers after a move to address a and line l. */
  function Moved(r: Registers, a: uint64, l: uint64): Registers {
    AfterCommit(r.(address := a, line := l))
  }

  lemma ExecuteSpecial(h: Header, r: Registers, k: nat, d: int64)
    requires Adequate(h) && SpecialReaches(h, k, d)
    ensures 0 <= Adjusted(h, k, d) < 256
    ensures Execute(h, r, Special(Adjusted(h, k, d)))
         == (COMMIT, Moved(r, Wrap64(r.address + h.minLength * k), Wrap64(r.line + d)))
  {
    SpecialIsExpressible(h, k, d);
  }

  lemma ExecuteAdvances(h: Header, r: Registers, k: uint64, d: int64, a: uint64)
    requires Adequate(h) && a == r.address + h.minLength * k
    ensures Execute(h, r, AdvancePc(k)) == (CONTINUE, r.(address := a))
    ensures Execute(h, r, AdvanceLine(d)) == (CONTINUE, r.(line := Wrap64(r.line + d)))
  {
    WrapSmall(a);
  }

  lemma ExecuteConstAdd(h: Header, r: Registers)
    requires Adequate(h)
    ensures Execute(h, r, ConstAddPc)
         == (CONTINUE, r.(address := Wrap64(r.address + h.minLength * ConstAddOperations(h))))
  {
  }

  lemma RowsOfSpecial(h: Header, r: Registers, k: nat, d: int64, q: seq<Instruction>)
    requires Adequate(h) && SpecialReaches(h, k, d)
    ensures var r' := Moved(r, Wrap64(r.address + h.minLength * k), Wrap64(r.line + d));
      RowsOf(h, r, EmitSpecial(h, k, d) + q) == [RowOf(r', false)] + RowsOf(h, r', q)
  {
    hide RowsOf, Execute;
    ExecuteSpecial(h, r, k, d);
    RowsOfCons(h, r, Special(Adjusted(h, k, d)), q);
  }

  lemma RowsOfConstAddMove(h: Header, r: Registers, k: uint64, d: int64, a: uint64, q: seq<Instruction>)
    requires Adequate(h) && a == r.address + h.minLength * k && ConstAddReaches(h, k, d)
    ensures var r' := Moved(r, a, Wrap64(r.line + d));
      RowsOf(h, r, [ConstAddPc] + EmitSpecial(h, k - ConstAddOperations(h), d) + q)
        == [RowOf(r', false)] + RowsOf(h, r', q)
  {
    hide RowsOf, Execute, EmitSpecial, ConstAddOperations, SpecialReaches, Wrap64;
    var j := ConstAddOperations(h);
    var r1 := r.(address := Wrap64(r.address + h.minLength * j));
    ExecuteConstAdd(h, r);
    var p := EmitSpecial(h, k - j, d);
    RowsOfSpecial(h, r1, k - j, d, q);
    SplitAdvance(r.address, h.minLength, j, k);
    assert [ConstAddPc] + p + q == [ConstAddPc] + (p + q);
    RowsOfCons(h, r, ConstAddPc, p + q);
  }

  /** The two advances that both long forms begin with. */
  lemma RowsOfAdvances(h: Header, r: Registers, k: uint64, d: int64, a: uint64, q: seq<Instruction>)
    requires Adequate(h) && a == r.address + h.minLength * k
    ensures RowsOf(h, r, [AdvancePc(k), AdvanceLine(d)] + q)
         == RowsOf(h, r.(address := a, line := Wrap64(r.line + d)), q)
  {
    hide RowsOf, Execute;
    ExecuteAdvances(h, r, k, d, a);
    var r1 := r.(address := a);
    ExecuteAdvances(h, r1, 0, d, a);
    assert [AdvancePc(k), AdvanceLine(d)] + q == [AdvancePc(k)] + ([AdvanceLine(d)] + q);
    RowsOfCons(h, r, AdvancePc(k), [AdvanceLine(d)] + q);
    RowsOfCons(h, r1, AdvanceLine(d), q);
  }

  lemma RowsOfLongMove(h: Header, r: Registers, k: uint64, d: int64, a: uint64, q: seq<Instruction>)
    requires Adequate(h) && a == r.address + h.minLength * k
    ensures var r' := Moved(r, a, Wrap64(r.line + d));
      RowsOf(h, r, EmitLongMove(h, k, d) + q) == [RowOf(r', false)] + RowsOf(h, r', q)
  {
    assert EmitLongMove(h, k, d) + q == [AdvancePc(k), AdvanceLine(d)] + ([Copy] + q);
    RowsOfAdvances(h, r, k, d, a, [Copy] + q);
    RowsOfCons(h, r.(address := a, line := Wrap64(r.line + d)), Copy, q);
  }

  lemma RowsOfEnd(h: Header, r: Registers, k: uint64, d: int64, a: uint64, q: seq<Instruction>)
    requires Adequate(h) && a == r.address + h.minLength * k
    ensures RowsOf(h, r, EmitEnd(h, k, d) + q)
         == [Row(a, r.file, Wrap64(r.line + d), true)] + RowsOf(h, Initial(h), q)
  {
    assert EmitEnd(h, k, d) + q == [AdvancePc(k), AdvanceLine(d)] + ([EndSequence] + q);
    RowsOfAdvances(h, r, k, d, a, [EndSequence] + q);
    RowsOfCons(h, r.(address := a, line := Wrap64(r.line + d)), EndSequence, q);
  }

  lemma RowsOfMove(h: Header, r: Registers, k: uint64, d: int64, a: uint64, q: seq<Instruction>)
    requires Adequate(h) && a == r.address + h.minLength * k
    ensures var r' := Moved(r, a, Wrap64(r.line + d));
      RowsOf(h, r, EmitMove(h, k, d) + q) == [RowOf(r', false)] + RowsOf(h, r', q)
  {
    hide RowsOf, Execute;
    if SpecialReaches(h, k, d) {
      WrapSmall(a);
      RowsOfSpecial(h, r, k, d, q);
    } else if ConstAddReaches(h, k, d) {
      RowsOfConstAddMove(h, r, k, d, a, q);
    } else {
      RowsOfLongMove(h, r, k, d, a, q);
    }
  }

  /** The registers once the settings of a row are made. */
  function Settled(r: Registers, p: Position, row: Row): Registers {
    r.(address := if p.opening then row.address else p.address, file := row.file)
  }

  lemma RowsOfSettings(h: Header, r: Registers, p: Position, row: Row, q: seq<Instruction>)
    requires Adequate(h) && At(r, p)
    ensures RowsOf(h, r, EmitSettings(h, p, row) + q) == RowsOf(h, Settled(r, p, row), q)
  {
    var setFile: seq<Instruction> := if row.file != p.file then [SetFile(row.file)] else [];
    var r1 := r.(address := if p.opening then row.address else p.address);
    if p.opening {
      assert EmitSettings(h, p, row) + q == [SetAddress(row.address)] + (setFile + q);
      RowsOfCons(h, r, SetAddress(row.address), setFile + q);
    } else {
      assert EmitSettings(h, p, row) + q == setFile + q;
    }
    if row.file != p.file {
      RowsOfCons(h, r1, SetFile(row.file), q);
    } else {
      assert setFile + q == q;
    }
  }

  lemma RowsOfRow(h: Header, r: Registers, p: Position, row: Row, q: seq<Instruction>) returns (r': Registers)
    requires Adequate(h) && At(r, p) && Reachable(h, p, row)
    ensures if row.end then r' == Initial(h) else At(r', After(row))
    ensures RowsOf(h, r, EmitRow(h, p, row) + q) == [row] + RowsOf(h, r', q)
  {
    hide RowsOf, EmitSettings, EmitMove, EmitEnd;
    var k, d := Operations(h, p, row), LineDelta(p.line, row.line);
    var r1 := Settled(r, p, row);
    var move := if row.end then EmitEnd(h, k, d) else EmitMove(h, k, d);
    assert EmitRow(h, p, row) + q == EmitSettings(h, p, row) + (move + q);
    RowsOfSettings(h, r, p, row, move + q);
    if row.end {
      RowsOfEnd(h, r1, k, d, row.address, q);
      r' := Initial(h);
    } else {
      RowsOfMove(h, r1, k, d, row.address, q);
      r' := Moved(r1, row.address, row.line);
    }
  }

  lemma {:induction false} RowsOfRows(h: Header, r: Registers, p: Position, rows: seq<Row>)
    requires Adequate(h) && Encodable(h, p, rows) && At(r, p)
    ensures RowsOf(h, r, EmitRows(h, p, rows)) == rows
    decreases |rows|
  {
    if rows != [] {
      var q := EmitRows(h, After(rows[0]), rows[1..]);
      var r' := RowsOfRow(h, r, p, rows[0], q);
      RowsOfRows(h, r', After(rows[0]), rows[1..]);
      assert rows == [rows[0]] + rows[1..];
    }
  }

  /** For every header with room for the opcodes used and every encodable matrix,
      running the encoded program commits exactly the matrix. */
  lemma EncodingRoundTrip(h: Header, rows: seq<Row>)
    requires Adequate(h) && Encodable(h, StartPosition(), rows)
    ensures Run(h, Initial(h), Assemble(h, EmitRows(h, StartPosition(), rows))) == Matrix(rows, None)
  {
    RowsOfRows(h, Initial(h), StartPosition(), rows);
    RunAssembled(h, Initial(h), EmitRows(h, StartPosition(), rows));
  }

  // ---------------------------------------------------------------------
  // Instructions the encoder does not use
  // ---------------------------------------------------------------------

  predicate SamePosition(r: Registers, r': Registers) {
    r.address == r'.address && r.file == r'.file && r.line == r'.line
  }

  lemma ExecuteDependsOnPosition(h: Header, r: Registers, r': Registers, i: Instruction)
    requires h.Valid() && h.lineRange != 0 && SamePosition(r, r')
    ensures Execute(h, r, i).0 == Execute(h, r', i).0 && SamePosition(Execute(h, r, i).1, Execute(h, r', i).1)
  {
    hide Wrap64, ConstAddOperations;
  }

  /** Of the registers only address, file and line show in the rows to come. */
  lemma {:induction false} RowsDependOnPosition(h: Header, r: Registers, r': Registers, q: seq<Instruction>)
    requires h.Valid() && h.lineRange != 0 && SamePosition(r, r')
    ensures RowsOf(h, r, q) == RowsOf(h, r', q)
    decreases |q|
  {
    if q != [] {
      ExecuteDependsOnPosition(h, r, r', q[0]);
      RowsDependOnPosition(h, Initial(h), Initial(h), q[1..]);
      hide Execute, Initial;
      RowsDependOnPosition(h, Execute(h, r, q[0]).1, Execute(h, r', q[0]).1, q[1..]);
    }
  }

  /** So an instruction that sets anything else, or that the machine does not know, has no
      part in any row. */
  lemma OtherInstructionsShowInNoRow(h: Header, r: Registers, i: Instruction, q: seq<Instruction>)
    requires h.Valid() && h.lineRange != 0
    requires i.SetColumn? || i.NegateStmt? || i.SetBasicBlock? || i.SetPrologueEnd? || i.SetEpilogueBegin?
          || i.SetIsa? || i.Vendor? || i.SetDiscriminator? || i.Unhandled?
    ensures RowsOf(h, r, [i] + q) == RowsOf(h, r, q)
  {
    RowsOfCons(h, r, i, q);
    RowsDependOnPosition(h, r, Execute(h, r, i).1, q);
  }

  /** The constant advance moves as far as special opcode 255. */
  lemma ConstAddMovesAsOpcode255(h: Header, r: Registers)
    requires Adequate(h)
    ensures Execute(h, r, ConstAddPc).1.address == Execute(h, r, Special(255 - h.opcodeBase)).1.address
    ensures Execute(h, r, ConstAddPc) == (CONTINUE, r.(address := Execute(h, r, ConstAddPc).1.address))
  {
  }

  /** A row clears four flags; each of the others sets a register of its own, or none. */
  lemma OtherInstructionsSetOneRegister(h: Header, r: Registers, v: uint64, opcode: byte, operand: seq<byte>)
    requires h.Valid()
    ensures Execute(h, r, Copy) ==
      (COMMIT, r.(basicBlock := false, prologueEnd := false, epilogueBegin := false, discriminator := 0))
    ensures Execute(h, r, EndSequence) == (END, r)
    ensures Execute(h, r, SetColumn(v)) == (CONTINUE, r.(column := v))
    ensures Execute(h, r, NegateStmt) == (CONTINUE, r.(isStmt := !r.isStmt))
    ensures Execute(h, r, SetBasicBlock) == (CONTINUE, r.(basicBlock := true))
    ensures Execute(h, r, SetPrologueEnd) == (CONTINUE, r.(prologueEnd := true))
    ensures Execute(h, r, SetEpilogueBegin) == (CONTINUE, r.(epilogueBegin := true))
    ensures Execute(h, r, SetIsa(v)) == (CONTINUE, r.(isa := v))
    ensures Execute(h, r, SetDiscriminator(v)) == (CONTINUE, r.(discriminator := v))
    ensures Execute(h, r, Vendor) == Execute(h, r, Unhandled(opcode, operand)) == (CONTINUE, r)
  {
    hide SpecialMove, Advanced, MovedLine, ConstAddOperations, Wrap64;
  }

  /** A fixed advance moves by bytes, not by instructions: it replaces the general advance
      by k instructions when its operand is k times their length. */
  lemma FixedAdvanceReplacesAdvance(h: Header, r: Registers, k: uint64, q: seq<Instruction>)
    requires h.Valid() && h.lineRange != 0
    ensures RowsOf(h, r, [FixedAdvancePc(h.minLength * k)] + q) == RowsOf(h, r, [AdvancePc(k)] + q)
  {
    hide RowsOf;
    RowsOfCons(h, r, FixedAdvancePc(h.minLength * k), q);
    RowsOfCons(h, r, AdvancePc(k), q);
  }

  /** The opcodes are those of section 7.21: first those without an operand. */
  lemma DecodesPlainOpcodes(h: Header, tail: seq<byte>)
    requires h.Valid() && h.opcodeBase > 12 && h.version != 2
    ensures Decode(h, [1] + tail) == Done(Copy, tail)
    ensures Decode(h, [6] + tail) == Done(NegateStmt, tail)
    ensures Decode(h, [7] + tail) == Done(SetBasicBlock, tail)
    ensures Decode(h, [8] + tail) == Done(ConstAddPc, tail)
    ensures Decode(h, [10] + tail) == Done(SetPrologueEnd, tail)
    ensures Decode(h, [11] + tail) == Done(SetEpilogueBegin, tail)
  {
    forall op: byte | op in {1, 6, 7, 8, 10, 11}
      ensures Decode(h, [op] + tail) == Done(PlainInstruction(h, op).value, tail)
    {
      assert ([op] + tail)[1..] == tail;
    }
  }

  lemma DecodesOpcodesWithOperand(h: Header, n: byte, m: byte, tail: seq<byte>)
    requires h.Valid() && h.opcodeBase > 12 && h.version != 2 && n < 64
    ensures Decode(h, [2] + ([n] + tail)) == Done(AdvancePc(n), tail)
    ensures Decode(h, [3] + ([n] + tail)) == Done(AdvanceLine(n), tail)
    ensures Decode(h, [4] + ([n] + tail)) == Done(SetFile(n), tail)
    ensures Decode(h, [5] + ([n] + tail)) == Done(SetColumn(n), tail)
    ensures Decode(h, [12] + ([n] + tail)) == Done(SetIsa(n), tail)
    ensures Decode(h, [9] + ([n, m] + tail)) == Done(FixedAdvancePc(n as int + 256 * m as int), tail)
  {
    SmallNumber(n, tail);
    TwoByteNumber(n, m, tail);
    forall op: byte, t: seq<byte> | 0 < op <= 12
      ensures Decode(h, [op] + t) == StandardOperands(h, op, t)
    {
      assert ([op] + t)[1..] == t;
    }
    hide Decode, Uleb, Sleb, Fixed;
  }

  lemma TwoByteNumber(n: byte, m: byte, tail: seq<byte>)
    ensures Fixed([n, m] + tail, 2) == Done(n as int + 256 * m as int, tail)
  {
    assert ([n, m] + tail)[..2] == [n, m] && ([n, m] + tail)[2..] == tail;
    assert [n, m][1..] == [m] && [m][1..] == [];
    assert LittleEndian([m]) == m;
  }

  /** An extended instruction has its length, less the zero byte and its own, before it. */
  lemma DecodesExtendedOpcodes(h: Header, n: byte, operand: seq<byte>, tail: seq<byte>)
    requires h.Valid() && n < 64 && |operand| == 8
    ensures Decode(h, [0] + ([1, 1] + tail)) == Done(EndSequence, tail)
    ensures LittleEndian(operand) < TWO64
    ensures Decode(h, [0] + ([9, 2] + (operand + tail))) == Done(SetAddress(LittleEndian(operand)), tail)
    ensures Decode(h, [0] + ([9, 3] + (operand + tail))) == Done(Unhandled(3, operand), tail)
    ensures Decode(h, [0] + ([2, 4] + ([n] + tail))) == Done(SetDiscriminator(n), tail)
  {
    ExtendedStarts(h, 1, 1, tail);
    ExtendedStarts(h, 9, 2, operand + tail);
    ExtendedStarts(h, 9, 3, operand + tail);
    ExtendedStarts(h, 2, 4, [n] + tail);
    OperandsOfExtendedOpcodes(n, operand, tail);
    hide *;
  }

  lemma OperandsOfExtendedOpcodes(n: byte, operand: seq<byte>, tail: seq<byte>)
    requires n < 64 && |operand| == 8
    ensures ExtendedOperands(0, 1, tail) == Done(EndSequence, tail)
    ensures LittleEndian(operand) < TWO64
    ensures ExtendedOperands(8, 2, operand + tail) == Done(SetAddress(LittleEndian(operand)), tail)
    ensures ExtendedOperands(8, 3, operand + tail) == Done(Unhandled(3, operand), tail)
    ensures ExtendedOperands(1, 4, [n] + tail) == Done(SetDiscriminator(n), tail)
  {
    SmallNumber(n, tail);
    EightBytes(operand, tail);
    hide Uleb, LittleEndian, Fixed;
  }

  lemma EightBytes(operand: seq<byte>, tail: seq<byte>)
    requires |operand| == 8
    ensures (operand + tail)[..8] == operand && (operand + tail)[8..] == tail
    ensures LittleEndian(operand) < TWO64 && Fixed(operand + tail, 8) == Done(LittleEndian(operand), tail)
  {
    Pow2At64();
  }

  lemma ExtendedStarts(h: Header, length: byte, opcode: byte, t: seq<byte>)
    requires h.Valid() && 0 < length < 64
    ensures Decode(h, [0] + ([length, opcode] + t)) == ExtendedOperands(length - 1, opcode, t)
  {
    SmallNumber(length, [opcode] + t);
    assert [length, opcode] + t == [length] + ([opcode] + t);
    assert ([0] + ([length, opcode] + t))[1..] == [length, opcode] + t;
    hide Uleb, ExtendedOperands;
  }

  lemma SmallNumber(n: byte, tail: seq<byte>)
    requires n < 64
    ensures Uleb([n] + tail) == Done(n, tail) && Sleb([n] + tail) == Done(n, tail)
  {
    UlebRoundTrip(n, tail);
    SlebRoundTrip(n, tail);
  }
}
