// Specification of the line-number program of DWARF version 4, section 6.2, as
// symbolizer/Dwarf.cc executes it: what one instruction is, what it does to the
// registers, and which rows a whole program commits.
module LineProgram {
  import opened Base
  import opened Leb128

  // opcodes of DWARF 4, section 7.21
  const LNS_COPY := 1
  const LNS_ADVANCE_PC := 2
  const LNS_ADVANCE_LINE := 3
  const LNS_SET_FILE := 4
  const LNS_SET_COLUMN := 5
  const LNS_NEGATE_STMT := 6
  const LNS_SET_BASIC_BLOCK := 7
  const LNS_CONST_ADD_PC := 8
  const LNS_FIXED_ADVANCE_PC := 9
  const LNS_SET_PROLOGUE_END := 10
  const LNS_SET_EPILOGUE_BEGIN := 11
  const LNS_SET_ISA := 12

  const LNE_END_SEQUENCE := 1
  const LNE_SET_ADDRESS := 2
  const LNE_DEFINE_FILE := 3
  const LNE_SET_DISCRIMINATOR := 4

  /** The part of the program header that steers execution. */
  datatype Header = Header(
    version: nat,
    minLength: byte,
    defaultIsStmt: bool,
    lineBase: int,
    lineRange: byte,
    opcodeBase: byte,
    opcodeLengths: seq<byte>)
  {
    predicate Valid() {
      && opcodeBase != 0
      && |opcodeLengths| == opcodeBase - 1
      && -128 <= lineBase < 128
    }
  }

  datatype Registers = Registers(
    address: uint64,
    file: uint64,
    line: uint64,
    column: uint64,
    isStmt: bool,
    basicBlock: bool,
    endSequence: bool,
    prologueEnd: bool,
    epilogueBegin: bool,
    isa: uint64,
    discriminator: uint64)

  function Initial(h: Header): Registers {
    Registers(0, 1, 1, 0, h.defaultIsStmt, false, false, false, false, 0, 0)
  }

  // ---------------------------------------------------------------------
  // Instructions
  // ---------------------------------------------------------------------

  datatype Instruction =
    | Special(adjusted: byte)
    | Copy
    | AdvancePc(operations: uint64)
    | AdvanceLine(lines: int64)
    | SetFile(file: uint64)
    | SetColumn(column: uint64)
    | NegateStmt
    | SetBasicBlock
    | ConstAddPc
    | FixedAdvancePc(bytes: nat)
    | SetPrologueEnd
    | SetEpilogueBegin
    | SetIsa(isa: uint64)
    | Vendor
    | EndSequence
    | SetAddress(address: uint64)
    | SetDiscriminator(discriminator: uint64)
    | Unhandled(opcode: byte, operand: seq<byte>)

  function LittleEndian(s: seq<byte>): (v: nat)
    ensures v < Pow2(8 * |s|)
  {
    if s == [] then 0
    else
      LittleEndianBound(s);
      s[0] + 256 * LittleEndian(s[1..])
  }

  lemma LittleEndianBound(s: seq<byte>)
    requires s != []
    ensures Pow2(8 * |s|) == 256 * Pow2(8 * |s[1..]|)
  {
    Pow2Add(8, 8 * (|s| - 1));
    assert Pow2(8) == 256;
    assert 8 * |s| == 8 + 8 * (|s| - 1);
  }

  /** Read<T> of an n-byte integer on a little-endian machine. */
  function Fixed(s: seq<byte>, n: nat): (r: Read<nat>)
    ensures r.Done? ==> r.value < Pow2(8 * n) && |r.rest| == |s| - n
  {
    if |s| < n then Abort(Underflow) else Done(LittleEndian(s[..n]), s[n..])
  }

  /** Skips n unsigned LEB128 operands. */
  function SkipUlebs(s: seq<byte>, n: nat): (r: Read<()>)
    ensures r.Done? ==> |r.rest| <= |s| - n
    decreases n
  {
    if n == 0 then Done((), s)
    else
      match Uleb(s)
      case Abort(why) => Abort(why)
      case Done(_, rest) => SkipUlebs(rest, n - 1)
  }

  /** Wraps the value a reader found. */
  function MapRead<A, B>(r: Read<A>, f: A -> B): (m: Read<B>)
    ensures m.Done? <==> r.Done?
    ensures m.Done? ==> m.rest == r.rest
  {
    match r
    case Abort(why) => Abort(why)
    case Done(v, rest) => Done(f(v), rest)
  }

  /** A standard opcode without operands, where the version recognises it. */
  function PlainInstruction(h: Header, opcode: byte): Option<Instruction> {
    if opcode == LNS_COPY then Some(Copy)
    else if opcode == LNS_NEGATE_STMT then Some(NegateStmt)
    else if opcode == LNS_SET_BASIC_BLOCK then Some(SetBasicBlock)
    else if opcode == LNS_CONST_ADD_PC then Some(ConstAddPc)
    else if opcode == LNS_SET_PROLOGUE_END && h.version != 2 then Some(SetPrologueEnd)
    else if opcode == LNS_SET_EPILOGUE_BEGIN && h.version != 2 then Some(SetEpilogueBegin)
    else None
  }

  /** A standard opcode with one unsigned operand, where the version recognises it. */
  function UnsignedInstruction(h: Header, opcode: byte, v: uint64): Option<Instruction> {
    if opcode == LNS_ADVANCE_PC then Some(AdvancePc(v))
    else if opcode == LNS_SET_FILE then Some(SetFile(v))
    else if opcode == LNS_SET_COLUMN then Some(SetColumn(v))
    else if opcode == LNS_SET_ISA && h.version != 2 then Some(SetIsa(v))
    else None
  }

  /** The operands of a standard opcode, following the byte that names it. Only opcodes
      the version recognises are interpreted; the header says how many operands of the
      others to skip. */
  function StandardOperands(h: Header, opcode: byte, s: seq<byte>): (r: Read<Instruction>)
    requires h.Valid() && 0 < opcode < h.opcodeBase
    ensures r.Done? ==> |r.rest| <= |s|
  {
    if PlainInstruction(h, opcode).Some? then Done(PlainInstruction(h, opcode).value, s)
    else if UnsignedInstruction(h, opcode, 0).Some? then
      match Uleb(s)
      case Abort(why) => Abort(why)
      case Done(v, rest) => Done(UnsignedInstruction(h, opcode, v).value, rest)
    else if opcode == LNS_ADVANCE_LINE then
      match Sleb(s)
      case Abort(why) => Abort(why)
      case Done(v, rest) => Done(AdvanceLine(v), rest)
    else if opcode == LNS_FIXED_ADVANCE_PC then
      match Fixed(s, 2)
      case Abort(why) => Abort(why)
      case Done(v, rest) => Done(FixedAdvancePc(v), rest)
    else
      match SkipUlebs(s, h.opcodeLengths[opcode - 1])
      case Abort(why) => Abort(why)
      case Done(_, rest) => Done(Vendor, rest)
  }

  /** Length and opcode of an extended instruction, following the zero byte.
      The length found is what remains after the opcode. */
  function ExtendedPrefix(s: seq<byte>): (r: Read<(uint64, byte)>)
    ensures r.Done? ==> |r.rest| < |s|
  {
    match Uleb(s)
    case Abort(why) => Abort(why)
    case Done(length, t) =>
      if length == 0 then Abort(ZeroLength)
      else if t == [] then Abort(Underflow)
      else Done((length - 1, t[0]), t[1..])
  }

  function ExtendedOperands(length: uint64, opcode: byte, s: seq<byte>): (r: Read<Instruction>)
    ensures r.Done? ==> |r.rest| <= |s|
  {
    if opcode == LNE_END_SEQUENCE then Done(EndSequence, s)
    else if opcode == LNE_SET_ADDRESS then
      Pow2At64();
      match Fixed(s, 8)
      case Abort(why) => Abort(why)
      case Done(v, rest) => Done(SetAddress(v), rest)
    else if opcode == LNE_SET_DISCRIMINATOR then MapRead(Uleb(s), v => SetDiscriminator(v))
    else if length > |s| then Abort(Underflow)
    else Done(Unhandled(opcode, s[..length]), s[length..])
  }

  /** The next instruction of a program. */
  function Decode(h: Header, s: seq<byte>): (r: Read<Instruction>)
    requires h.Valid()
    ensures r.Done? ==> |r.rest| < |s|
  {
    if s == [] then Abort(Underflow)
    else if s[0] >= h.opcodeBase then Done(Special(s[0] - h.opcodeBase), s[1..])
    else if s[0] != 0 then StandardOperands(h, s[0], s[1..])
    else
      match ExtendedPrefix(s[1..])
      case Abort(why) => Abort(why)
      case Done((length, opcode), rest) => ExtendedOperands(length, opcode, rest)
  }

  // ---------------------------------------------------------------------
  // Execution
  // ---------------------------------------------------------------------

  datatype StepResult = CONTINUE | COMMIT | END

  /** The flags that a committed row clears. */
  function AfterCommit(r: Registers): Registers {
    r.(basicBlock := false, prologueEnd := false, epilogueBegin := false, discriminator := 0)
  }

  function ConstAddOperations(h: Header): nat
    requires h.Valid() && h.lineRange != 0
  {
    (255 - h.opcodeBase) / h.lineRange
  }

  /** Moves the address on by n instructions. */
  function Advanced(h: Header, r: Registers, n: nat): Registers {
    r.(address := Wrap64(r.address + h.minLength * n))
  }

  function MovedLine(r: Registers, n: int): Registers {
    r.(line := Wrap64(r.line + n))
  }

  /** A special opcode moves both address and line. */
  function SpecialMove(h: Header, r: Registers, adjusted: byte): Registers
    requires h.lineRange != 0
  {
    MovedLine(Advanced(h, r, adjusted / h.lineRange), h.lineBase + adjusted % h.lineRange)
  }

  function Execute(h: Header, r: Registers, i: Instruction): (StepResult, Registers)
    requires h.Valid()
    requires i.Special? || i.ConstAddPc? ==> h.lineRange != 0
  {
    match i
    case Special(adjusted) => (COMMIT, AfterCommit(SpecialMove(h, r, adjusted)))
    case Copy => (COMMIT, AfterCommit(r))
    case AdvancePc(n) => (CONTINUE, Advanced(h, r, n))
    case AdvanceLine(n) => (CONTINUE, MovedLine(r, n))
    case SetFile(f) => (CONTINUE, r.(file := f))
    case SetColumn(c) => (CONTINUE, r.(column := c))
    case NegateStmt => (CONTINUE, r.(isStmt := !r.isStmt))
    case SetBasicBlock => (CONTINUE, r.(basicBlock := true))
    case ConstAddPc => (CONTINUE, Advanced(h, r, ConstAddOperations(h)))
    case FixedAdvancePc(n) => (CONTINUE, r.(address := Wrap64(r.address + n)))
    case SetPrologueEnd => (CONTINUE, r.(prologueEnd := true))
    case SetEpilogueBegin => (CONTINUE, r.(epilogueBegin := true))
    case SetIsa(a) => (CONTINUE, r.(isa := a))
    case Vendor => (CONTINUE, r)
    case EndSequence => (END, r)
    case SetAddress(a) => (CONTINUE, r.(address := a))
    case SetDiscriminator(d) => (CONTINUE, r.(discriminator := d))
    case Unhandled(_, _) => (CONTINUE, r)
  }

  function Step(h: Header, r: Registers, s: seq<byte>): (o: Read<(StepResult, Registers)>)
    requires h.Valid()
    ensures o.Done? ==> |o.rest| < |s|
  {
    match Decode(h, s)
    case Abort(why) => Abort(why)
    case Done(i, rest) =>
      if (i.Special? || i.ConstAddPc?) && h.lineRange == 0 then Abort(DivisionByZero)
      else Done(Execute(h, r, i), rest)
  }

  /** Runs to the next committed row or end of sequence; the flag is true for a row. */
  function Next(h: Header, r: Registers, s: seq<byte>): (o: Read<(bool, Registers)>)
    requires h.Valid()
    ensures o.Done? ==> |o.rest| < |s|
    decreases |s|
  {
    match Step(h, r, s)
    case Abort(why) => Abort(why)
    case Done((result, r'), rest) =>
      if result == CONTINUE then Next(h, r', rest) else Done((result == COMMIT, r'), rest)
  }

  /** A row of the line-number matrix; an end row only bounds the row before it. */
  datatype Row = Row(address: uint64, file: uint64, line: uint64, end: bool)

  function RowOf(r: Registers, end: bool): Row {
    Row(r.address, r.file, r.line, end)
  }

  /** All rows a program commits, and the stop that cut it short, if any. */
  datatype Matrix = Matrix(rows: seq<Row>, stopped: Option<Fault>)

  function Run(h: Header, r: Registers, s: seq<byte>): Matrix
    requires h.Valid()
    decreases |s|
  {
    if s == [] then Matrix([], None)
    else
      match Next(h, r, s)
      case Abort(why) => Matrix([], Some(why))
      case Done((committed, r'), rest) =>
        var m := Run(h, if committed then r' else Initial(h), rest);
        m.(rows := [RowOf(r', !committed)] + m.rows)
  }
}
