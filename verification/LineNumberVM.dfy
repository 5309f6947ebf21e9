// symbolizer/Dwarf.{h,cc}: the line-number VM, which searches for an address while it
// executes the program and never holds the matrix.
module LineNumberVMs {
  import opened Base
  import opened StringPieces
  import opened Leb128
  import opened LineProgram
  import opened LineTable
  import opened FileTables
  import opened LineUnit

  // ---------------------------------------------------------------------
  // Readers
  // ---------------------------------------------------------------------

  /** Read<T> of an n-byte integer. */
  method ReadFixed(s: StringPiece, n: nat) returns (r: Result<nat>)
    requires s.Valid()
    modifies s
    ensures s.Valid() && Follows(Fixed(old(s.View()), n), r, s.View())
  {
    if s.length < n {
      return Err(Underflow);
    }
    assert s.buffer[s.ptr..s.ptr + n] == s.View()[..n];
    r := Ok(LittleEndian(s.buffer[s.ptr..s.ptr + n]));
    s.RemovePrefix(n);
  }

  method ReadNullTerminated(s: StringPiece) returns (r: Result<seq<byte>>)
    requires s.Valid()
    modifies s
    ensures s.Valid() && Follows(NullTerminated(old(s.View())), r, s.View())
  {
    var n := 0;
    ghost var view := s.View();
    while n < s.length && s.buffer[s.ptr + n] != 0
      invariant n <= s.length
      invariant forall j :: 0 <= j < n ==> view[j] != 0
    {
      n := n + 1;
    }
    NonNullPrefix(view, n);
    if n == s.length {
      return Err(Unterminated);
    }
    r := Ok(s.buffer[s.ptr..s.ptr + n]);
    assert r.value == view[..n];
    s.RemovePrefix(n + 1);
  }

  /** The first n bytes are not null, so they begin the string. */
  lemma {:induction false} NonNullPrefix(s: seq<byte>, n: nat)
    requires n <= |s| && forall j :: 0 <= j < n ==> s[j] != 0
    ensures n == |s| ==> NullTerminated(s) == Abort(Unterminated)
    ensures n < |s| && s[n] == 0 ==> NullTerminated(s) == Done(s[..n], s[n + 1..])
    decreases n
  {
    if n > 0 {
      NonNullPrefix(s[1..], n - 1);
      assert n < |s| ==> [s[0]] + s[1..][..n - 1] == s[..n];
    }
  }

  method ReadSkippedUlebs(s: StringPiece, count: nat) returns (r: Result<()>)
    requires s.Valid()
    modifies s
    ensures s.Valid() && Follows(SkipUlebs(old(s.View()), count), r, s.View())
  {
    var left := count;
    while left > 0
      invariant s.Valid()
      invariant SkipUlebs(s.View(), left) == SkipUlebs(old(s.View()), count)
    {
      var operand := ReadUleb(s);
      if operand.Err? {
        return Err(operand.why);
      }
      left := left - 1;
    }
    r := Ok(());
  }

  method ReadFileName(s: StringPiece) returns (r: Result<Option<FileName>>)
    requires s.Valid()
    modifies s
    ensures s.Valid() && Follows(FileEntry(old(s.View())), r, s.View())
  {
    var name := ReadNullTerminated(s);
    if name.Err? {
      return Err(name.why);
    }
    if name.value == [] {
      return Ok(None);
    }
    var directory := ReadUleb(s);
    if directory.Err? {
      return Err(directory.why);
    }
    // file size and last modified time
    var skipped := ReadSkippedUlebs(s, 2);
    if skipped.Err? {
      return Err(skipped.why);
    }
    r := Ok(Some(FileName(name.value, directory.value)));
  }

  /** Length and opcode of an extended instruction. */
  method ReadExtendedPrefix(s: StringPiece) returns (r: Result<(uint64, byte)>)
    requires s.Valid()
    modifies s
    ensures s.Valid() && Follows(ExtendedPrefix(old(s.View())), r, s.View())
  {
    var length := ReadUleb(s);
    if length.Err? {
      return Err(length.why);
    }
    if length.value == 0 {
      return Err(ZeroLength);
    }
    var opcode := ReadByte(s);
    if opcode.Err? {
      return Err(opcode.why);
    }
    r := Ok((length.value - 1, opcode.value));
  }

  /** Skips over the include directories, keeping their bytes and their number. */
  method ReadDirectories(s: StringPiece) returns (r: Result<(seq<byte>, nat)>)
    requires s.Valid()
    modifies s
    ensures s.Valid()
    ensures match DirectoryTable(old(s.View()))
      case Abort(why) => r == Err(why)
      case Done(names, rest) => r == Ok((Consumed(old(s.View()), rest), |names|)) && s.View() == rest
  {
    var start, length := s.ptr, s.length;
    ghost var view, names := s.View(), [];
    PrefixedByNothing(DirectoryTable(view));
    var count := 0;
    while true
      invariant s.Valid() && s.length <= length && count == |names|
      invariant DirectoryTable(view) == Prefixed(names, DirectoryTable(s.View()))
      decreases s.length
    {
      ghost var here := s.View();
      var name := ReadNullTerminated(s);
      if name.Err? { return Err(name.why); }
      if name.value == [] { break; }
      PrefixedTwice(names, [name.value], DirectoryTable(s.View()));
      names := names + [name.value];
      count := count + 1;
    }
    r := Ok((s.buffer[start..start + (length - s.length)], count));
    assert r.value.0 == view[..length - s.length];
  }

  /** Skips over the file names, keeping their bytes and their number. */
  method ReadFileNames(s: StringPiece) returns (r: Result<(seq<byte>, nat)>)
    requires s.Valid()
    modifies s
    ensures s.Valid()
    ensures match FileTable(old(s.View()))
      case Abort(why) => r == Err(why)
      case Done(files, rest) => r == Ok((Consumed(old(s.View()), rest), |files|)) && s.View() == rest
  {
    var start, length := s.ptr, s.length;
    ghost var view, files := s.View(), [];
    PrefixedByNothing(FileTable(view));
    var count := 0;
    while true
      invariant s.Valid() && s.length <= length && count == |files|
      invariant FileTable(view) == Prefixed(files, FileTable(s.View()))
      decreases s.length
    {
      var entry := ReadFileName(s);
      if entry.Err? { return Err(entry.why); }
      if entry.value.None? { break; }
      PrefixedTwice(files, [entry.value.value], FileTable(s.View()));
      files := files + [entry.value.value];
      count := count + 1;
    }
    r := Ok((s.buffer[start..start + (length - s.length)], count));
    assert r.value.0 == view[..length - s.length];
  }

  // ---------------------------------------------------------------------
  // The VM
  // ---------------------------------------------------------------------

  class LineNumberVM {
    // what Init reads from the header, and the program
    var unit: Unit
    // the state machine registers
    var registers: Registers

    ghost predicate Valid()
      reads this
    {
      unit.header.Valid()
    }

    method Reset()
      modifies this`registers
      ensures registers == Initial(unit.header)
      ensures registers == Registers(0, 1, 1, 0, unit.header.defaultIsStmt, false, false, false, false, 0, 0)
    {
      registers := Registers(
        address := 0, file := 1, line := 1, column := 0, isStmt := unit.header.defaultIsStmt,
        basicBlock := false, endSequence := false, prologueEnd := false, epilogueBegin := false,
        isa := 0, discriminator := 0);
    }

    /** Reads the header; the rest of the chunk is the program. */
    method Init(chunk: seq<byte>, is64Bits: bool) returns (fault: Option<Fault>)
      modifies this`unit
      ensures match Parse(chunk, is64Bits)
        case Err(why) => fault == Some(why)
        case Ok(parsed) => fault == None && unit == parsed && WellCounted(unit)
    {
      ghost var parsed := Parse(chunk, is64Bits);
      if parsed.Ok? {
        ParsedUnitIsWellCounted(chunk, is64Bits);
      }
      hide WellCounted, ParseHeader;
      var data := new StringPiece(chunk);
      var version := ReadFixed(data, 2);
      if version.Err? { return Some(version.why); }
      if version.value < 2 || version.value > 4 { return Some(BadHeader); }
      var length := ReadFixed(data, if is64Bits then 8 else 4);
      if length.Err? { return Some(length.why); }
      var header := InitHeader(version.value, length.value, data);
      if header.Err? { return Some(header.why); }
      unit := header.value;
      fault := None;
    }

    method InitHeader(version: nat, length: nat, data: StringPiece) returns (r: Result<Unit>)
      requires data.Valid()
      modifies data
      ensures r == ParseHeader(version, length, old(data.View()))
    {
      hide HeaderFields, ParseTables;
      if length > data.length { return Err(BadHeader); }
      var header := new StringPiece(data.buffer[data.ptr..data.ptr + length]);
      assert header.View() == data.View()[..length];
      data.RemovePrefix(length);
      var fields := InitFields(version, header);
      if fields.Err? { return Err(fields.why); }
      r := InitTables(fields.value, header, data.buffer[data.ptr..data.ptr + data.length]);
    }

    method InitTables(h: Header, header: StringPiece, program: seq<byte>) returns (r: Result<Unit>)
      requires h.Valid() && header.Valid()
      modifies header
      ensures r == ParseTables(h, old(header.View()), program)
    {
      var directories := ReadDirectories(header);
      if directories.Err? { return Err(directories.why); }
      var files := ReadFileNames(header);
      if files.Err? { return Err(files.why); }
      r := Ok(Unit(h, directories.value.0, directories.value.1, files.value.0, files.value.1, program));
    }

    method InitFields(version: nat, header: StringPiece) returns (r: Result<Header>)
      requires header.Valid()
      modifies header
      ensures header.Valid() && Follows(HeaderFields(version, old(header.View())), r, header.View())
    {
      var minLength := ReadByte(header);
      if minLength.Err? { return Err(minLength.why); }
      if version == 4 {
        var maxOps := ReadByte(header);
        if maxOps.Err? { return Err(maxOps.why); }
        if maxOps.value != 1 { return Err(BadHeader); }
      }
      r := InitParameters(version, minLength.value, header);
    }

    method InitParameters(version: nat, minLength: byte, header: StringPiece) returns (r: Result<Header>)
      requires header.Valid()
      modifies header
      ensures header.Valid() && Follows(ParameterFields(version, minLength, old(header.View())), r, header.View())
    {
      ghost var view := header.View();
      var isStmt := ReadByte(header);
      if isStmt.Err? { return Err(isStmt.why); }
      var lineBase := ReadByte(header);
      if lineBase.Err? { return Err(lineBase.why); }
      var lineRange := ReadByte(header);
      if lineRange.Err? { return Err(lineRange.why); }
      var opcodeBase := ReadByte(header);
      if opcodeBase.Err? { return Err(opcodeBase.why); }
      assert header.View() == view[4..];
      if opcodeBase.value == 0 { return Err(BadHeader); }
      var count := opcodeBase.value - 1;
      if header.length < count { return Err(Underflow); }
      var lengths := header.buffer[header.ptr..header.ptr + count];
      assert lengths == view[4..][..count] == view[4..4 + count];
      header.RemovePrefix(count);
      assert header.View() == view[4 + count..];
      r := Ok(Header(version, minLength, isStmt.value != 0, ToInt8(lineBase.value), lineRange.value,
                     opcodeBase.value, lengths));
    }

    method ClearFlags()
      modifies this`registers
      ensures registers == AfterCommit(old(registers))
    {
      registers := registers.(basicBlock := false, prologueEnd := false, epilogueBegin := false, discriminator := 0);
    }

    /** The operands and effect of a standard opcode. */
    method StepStandard(program: StringPiece, opcode: byte) returns (r: Result<StepResult>)
      requires Valid() && program.Valid() && 0 < opcode < unit.header.opcodeBase
      modifies this`registers, program
      ensures program.Valid()
      ensures match StandardOperands(unit.header, opcode, old(program.View()))
        case Abort(why) => r == Err(why)
        case Done(i, rest) =>
          if i.ConstAddPc? && unit.header.lineRange == 0 then r == Err(DivisionByZero)
          else
            && r.Ok? && (r.value, registers) == Execute(unit.header, old(registers), i)
            && program.View() == rest
    {
      hide Advanced, MovedLine, Wrap64, AfterCommit, Uleb, Sleb, Fixed, SkipUlebs, Initial;
      if opcode == LNS_COPY {
        ClearFlags();
        return Ok(COMMIT);
      } else if opcode == LNS_ADVANCE_LINE {
        var n := ReadSleb(program);
        if n.Err? { return Err(n.why); }
        registers := MovedLine(registers, n.value);
        return Ok(CONTINUE);
      } else if opcode == LNS_NEGATE_STMT {
        registers := registers.(isStmt := !registers.isStmt);
        return Ok(CONTINUE);
      } else if opcode == LNS_SET_BASIC_BLOCK {
        registers := registers.(basicBlock := true);
        return Ok(CONTINUE);
      } else if opcode == LNS_CONST_ADD_PC {
        if unit.header.lineRange == 0 { return Err(DivisionByZero); }
        registers := Advanced(unit.header, registers, (255 - unit.header.opcodeBase) / unit.header.lineRange);
        return Ok(CONTINUE);
      } else if opcode == LNS_FIXED_ADVANCE_PC {
        var n := ReadFixed(program, 2);
        if n.Err? { return Err(n.why); }
        registers := registers.(address := Wrap64(registers.address + n.value));
        return Ok(CONTINUE);
      } else if opcode == LNS_SET_PROLOGUE_END && unit.header.version != 2 {
        registers := registers.(prologueEnd := true);
        return Ok(CONTINUE);
      } else if opcode == LNS_SET_EPILOGUE_BEGIN && unit.header.version != 2 {
        registers := registers.(epilogueBegin := true);
        return Ok(CONTINUE);
      } else if UnsignedInstruction(unit.header, opcode, 0).Some? {
        r := StepUnsigned(program, opcode);
        return;
      }
      var skipped := ReadSkippedUlebs(program, unit.header.opcodeLengths[opcode - 1]);
      if skipped.Err? { return Err(skipped.why); }
      r := Ok(CONTINUE);
    }

    /** The standard opcodes with one unsigned operand. */
    method StepUnsigned(program: StringPiece, opcode: byte) returns (r: Result<StepResult>)
      requires Valid() && program.Valid() && UnsignedInstruction(unit.header, opcode, 0).Some?
      modifies this`registers, program
      ensures program.Valid()
      ensures match Uleb(old(program.View()))
        case Abort(why) => r == Err(why)
        case Done(v, rest) =>
          && r.Ok? && program.View() == rest
          && (r.value, registers)
             == Execute(unit.header, old(registers), UnsignedInstruction(unit.header, opcode, v).value)
    {
      hide Advanced, Uleb;
      var n := ReadUleb(program);
      if n.Err? { return Err(n.why); }
      if opcode == LNS_ADVANCE_PC {
        registers := Advanced(unit.header, registers, n.value);
      } else if opcode == LNS_SET_FILE {
        registers := registers.(file := n.value);
      } else if opcode == LNS_SET_COLUMN {
        registers := registers.(column := n.value);
      } else if opcode == LNS_SET_ISA && unit.header.version != 2 {
        registers := registers.(isa := n.value);
      }
      r := Ok(CONTINUE);
    }

    method StepExtended(program: StringPiece) returns (r: Result<StepResult>)
      requires Valid() && program.Valid()
      modifies this`registers, program
      ensures program.Valid()
      ensures match ExtendedPrefix(old(program.View()))
        case Abort(why) => r == Err(why)
        case Done((length, opcode), s) =>
          match ExtendedOperands(length, opcode, s)
          case Abort(why) => r == Err(why)
          case Done(i, rest) =>
            && r.Ok? && (r.value, registers) == Execute(unit.header, old(registers), i)
            && program.View() == rest
    {
      hide ExtendedPrefix, Uleb, Fixed;
      var prefix := ReadExtendedPrefix(program);
      if prefix.Err? { return Err(prefix.why); }
      var (length, opcode) := prefix.value;
      if opcode == LNE_END_SEQUENCE {
        return Ok(END);
      } else if opcode == LNE_SET_ADDRESS {
        var a := ReadFixed(program, 8);
        if a.Err? { return Err(a.why); }
        Pow2At64();
        registers := registers.(address := a.value);
        return Ok(CONTINUE);
      } else if opcode == LNE_SET_DISCRIMINATOR {
        var d := ReadUleb(program);
        if d.Err? { return Err(d.why); }
        registers := registers.(discriminator := d.value);
        return Ok(CONTINUE);
      }
      if length > program.length { return Err(Underflow); }
      program.RemovePrefix(length);
      r := Ok(CONTINUE);
    }

    /** Executes one opcode. */
    method Step(program: StringPiece) returns (r: Result<StepResult>)
      requires Valid() && program.Valid()
      modifies this`registers, program
      ensures program.Valid()
      ensures match LineProgram.Step(unit.header, old(registers), old(program.View()))
        case Abort(why) => r == Err(why)
        case Done((result, after), rest) =>
          r == Ok(result) && registers == after && program.View() == rest
    {
      var opcode := ReadByte(program);
      if opcode.Err? { return Err(opcode.why); }
      if opcode.value >= unit.header.opcodeBase {
        if unit.header.lineRange == 0 { return Err(DivisionByZero); }
        var adjusted := opcode.value - unit.header.opcodeBase;
        registers := Advanced(unit.header, registers, adjusted / unit.header.lineRange);
        registers := MovedLine(registers, unit.header.lineBase + adjusted % unit.header.lineRange);
        ClearFlags();
        return Ok(COMMIT);
      }
      if opcode.value != 0 {
        r := StepStandard(program, opcode.value);
      } else {
        r := StepExtended(program);
      }
    }

    /** Executes until one row is committed or the sequence ends; true for a row. */
    method Next(program: StringPiece) returns (r: Result<bool>)
      requires Valid() && program.Valid()
      modifies this`registers, program
      ensures program.Valid()
      ensures match LineProgram.Next(unit.header, old(registers), old(program.View()))
        case Abort(why) => r == Err(why)
        case Done((committed, after), rest) =>
          r == Ok(committed) && registers == after && program.View() == rest
    {
      var result := CONTINUE;
      while result == CONTINUE
        invariant program.Valid()
        invariant LineProgram.Next(unit.header, old(registers), old(program.View()))
               == if result == CONTINUE
                  then LineProgram.Next(unit.header, registers, program.View())
                  else Done((result == COMMIT, registers), program.View())
        decreases result == CONTINUE, |program.View()|
      {
        var step := Step(program);
        if step.Err? { return Err(step.why); }
        result := step.value;
      }
      r := Ok(result == COMMIT);
    }

    /** One turn of the second pass; tested says which byte is compared. */
    method NextDefineFile(program: StringPiece, tested: Tested) returns (r: Result<Option<FileName>>)
      requires Valid() && program.Valid()
      modifies program
      ensures program.Valid()
      ensures Follows(FileTables.NextDefineFile(unit.header, old(program.View()), tested), r, program.View())
    {
      hide FileEntry, SkipUlebs, ExtendedPrefix;
      while program.length != 0
        invariant program.Valid()
        invariant FileTables.NextDefineFile(unit.header, program.View(), tested)
               == FileTables.NextDefineFile(unit.header, old(program.View()), tested)
        decreases program.length
      {
        var first := ReadByte(program);
        var opcode := first.value;
        if opcode >= unit.header.opcodeBase {
          continue;
        }
        if opcode != 0 {
          var skipped := ReadSkippedUlebs(program, unit.header.opcodeLengths[opcode - 1]);
          if skipped.Err? { return Err(skipped.why); }
          continue;
        }
        var prefix := ReadExtendedPrefix(program);
        if prefix.Err? { return Err(prefix.why); }
        var (length, extended) := prefix.value;
        if (if tested.StandardByte? then opcode else extended) == LNE_DEFINE_FILE {
          var entry := ReadFileName(program);
          if entry.Err? { return Err(entry.why); }
          if entry.value.None? { return Err(EmptyDefineFile); }
          return Ok(entry.value);
        }
        if length > program.length { return Err(Underflow); }
        program.RemovePrefix(length);
      }
      r := Ok(None);
    }

    method GetFileName(index: nat, tested: Tested) returns (r: Result<FileName>)
      requires Valid() && index > 0
      ensures r == FileAt(unit, index, tested)
    {
      if index <= unit.fileCount {
        r := GetTableEntry(index);
      } else {
        r := GetDefinedFile(index - unit.fileCount, tested);
      }
    }

    method GetTableEntry(index: nat) returns (r: Result<FileName>)
      requires index > 0
      ensures r == EntryAt(unit.fileNames, index)
    {
      var left := index;
      var names := new StringPiece(unit.fileNames);
      while true
        invariant names.Valid() && left > 0
        invariant EntryAt(names.View(), left) == EntryAt(unit.fileNames, index)
        decreases left
      {
        var entry := ReadFileName(names);
        if entry.Err? { return Err(entry.why); }
        if entry.value.None? { return Err(BadIndex); }
        if left == 1 { return Ok(entry.value.value); }
        left := left - 1;
      }
    }

    method GetDefinedFile(index: nat, tested: Tested) returns (r: Result<FileName>)
      requires Valid() && index > 0
      ensures r == DefinedFile(unit.header, unit.program, index, tested)
    {
      var left := index;
      var program := new StringPiece(unit.program);
      while true
        invariant program.Valid() && left > 0
        invariant DefinedFile(unit.header, program.View(), left, tested)
               == DefinedFile(unit.header, unit.program, index, tested)
        decreases left
      {
        var file := NextDefineFile(program, tested);
        if file.Err? { return Err(file.why); }
        if file.value.None? { return Err(BadIndex); }
        if left == 1 { return Ok(file.value.value); }
        left := left - 1;
      }
    }

    method GetIncludeDirectory(index: nat) returns (r: Result<seq<byte>>)
      ensures r == DirectoryAt(unit, index)
    {
      if index == 0 { return Ok([]); }
      if index > unit.directoryCount { return Err(BadIndex); }
      var left := index;
      var directories := new StringPiece(unit.directories);
      while true
        invariant directories.Valid() && left > 0
        invariant NameAt(directories.View(), left) == NameAt(unit.directories, index)
        decreases left
      {
        var name := ReadNullTerminated(directories);
        if name.Err? { return Err(name.why); }
        if name.value == [] { return Err(BadIndex); }
        if left == 1 { return Ok(name.value); }
        left := left - 1;
      }
    }

    /** The location of the row the search settled on. */
    method ResolveRow(fileIndex: uint64, lineNumber: uint64, tested: Tested, ghost row: Row)
      returns (found: Location)
      requires Valid() && fileIndex == row.file && lineNumber == row.line
      ensures found == Resolve(unit, row, tested)
    {
      if fileIndex == 0 { return NotFound; }
      var name := GetFileName(fileIndex, tested);
      if name.Err? { return Stopped(name.why); }
      var directory := GetIncludeDirectory(name.value.directory);
      if directory.Err? { return Stopped(directory.why); }
      found := Found(directory.value, name.value.name, lineNumber);
    }

    /** Streams over the program, and answers as the matrix lookup would. */
    method FindAddress(target: uint64, tested: Tested) returns (found: Location)
      requires Valid()
      modifies this`registers
      ensures found == Locate(unit, target, tested)
    {
      hide Searched, Answer, Resolve, Run, LineProgram.Next, Initial, Classified;
      InitiallySearched(target);
      var program := new StringPiece(unit.program);
      var state := START;
      Reset();
      var prevFile: uint64, prevLine: uint64 := 0, 0;
      ghost var m := Run(unit.header, registers, program.View());
      ghost var done: seq<Row> := [];
      while program.length != 0
        invariant program.Valid()
        invariant m == Preceded(done, Run(unit.header, registers, program.View()))
        invariant Searched(done, target, state, prevFile, prevLine)
        decreases program.length
      {
        ghost var before, file, line := state, prevFile, prevLine;
        RunNext(unit.header, registers, program.View());
        var step := Next(program);
        if step.Err? {
          SearchFails(unit, done, m, target, tested, before, file, line);
          return Stopped(step.why);
        }
        var seqEnd := !step.value;
        ghost var row := RowOf(registers, seqEnd);
        PrecededTwice(done, [row], Run(unit.header, if seqEnd then Initial(unit.header) else registers, program.View()));
        if state == START && !seqEnd {
          state := if registers.address <= target then LOW_SEQ else HIGH_SEQ;
        }
        Classify(before, row, target);
        if state == LOW_SEQ {
          if registers.address > target {
            SearchSucceeds(unit, done, row, m, target, tested, before, prevFile, prevLine);
            found := ResolveRow(prevFile, prevLine, tested, m.rows[|done| - 1]);
            return;
          }
          prevFile := registers.file;
          prevLine := registers.line;
        }
        if seqEnd {
          state := START;
          Reset();
        }
        SearchContinues(done, row, target, before, file, line);
        done := done + [row];
      }
      RunNothing(unit.header, registers);
      SearchFails(unit, done, m, target, tested, state, prevFile, prevLine);
      found := NotFound;
    }
  }

  // ---------------------------------------------------------------------
  // The streaming search
  // ---------------------------------------------------------------------

  datatype State = START | LOW_SEQ | HIGH_SEQ

  function Preceded(rows: seq<Row>, m: Matrix): Matrix {
    m.(rows := rows + m.rows)
  }

  /** What the three search variables know once the rows done have gone by. */
  ghost predicate Searched(done: seq<Row>, target: uint64, state: State, prevFile: uint64, prevLine: uint64) {
    var n := |done|;
    && (forall j: nat :: !Answers(done, j, target))
    && (state == START <==> n == 0 || done[n - 1].end)
    && (state == LOW_SEQ ==>
      && Candidate(done, n - 1, target) && done[n - 1].address <= target
      && prevFile == done[n - 1].file && prevLine == done[n - 1].line)
    && (state == HIGH_SEQ ==> !Candidate(done, n - 1, target))
  }

  /** Prefixes agree on which rows answer, as long as the next row is there too. */
  lemma {:induction false} StartInPrefix(done: seq<Row>, rows: seq<Row>, n: nat)
    requires done <= rows && n < |done|
    ensures Start(done, n) == Start(rows, n)
  {
    if n != 0 && !done[n - 1].end {
      StartInPrefix(done, rows, n - 1);
    }
  }

  lemma AnswersInPrefix(done: seq<Row>, rows: seq<Row>, target: uint64, n: nat)
    requires done <= rows && n + 1 < |done|
    ensures Answers(done, n, target) <==> Answers(rows, n, target)
  {
    StartInPrefix(done, rows, n);
  }

  lemma RunNext(h: Header, r: Registers, s: seq<byte>)
    requires h.Valid() && s != []
    ensures Run(h, r, s) ==
      match LineProgram.Next(h, r, s)
      case Abort(why) => Matrix([], Some(why))
      case Done((committed, r'), rest) =>
        Preceded([RowOf(r', !committed)], Run(h, if committed then r' else Initial(h), rest))
  {
  }

  lemma PrecededTwice(a: seq<Row>, b: seq<Row>, m: Matrix)
    ensures Preceded(a, Preceded(b, m)) == Preceded(a + b, m)
  {
    assert a + (b + m.rows) == a + b + m.rows;
  }

  /** The state in which a row is looked at. */
  function Classified(state: State, row: Row, target: uint64): State {
    if state == START && !row.end then if row.address <= target then LOW_SEQ else HIGH_SEQ
    else state
  }

  lemma Classify(state: State, row: Row, target: uint64)
    ensures Classified(state, row, target)
         == if state == START && !row.end then if row.address <= target then LOW_SEQ else HIGH_SEQ else state
  {
  }

  lemma InitiallySearched(target: uint64)
    ensures Searched([], target, START, 0, 0)
  {
  }

  lemma SearchFails(u: Unit, done: seq<Row>, m: Matrix, target: uint64, tested: Tested,
                    state: State, prevFile: uint64, prevLine: uint64)
    requires u.header.Valid() && Searched(done, target, state, prevFile, prevLine)
    requires m == Preceded(done, Matrix([], m.stopped))
    ensures Answer(u, m, target, tested) == if m.stopped.Some? then Stopped(m.stopped.value) else NotFound
  {
    assert done + [] == done;
  }

  lemma SearchContinues(done: seq<Row>, row: Row, target: uint64, state: State, prevFile: uint64, prevLine: uint64)
    requires Searched(done, target, state, prevFile, prevLine)
    requires Classified(state, row, target) == LOW_SEQ ==> row.address <= target
    ensures var low := Classified(state, row, target) == LOW_SEQ;
      Searched(done + [row], target, if row.end then START else Classified(state, row, target),
               if low then row.file else prevFile, if low then row.line else prevLine)
  {
    var n, more := |done|, done + [row];
    if n > 0 {
      StartInPrefix(done, more, n - 1);
    }
    forall j: nat
      ensures !Answers(more, j, target)
    {
      if j + 1 < n {
        AnswersInPrefix(done, more, target, j);
      }
    }
  }

  lemma SearchSucceeds(u: Unit, done: seq<Row>, row: Row, m: Matrix, target: uint64, tested: Tested,
                       state: State, prevFile: uint64, prevLine: uint64)
    requires u.header.Valid() && Searched(done, target, state, prevFile, prevLine)
    requires Classified(state, row, target) == LOW_SEQ && row.address > target
    requires done + [row] <= m.rows
    ensures |done| > 0 && Answer(u, m, target, tested) == Resolve(u, m.rows[|done| - 1], tested)
    ensures prevFile == m.rows[|done| - 1].file && prevLine == m.rows[|done| - 1].line
  {
    var n, rows := |done|, m.rows;
    StartInPrefix(done, rows, n - 1);
    assert rows[n - 1] == done[n - 1] && rows[n] == row;
    assert Answers(rows, n - 1, target);
    forall j: nat | j < n - 1
      ensures !Answers(rows, j, target)
    {
      AnswersInPrefix(done, rows, target, j);
    }
  }

  lemma RunNothing(h: Header, r: Registers)
    requires h.Valid()
    ensures Run(h, r, []) == Matrix([], None)
  {
  }
}
