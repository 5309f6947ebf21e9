// What the constructor of the line-number VM makes of a program header (DWARF 4,
// section 6.2.4), and the lookup that the whole unit supports.
module LineUnit {
  import opened Base
  import opened Leb128
  import opened LineProgram
  import opened LineTable
  import opened FileTables

  /** A parsed unit: tables stay in their encoded form, with the counts of their entries. */
  datatype Unit = Unit(
    header: Header,
    directories: seq<byte>,
    directoryCount: nat,
    fileNames: seq<byte>,
    fileCount: nat,
    program: seq<byte>)

  function ToInt8(b: byte): int {
    if b < 128 then b else b - 256
  }

  /** default_is_stmt up to the operand counts of the standard opcodes. */
  function ParameterFields(version: nat, minLength: byte, s: seq<byte>): (r: Read<Header>)
    ensures r.Done? ==> r.value.Valid()
  {
    if |s| < 4 then Abort(Underflow)
    else
      var fieldsEnd: int := 3 + (s[3] as int);
      if s[3] == 0 then Abort(BadHeader)
      else if |s| < fieldsEnd then Abort(Underflow)
      else Done(Header(version, minLength, s[0] != 0, ToInt8(s[1]), s[2], s[3], s[4..fieldsEnd]), s[fieldsEnd..])
  }

  /** Only version 4 has the field for operations per instruction, and it must be 1. */
  function HeaderFields(version: nat, s: seq<byte>): (r: Read<Header>)
    ensures r.Done? ==> r.value.Valid()
  {
    if s == [] then Abort(Underflow)
    else if version != 4 then ParameterFields(version, s[0], s[1..])
    else if |s| < 2 then Abort(Underflow)
    else if s[1] != 1 then Abort(BadHeader)
    else ParameterFields(version, s[0], s[2..])
  }

  /** The bytes a reader consumed. */
  function Consumed(s: seq<byte>, rest: seq<byte>): seq<byte>
    requires |rest| <= |s|
  {
    s[..|s| - |rest|]
  }

  function ParseTables(h: Header, s: seq<byte>, program: seq<byte>): (r: Result<Unit>)
    requires h.Valid()
    ensures r.Ok? ==> r.value.header == h
  {
    match DirectoryTable(s)
    case Abort(why) => Err(why)
    case Done(names, t) =>
      match FileTable(t)
      case Abort(why) => Err(why)
      case Done(files, rest) =>
        Ok(Unit(h, Consumed(s, t), |names|, Consumed(t, rest), |files|, program))
  }

  /** The header proper, of the given length, and the program after it. */
  function ParseHeader(version: nat, length: nat, t: seq<byte>): (r: Result<Unit>)
    ensures r.Ok? ==> r.value.header.Valid()
  {
    if length > |t| then Err(BadHeader)
    else
      match HeaderFields(version, t[..length])
      case Abort(why) => Err(why)
      case Done(h, u) => ParseTables(h, u, t[length..])
  }

  function Parse(chunk: seq<byte>, is64Bits: bool): (r: Result<Unit>)
    ensures r.Ok? ==> r.value.header.Valid()
  {
    match Fixed(chunk, 2)
    case Abort(why) => Err(why)
    case Done(version, s) =>
      if version < 2 || version > 4 then Err(BadHeader)
      else
        match Fixed(s, if is64Bits then 8 else 4)
        case Abort(why) => Err(why)
        case Done(length, t) => ParseHeader(version, length, t)
  }

  // ---------------------------------------------------------------------
  // Tables read again from their encoded form
  // ---------------------------------------------------------------------

  /** The k-th entry (from 1) of a file table. */
  function EntryAt(s: seq<byte>, k: nat): Result<FileName>
    requires k > 0
    decreases k
  {
    match FileEntry(s)
    case Abort(why) => Err(why)
    case Done(None, _) => Err(BadIndex)
    case Done(Some(file), rest) => if k == 1 then Ok(file) else EntryAt(rest, k - 1)
  }

  function FileAt(u: Unit, index: nat, tested: Tested): Result<FileName>
    requires u.header.Valid() && index > 0
  {
    if index <= u.fileCount then EntryAt(u.fileNames, index)
    else DefinedFile(u.header, u.program, index - u.fileCount, tested)
  }

  function NameAt(s: seq<byte>, k: nat): Result<seq<byte>>
    requires k > 0
    decreases k
  {
    match NullTerminated(s)
    case Abort(why) => Err(why)
    case Done(name, rest) =>
      if name == [] then Err(BadIndex) else if k == 1 then Ok(name) else NameAt(rest, k - 1)
  }

  function DirectoryAt(u: Unit, index: nat): Result<seq<byte>> {
    if index == 0 then Ok([])
    else if index > u.directoryCount then Err(BadIndex)
    else NameAt(u.directories, index)
  }

  lemma {:induction false} EntryAtIsTableEntry(s: seq<byte>, k: nat)
    requires FileTable(s).Done? && 0 < k <= |FileTable(s).value|
    ensures EntryAt(s, k) == Ok(FileTable(s).value[k - 1])
    decreases k
  {
    if k > 1 {
      EntryAtIsTableEntry(FileEntry(s).rest, k - 1);
    }
  }

  lemma {:induction false} NameAtIsTableEntry(s: seq<byte>, k: nat)
    requires DirectoryTable(s).Done? && 0 < k <= |DirectoryTable(s).value|
    ensures NameAt(s, k) == Ok(DirectoryTable(s).value[k - 1])
    decreases k
  {
    if k > 1 {
      NameAtIsTableEntry(NullTerminated(s).rest, k - 1);
    }
  }

  // A reader does not look past what it consumes: cutting k bytes that it leaves
  // unread off the end changes nothing else.

  function Cut(s: seq<byte>, k: nat): seq<byte>
    requires k <= |s|
  {
    s[..|s| - k]
  }

  lemma {:induction false} NullTerminatedIsLocal(s: seq<byte>, k: nat)
    requires NullTerminated(s).Done? && k <= |NullTerminated(s).rest|
    ensures NullTerminated(Cut(s, k)) == Done(NullTerminated(s).value, Cut(NullTerminated(s).rest, k))
    decreases |s|
  {
    assert Cut(s, k)[1..] == Cut(s[1..], k);
    if s[0] != 0 {
      NullTerminatedIsLocal(s[1..], k);
    }
  }

  lemma {:induction false} DigitsAreLocal(s: seq<byte>, sum: nat, i: nat, k: nat)
    requires Digits(s, sum, i).Done? && k <= |Digits(s, sum, i).rest|
    ensures Digits(Cut(s, k), sum, i) == Done(Digits(s, sum, i).value, Cut(Digits(s, sum, i).rest, k))
    decreases |s|
  {
    assert Cut(s, k)[1..] == Cut(s[1..], k);
    if s[0] >= 128 {
      DigitsAreLocal(s[1..], sum + Digit(s[0], i), i + 1, k);
    }
  }

  lemma {:induction false} SkipUlebsIsLocal(s: seq<byte>, n: nat, k: nat)
    requires SkipUlebs(s, n).Done? && k <= |SkipUlebs(s, n).rest|
    ensures SkipUlebs(Cut(s, k), n) == Done((), Cut(SkipUlebs(s, n).rest, k))
    decreases n
  {
    if n > 0 {
      DigitsAreLocal(s, 0, 0, k);
      SkipUlebsIsLocal(Uleb(s).rest, n - 1, k);
    }
  }

  lemma FileEntryIsLocal(s: seq<byte>, k: nat)
    requires FileEntry(s).Done? && k <= |FileEntry(s).rest|
    ensures FileEntry(Cut(s, k)) == Done(FileEntry(s).value, Cut(FileEntry(s).rest, k))
  {
    NullTerminatedIsLocal(s, k);
    var t := NullTerminated(s).rest;
    if NullTerminated(s).value != [] {
      DigitsAreLocal(t, 0, 0, k);
      SkipUlebsIsLocal(Uleb(t).rest, 2, k);
    }
  }

  lemma {:induction false} FileTableIsLocal(s: seq<byte>, k: nat)
    requires FileTable(s).Done? && k <= |FileTable(s).rest|
    ensures FileTable(Cut(s, k)) == Done(FileTable(s).value, Cut(FileTable(s).rest, k))
    decreases |s|
  {
    FileEntryIsLocal(s, k);
    if FileEntry(s).value.Some? {
      FileTableIsLocal(FileEntry(s).rest, k);
    }
  }

  lemma {:induction false} DirectoryTableIsLocal(s: seq<byte>, k: nat)
    requires DirectoryTable(s).Done? && k <= |DirectoryTable(s).rest|
    ensures DirectoryTable(Cut(s, k)) == Done(DirectoryTable(s).value, Cut(DirectoryTable(s).rest, k))
    decreases |s|
  {
    NullTerminatedIsLocal(s, k);
    if NullTerminated(s).value != [] {
      DirectoryTableIsLocal(NullTerminated(s).rest, k);
    }
  }

  /** The tables of a unit read back whole, with as many entries as were counted. */
  ghost predicate WellCounted(u: Unit) {
    && u.header.Valid()
    && DirectoryTable(u.directories).Done? && |DirectoryTable(u.directories).value| == u.directoryCount
    && FileTable(u.fileNames).Done? && |FileTable(u.fileNames).value| == u.fileCount
  }

  lemma ParsedUnitIsWellCounted(chunk: seq<byte>, is64Bits: bool)
    requires Parse(chunk, is64Bits).Ok?
    ensures WellCounted(Parse(chunk, is64Bits).value)
  {
    var version := Fixed(chunk, 2);
    var length := Fixed(version.rest, if is64Bits then 8 else 4);
    var s := HeaderFields(version.value, length.rest[..length.value]).rest;
    var t := DirectoryTable(s).rest;
    DirectoryTableIsLocal(s, |t|);
    FileTableIsLocal(t, |FileTable(t).rest|);
  }

  /** An index within the counted table always names a file: the search never
      reaches the point the source marks as a bug. */
  lemma CountedIndexNamesAFile(u: Unit, index: nat, tested: Tested)
    requires WellCounted(u) && 0 < index <= u.fileCount
    ensures FileAt(u, index, tested) == Ok(FileTable(u.fileNames).value[index - 1])
  {
    EntryAtIsTableEntry(u.fileNames, index);
  }

  lemma CountedIndexNamesADirectory(u: Unit, index: nat)
    requires WellCounted(u) && 0 < index <= u.directoryCount
    ensures DirectoryAt(u, index) == Ok(DirectoryTable(u.directories).value[index - 1])
  {
    NameAtIsTableEntry(u.directories, index);
  }

  /** All files of a unit, in the order their indices name them. */
  function AllFiles(u: Unit): seq<FileName>
    requires u.header.Valid() && FileTable(u.fileNames).Done?
    requires Decodable(u.header, u.program) && WellFormed(u.header, u.program)
  {
    FileTable(u.fileNames).value + DefinedFiles(u.header, u.program)
  }

  /** Comparing the extended opcode, index k names the k-th file: first those of the
      header, then those the program defines. */
  lemma FileAtNamesAllFiles(u: Unit, index: nat)
    requires WellCounted(u) && index > 0
    requires Decodable(u.header, u.program) && WellFormed(u.header, u.program)
    ensures FileAt(u, index, ExtendedByte)
         == (if index <= |AllFiles(u)| then Ok(AllFiles(u)[index - 1]) else Err(BadIndex))
  {
    hide EntryAt, DefinedFile, FileTable, WellFormed;
    if index <= u.fileCount {
      CountedIndexNamesAFile(u, index, ExtendedByte);
    } else {
      ScannerFollowsProgramOrder(u.header, u.program, index - u.fileCount);
    }
  }

  /** As written, exactly the files of the header can be named. */
  lemma AsWrittenNamesHeaderFilesOnly(u: Unit, index: nat)
    requires WellCounted(u) && index > 0
    ensures FileAt(u, index, StandardByte).Ok? <==> index <= u.fileCount
  {
    if index <= u.fileCount {
      CountedIndexNamesAFile(u, index, StandardByte);
    } else {
      AsWrittenFindsNothing(u.header, u.program);
    }
  }

  // ---------------------------------------------------------------------
  // Lookup
  // ---------------------------------------------------------------------

  datatype Location =
    | Found(directory: seq<byte>, name: seq<byte>, line: uint64)
    | NotFound
    | Stopped(why: Fault)

  function Resolve(u: Unit, row: Row, tested: Tested): Location
    requires u.header.Valid()
  {
    if row.file == 0 then NotFound
    else
      match FileAt(u, row.file, tested)
      case Err(why) => Stopped(why)
      case Ok(file) =>
        match DirectoryAt(u, file.directory)
        case Err(why) => Stopped(why)
        case Ok(directory) => Found(directory, file.name, row.line)
  }

  /** The answer a matrix supports. */
  function Answer(u: Unit, m: Matrix, target: uint64, tested: Tested): Location
    requires u.header.Valid()
  {
    match FirstAnswer(m.rows, target, 0)
    case Some(n) => Resolve(u, m.rows[n], tested)
    case None => if m.stopped.Some? then Stopped(m.stopped.value) else NotFound
  }

  function Locate(u: Unit, target: uint64, tested: Tested): Location
    requires u.header.Valid()
  {
    Answer(u, Run(u.header, Initial(u.header), u.program), target, tested)
  }
}
