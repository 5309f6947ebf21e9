// An encoder of whole line-number units by DWARF version 4, section 6.2.4: header,
// directory table, file table and program. Parsing what it emits gives the parts back,
// and a search of it finds what was encoded.
module UnitEncoding {
  import opened Base
  import opened Leb128
  import opened LineProgram
  import opened LineTable
  import opened FileTables
  import opened LineUnit
  import opened LineEncoding
  import opened LineLookup

  // ---------------------------------------------------------------------
  // Tables
  // ---------------------------------------------------------------------

  /** A file entry as a producer writes it; the machine skips the last two numbers. */
  datatype FileRecord = FileRecord(file: FileName, modified: uint64, size: uint64)

  predicate IsName(name: seq<byte>) {
    name != [] && 0 !in name
  }

  function EncodeDirectories(names: seq<seq<byte>>): (s: seq<byte>)
    ensures s != []
  {
    if names == [] then [0] else names[0] + [0] + EncodeDirectories(names[1..])
  }

  function EncodeFile(f: FileRecord): seq<byte> {
    f.file.name + [0] + EncodeUleb(f.file.directory) + EncodeUleb(f.modified) + EncodeUleb(f.size)
  }

  function EncodeFiles(files: seq<FileRecord>): (s: seq<byte>)
    ensures s != []
  {
    if files == [] then [0] else EncodeFile(files[0]) + EncodeFiles(files[1..])
  }

  function NamesOf(files: seq<FileRecord>): (names: seq<FileName>)
    ensures |names| == |files| && forall i :: 0 <= i < |files| ==> names[i] == files[i].file
  {
    if files == [] then [] else [files[0].file] + NamesOf(files[1..])
  }

  lemma {:induction false} NameRoundTrip(name: seq<byte>, tail: seq<byte>)
    requires 0 !in name
    ensures NullTerminated(name + [0] + tail) == Done(name, tail)
    decreases |name|
  {
    var s := name + [0] + tail;
    if name == [] {
      assert s[1..] == tail;
    } else {
      NameRoundTrip(name[1..], tail);
      assert s[1..] == name[1..] + [0] + tail && name == [name[0]] + name[1..];
    }
  }

  lemma {:induction false} DirectoriesRoundTrip(names: seq<seq<byte>>, tail: seq<byte>)
    requires forall name :: name in names ==> IsName(name)
    ensures DirectoryTable(EncodeDirectories(names) + tail) == Done(names, tail)
    decreases |names|
  {
    if names == [] {
      NameRoundTrip([], tail);
      assert [] + [0] + tail == [0] + tail;
    } else {
      assert IsName(names[0]);
      FirstDirectory(names, tail);
      hide *;
      DirectoriesRoundTrip(names[1..], tail);
      assert names == [names[0]] + names[1..];
    }
  }

  lemma FirstDirectory(names: seq<seq<byte>>, tail: seq<byte>)
    requires names != [] && IsName(names[0])
    ensures DirectoryTable(EncodeDirectories(names) + tail)
         == Prefixed([names[0]], DirectoryTable(EncodeDirectories(names[1..]) + tail))
  {
    var rest := EncodeDirectories(names[1..]) + tail;
    assert EncodeDirectories(names) + tail == names[0] + [0] + rest;
    hide EncodeDirectories;
    NameRoundTrip(names[0], rest);
    NextDirectory(names[0] + [0] + rest);
  }

  lemma NextDirectory(s: seq<byte>)
    requires NullTerminated(s).Done? && NullTerminated(s).value != []
    ensures DirectoryTable(s) == Prefixed([NullTerminated(s).value], DirectoryTable(NullTerminated(s).rest))
  {
  }

  /** The two numbers after the directory index are read over. */
  lemma FileRoundTrip(f: FileRecord, tail: seq<byte>)
    requires IsName(f.file.name)
    ensures FileEntry(EncodeFile(f) + tail) == Done(Some(f.file), tail)
  {
    hide Uleb, NullTerminated;
    var c := EncodeUleb(f.size) + tail;
    var b := EncodeUleb(f.modified) + c;
    var a := EncodeUleb(f.file.directory) + b;
    assert EncodeFile(f) + tail == f.file.name + [0] + a;
    NameRoundTrip(f.file.name, a);
    UlebRoundTrip(f.file.directory, b);
    UlebRoundTrip(f.modified, c);
    UlebRoundTrip(f.size, tail);
    assert SkipUlebs(b, 2) == SkipUlebs(c, 1) == SkipUlebs(tail, 0);
  }

  lemma {:induction false} FilesRoundTrip(files: seq<FileRecord>, tail: seq<byte>)
    requires forall f :: f in files ==> IsName(f.file.name)
    ensures FileTable(EncodeFiles(files) + tail) == Done(NamesOf(files), tail)
    decreases |files|
  {
    if files == [] {
      NameRoundTrip([], tail);
      assert [] + [0] + tail == [0] + tail;
    } else {
      var rest := EncodeFiles(files[1..]) + tail;
      FileRoundTrip(files[0], rest);
      FilesRoundTrip(files[1..], tail);
      assert EncodeFiles(files) + tail == EncodeFile(files[0]) + rest;
    }
  }

  /** A DW_LNE_define_file instruction defines the file it was assembled from, and both
      interpreters pass over it alike. */
  lemma DefinedFileRoundTrip(h: Header, f: FileRecord, tail: seq<byte>)
    requires h.Valid() && IsName(f.file.name) && |EncodeFile(f)| + 1 < TWO64
    ensures var s := AssembleOne(h, Unhandled(LNE_DEFINE_FILE, EncodeFile(f))) + tail;
      && Decode(h, s).Done? && Decode(h, s).rest == tail && WellFormedAt(h, s)
      && DefinitionAt(h, s) == Some(f.file)
      && ScanOne(h, s, ExtendedByte) == Done(Some(f.file), tail)
  {
    var operand := EncodeFile(f);
    var s := AssembleOne(h, Unhandled(LNE_DEFINE_FILE, operand)) + tail;
    AssemblerRoundTrip(h, Unhandled(LNE_DEFINE_FILE, operand), tail);
    FileRoundTrip(f, tail);
    DefinitionPrefix(h, operand, tail);
    hide EncodeFile, FileEntry, Decode, AssembleOne, ExtendedPrefix;
  }

  lemma DefinitionPrefix(h: Header, operand: seq<byte>, tail: seq<byte>)
    requires h.Valid() && |operand| + 1 < TWO64
    ensures var s := AssembleOne(h, Unhandled(LNE_DEFINE_FILE, operand)) + tail;
      s[0] == 0 && ExtendedPrefix(s[1..]) == Done((|operand|, LNE_DEFINE_FILE), operand + tail)
  {
    var s := AssembleOne(h, Unhandled(LNE_DEFINE_FILE, operand)) + tail;
    ExtendedPrefixRoundTrip(|operand|, LNE_DEFINE_FILE, operand + tail);
    hide EncodeUleb, ExtendedPrefix;
    Regrouped([0], EncodeUleb(|operand| + 1), [LNE_DEFINE_FILE], operand, tail);
  }

  // ---------------------------------------------------------------------
  // Header
  // ---------------------------------------------------------------------

  /** What stands in a header before its tables, acceptable or not. */
  datatype Fields = Fields(
    version: nat,
    minLength: byte,
    maxOps: byte,
    defaultIsStmt: byte,
    lineBase: int,
    lineRange: byte,
    opcodeBase: byte,
    opcodeLengths: seq<byte>)
  {
    predicate Writable() {
      && version < 0x1_0000
      && -128 <= lineBase < 128
      && |opcodeLengths| == if opcodeBase == 0 then 0 else opcodeBase - 1
    }
  }

  function EncodeInt8(v: int): byte
    requires -128 <= v < 128
  {
    if v < 0 then v + 256 else v
  }

  function EncodeParameters(f: Fields): seq<byte>
    requires f.Writable()
  {
    [f.defaultIsStmt, EncodeInt8(f.lineBase), f.lineRange, f.opcodeBase] + f.opcodeLengths
  }

  /** Version 4 added the number of operations per instruction. */
  function EncodeFields(f: Fields): seq<byte>
    requires f.Writable()
  {
    [f.minLength] + (if f.version == 4 then [f.maxOps] else []) + EncodeParameters(f)
  }

  /** All that header_length counts; a producer may leave bytes after the tables. */
  function EncodeHeader(f: Fields, directories: seq<seq<byte>>, files: seq<FileRecord>, padding: seq<byte>): seq<byte>
    requires f.Writable()
  {
    EncodeFields(f) + (EncodeDirectories(directories) + (EncodeFiles(files) + padding))
  }

  function OffsetSize(is64Bits: bool): nat {
    if is64Bits then 8 else 4
  }

  /** A unit from its version on, with a stated header length. */
  function Chunk(version: nat, length: nat, is64Bits: bool, rest: seq<byte>): seq<byte> {
    LittleEndianBytes(version, 2) + (LittleEndianBytes(length, OffsetSize(is64Bits)) + rest)
  }

  function EncodeUnit(f: Fields, directories: seq<seq<byte>>, files: seq<FileRecord>, padding: seq<byte>,
                      is64Bits: bool, program: seq<byte>): seq<byte>
    requires f.Writable()
  {
    var header := EncodeHeader(f, directories, files, padding);
    Chunk(f.version, |header|, is64Bits, header + program)
  }

  /** The fields and names have a form in the encoding, and the length of the header fits. */
  predicate EncodableUnit(f: Fields, directories: seq<seq<byte>>, files: seq<FileRecord>, padding: seq<byte>,
                          is64Bits: bool) {
    && f.Writable()
    && (forall name :: name in directories ==> IsName(name))
    && (forall file :: file in files ==> IsName(file.file.name))
    && |EncodeHeader(f, directories, files, padding)| < Pow2(8 * OffsetSize(is64Bits))
  }

  lemma ChunkParses(version: nat, length: nat, is64Bits: bool, rest: seq<byte>)
    requires version < 0x1_0000 && length < Pow2(8 * OffsetSize(is64Bits))
    ensures Parse(Chunk(version, length, is64Bits, rest), is64Bits)
         == if 2 <= version <= 4 then ParseHeader(version, length, rest) else Err(BadHeader)
  {
    hide Fixed, ParseHeader;
    Pow2At16();
    var t := LittleEndianBytes(length, OffsetSize(is64Bits)) + rest;
    FixedRoundTrip(version, 2, t);
    FixedRoundTrip(length, OffsetSize(is64Bits), rest);
  }

  /** A header that claims more bytes than there are is rejected. */
  lemma LengthBeyondTheChunk(version: nat, length: nat, is64Bits: bool, rest: seq<byte>)
    requires version < 0x1_0000 && |rest| < length < Pow2(8 * OffsetSize(is64Bits))
    ensures Parse(Chunk(version, length, is64Bits, rest), is64Bits) == Err(BadHeader)
  {
    ChunkParses(version, length, is64Bits, rest);
  }

  /** The fields the machine can work with. */
  predicate Supported(f: Fields) {
    2 <= f.version <= 4 && (f.version == 4 ==> f.maxOps == 1) && f.opcodeBase != 0
  }

  function HeaderOf(f: Fields): Header {
    Header(f.version, f.minLength, f.defaultIsStmt != 0, f.lineBase, f.lineRange, f.opcodeBase, f.opcodeLengths)
  }

  lemma ParametersRoundTrip(f: Fields, tail: seq<byte>)
    requires f.Writable()
    ensures ParameterFields(f.version, f.minLength, EncodeParameters(f) + tail)
         == if f.opcodeBase == 0 then Abort(BadHeader) else Done(HeaderOf(f), tail)
  {
    var s := EncodeParameters(f) + tail;
    assert s[4..4 + |f.opcodeLengths|] == f.opcodeLengths && s[4 + |f.opcodeLengths|..] == tail;
  }

  lemma FieldsRoundTrip(f: Fields, tail: seq<byte>)
    requires f.Writable() && 2 <= f.version <= 4
    ensures HeaderFields(f.version, EncodeFields(f) + tail)
         == if Supported(f) then Done(HeaderOf(f), tail) else Abort(BadHeader)
  {
    var s, t := EncodeFields(f) + tail, EncodeParameters(f) + tail;
    ParametersRoundTrip(f, tail);
    hide ParameterFields, EncodeParameters, HeaderOf;
    assert f.version != 4 ==> s[1..] == t;
    assert f.version == 4 ==> s[1] == f.maxOps && s[2..] == t;
  }

  lemma TablesRoundTrip(h: Header, directories: seq<seq<byte>>, files: seq<FileRecord>, padding: seq<byte>,
                        program: seq<byte>)
    requires h.Valid()
    requires forall name :: name in directories ==> IsName(name)
    requires forall f :: f in files ==> IsName(f.file.name)
    ensures ParseTables(h, EncodeDirectories(directories) + (EncodeFiles(files) + padding), program)
         == Ok(Unit(h, EncodeDirectories(directories), |directories|, EncodeFiles(files), |files|, program))
  {
    var t := EncodeFiles(files) + padding;
    var s := EncodeDirectories(directories) + t;
    DirectoriesRoundTrip(directories, t);
    FilesRoundTrip(files, padding);
    hide DirectoryTable, FileTable;
    assert Consumed(s, t) == EncodeDirectories(directories);
    assert Consumed(t, padding) == EncodeFiles(files);
  }

  /** A unit of version 2, 3 or 4, of either offset size, is parsed into what it was encoded
      from, exactly when its fields are supported; otherwise it is rejected. */
  lemma UnitRoundTrip(f: Fields, directories: seq<seq<byte>>, files: seq<FileRecord>, padding: seq<byte>,
                      is64Bits: bool, program: seq<byte>)
    requires EncodableUnit(f, directories, files, padding, is64Bits)
    ensures var r := Parse(EncodeUnit(f, directories, files, padding, is64Bits, program), is64Bits);
      && (r.Ok? <==> 2 <= f.version <= 4 && (f.version == 4 ==> f.maxOps == 1) && f.opcodeBase != 0)
      && (r.Err? ==> r.why == BadHeader)
      && (r.Ok? ==>
            && r.value.header.version == f.version && r.value.header.minLength == f.minLength
            && r.value.header.defaultIsStmt == (f.defaultIsStmt != 0)
            && r.value.header.lineBase == f.lineBase && r.value.header.lineRange == f.lineRange
            && r.value.header.opcodeBase == f.opcodeBase && r.value.header.opcodeLengths == f.opcodeLengths
            && WellCounted(r.value) && r.value.program == program
            && DirectoryTable(r.value.directories).value == directories
            && |FileTable(r.value.fileNames).value| == |files|
            && forall i :: 0 <= i < |files| ==> FileTable(r.value.fileNames).value[i] == files[i].file)
  {
    var header := EncodeHeader(f, directories, files, padding);
    var tables := EncodeDirectories(directories) + (EncodeFiles(files) + padding);
    ChunkParses(f.version, |header|, is64Bits, header + program);
    if 2 <= f.version <= 4 {
      assert (header + program)[..|header|] == header && (header + program)[|header|..] == program;
      FieldsRoundTrip(f, tables);
      assert HeaderOf(f).Valid() || !Supported(f);
      hide HeaderFields, EncodeFields, ParseTables, Parse;
      if Supported(f) {
        TablesRoundTrip(HeaderOf(f), directories, files, padding, program);
        DirectoriesRoundTrip(directories, []);
        FilesRoundTrip(files, []);
        assert EncodeDirectories(directories) + [] == EncodeDirectories(directories);
        assert EncodeFiles(files) + [] == EncodeFiles(files);
        hide DirectoryTable, FileTable;
      }
    }
  }

  /** In every unit that is accepted the fields stand one after another, in this order. */
  lemma FieldsStandInOrder(chunk: seq<byte>, is64Bits: bool)
    requires Parse(chunk, is64Bits).Ok?
    ensures var u, body := Parse(chunk, is64Bits).value, if is64Bits then 10 else 6;
      && |chunk| >= body && u.header.version == chunk[0] as int + 256 * chunk[1] as int
      && 2 <= u.header.version <= 4
      && var length, t := LittleEndian(chunk[2..body]), chunk[body..];
      && 5 <= length <= |t| && u.program == t[length..]
      && u.header.minLength == t[0] && (u.header.version == 4 ==> t[1] == 1)
      && ParametersStand(u.header, if u.header.version == 4 then t[2..length] else t[1..length])
  {
    var body := if is64Bits then 10 else 6;
    TwoBytes(chunk[..2]);
    assert chunk[2..][..body - 2] == chunk[2..body] && chunk[2..][body - 2..] == chunk[body..];
    var version, length, t := LittleEndian(chunk[..2]), LittleEndian(chunk[2..body]), chunk[body..];
    hide LittleEndian, ParameterFields, ParametersStand;
    assert Parse(chunk, is64Bits) == ParseHeader(version, length, t);
    hide Parse;
    var at := if version == 4 then 2 else 1;
    assert t[..length][at..] == t[at..length];
    ParametersStandInOrder(version, t[0], t[at..length]);
  }

  lemma TwoBytes(s: seq<byte>)
    requires |s| == 2
    ensures LittleEndian(s) == s[0] as int + 256 * s[1] as int
  {
    assert LittleEndian(s[1..][1..]) == 0;
  }

  /** Line base, signed, before line range; and a count of operands for each opcode below
      the opcode base. */
  predicate ParametersStand(h: Header, s: seq<byte>) {
    && |s| >= 4
    && h.defaultIsStmt == (s[0] != 0)
    && (h.lineBase == s[1] as int || h.lineBase == s[1] as int - 256) && -128 <= h.lineBase < 128
    && h.lineRange == s[2]
    && h.opcodeBase == s[3] && s[3] != 0
    && |s| >= 3 + s[3] as int && h.opcodeLengths == s[4..3 + s[3] as int]
  }

  lemma ParametersStandInOrder(version: nat, minLength: byte, s: seq<byte>)
    requires ParameterFields(version, minLength, s).Done?
    ensures var h := ParameterFields(version, minLength, s).value;
      h.version == version && h.minLength == minLength && ParametersStand(h, s)
  {
  }

  /** The header that compilers for x86 write: its special opcode 75 moves by four
      instructions and one line. */
  lemma UsualHeader()
    ensures var lengths: seq<byte> := [0, 1, 1, 1, 1, 0, 0, 0, 1, 0, 0, 1];
      var h := Header(4, 1, true, -5, 14, 13, lengths);
      && ParameterFields(4, 1, [1, 0xFB, 14, 13] + lengths) == Done(h, [])
      && Decode(h, [75]) == Done(Special(62), [])
      && RowsOf(h, Initial(h), [Special(62)]) == [Row(4, 1, 2, false)]
  {
    var lengths: seq<byte> := [0, 1, 1, 1, 1, 0, 0, 0, 1, 0, 0, 1];
    var h := Header(4, 1, true, -5, 14, 13, lengths);
    var s: seq<byte> := [1, 0xFB, 14, 13] + lengths;
    assert s[4..16] == lengths;
    assert RowsOf(h, AfterCommit(SpecialMove(h, Initial(h), 62)), []) == [];
  }

  // ---------------------------------------------------------------------
  // Lookup
  // ---------------------------------------------------------------------

  /** Row n is the first to cover the target, its file is in the table, and so is the
      directory of that. */
  ghost predicate FirstCoverNamesAFile(rows: seq<Row>, n: nat, target: uint64, files: seq<FileRecord>,
                                       directories: seq<seq<byte>>) {
    && FirstCover(rows, n, target)
    && 0 < rows[n].file <= |files| && files[rows[n].file - 1].file.directory <= |directories|
  }

  /** From the encoded header, tables and matrix, a search for an address that the matrix
      covers finds directory, file name and line of the first row that covers it. */
  lemma {:induction false} EncodedUnitIsSearched(f: Fields, directories: seq<seq<byte>>, files: seq<FileRecord>,
                                                 padding: seq<byte>, is64Bits: bool, rows: seq<Row>, n: nat,
                                                 target: uint64, tested: Tested)
    returns (u: Unit)
    requires EncodableUnit(f, directories, files, padding, is64Bits)
    requires Supported(f) && f.lineRange != 0 && f.opcodeBase > LNS_SET_FILE
    requires Encodable(HeaderOf(f), StartPosition(), rows)
    requires FirstCoverNamesAFile(rows, n, target, files, directories)
    ensures var program := Assemble(HeaderOf(f), EmitRows(HeaderOf(f), StartPosition(), rows));
      Parse(EncodeUnit(f, directories, files, padding, is64Bits, program), is64Bits) == Ok(u)
    ensures var file := files[rows[n].file - 1].file;
      Locate(u, target, tested)
      == Found(if file.directory == 0 then [] else directories[file.directory - 1], file.name, rows[n].line)
  {
    var h := HeaderOf(f);
    var program := Assemble(h, EmitRows(h, StartPosition(), rows));
    u := ParsedUnit(f, directories, files, padding, is64Bits, program);
    assert Encodes(u, rows);
    var k := rows[n].file - 1;
    assert 0 <= k < |files| && FirstCover(rows, n, target);
    hide *;
    assert FileTable(u.fileNames).value[k] == files[k].file;
    EncodedProgramIsSearched(u, rows, n, target, tested);
  }

  /** A small unit: one file, and one sequence for its line 5. */
  lemma {:induction false} SmallUnitIsSearched(tested: Tested) returns (u: Unit)
    ensures var f := Fields(4, 1, 1, 1, -5, 14, 13, [0, 1, 1, 1, 1, 0, 0, 0, 1, 0, 0, 1]);
      var rows := [Row(16, 1, 5, false), Row(20, 1, 5, true)];
      f.Writable() && HeaderOf(f).Valid() && Adequate(HeaderOf(f)) && Encodable(HeaderOf(f), StartPosition(), rows)
      && var program := Assemble(HeaderOf(f), EmitRows(HeaderOf(f), StartPosition(), rows));
      Parse(EncodeUnit(f, [], [FileRecord(FileName([97, 46, 99], 0), 0, 0)], [], false, program), false) == Ok(u)
    ensures Locate(u, 18, tested) == Found([], [97, 46, 99], 5)
  {
    var f := Fields(4, 1, 1, 1, -5, 14, 13, [0, 1, 1, 1, 1, 0, 0, 0, 1, 0, 0, 1]);
    var rows := [Row(16, 1, 5, false), Row(20, 1, 5, true)];
    var files := [FileRecord(FileName([97, 46, 99], 0), 0, 0)];
    SmallMatrixIsEncodable(HeaderOf(f), rows);
    SmallHeaderFits(f, files);
    assert FirstCover(rows, 0, 18) && FirstCoverNamesAFile(rows, 0, 18, files, []);
    hide *;
    u := EncodedUnitIsSearched(f, [], files, [], false, rows, 0, 18, tested);
  }

  lemma {:induction false} SmallMatrixIsEncodable(h: Header, rows: seq<Row>)
    requires h.Valid() && h.minLength == 1 && rows == [Row(16, 1, 5, false), Row(20, 1, 5, true)]
    ensures Encodable(h, StartPosition(), rows)
  {
    assert rows[1..] == [Row(20, 1, 5, true)] && rows[1..][1..] == [];
    assert Encodable(h, After(rows[1]), []);
    assert Encodable(h, After(rows[0]), rows[1..]);
  }

  lemma SmallHeaderFits(f: Fields, files: seq<FileRecord>)
    requires f.Writable() && files == [FileRecord(FileName([97, 46, 99], 0), 0, 0)]
    ensures |EncodeHeader(f, [], files, [])| < Pow2(8 * OffsetSize(false))
  {
    assert EncodeFiles(files[1..]) == [0];
    assert |EncodeFile(files[0])| == 7;
    assert |EncodeHeader(f, [], files, [])| < 400;
    Pow2At16();
    Pow2Monotone(16, 32);
  }

  lemma ParsedUnit(f: Fields, directories: seq<seq<byte>>, files: seq<FileRecord>, padding: seq<byte>,
                   is64Bits: bool, program: seq<byte>) returns (u: Unit)
    requires EncodableUnit(f, directories, files, padding, is64Bits) && Supported(f)
    ensures Parse(EncodeUnit(f, directories, files, padding, is64Bits, program), is64Bits) == Ok(u)
    ensures u.header == HeaderOf(f) && WellCounted(u) && u.program == program
    ensures DirectoryTable(u.directories).value == directories
    ensures |FileTable(u.fileNames).value| == |files|
    ensures forall i :: 0 <= i < |files| ==> FileTable(u.fileNames).value[i] == files[i].file
  {
    UnitRoundTrip(f, directories, files, padding, is64Bits, program);
    hide Parse, EncodeUnit, EncodeHeader, WellCounted, DirectoryTable, FileTable;
    u := Parse(EncodeUnit(f, directories, files, padding, is64Bits, program), is64Bits).value;
  }

  lemma {:induction false} EncodedProgramIsSearched(u: Unit, rows: seq<Row>, n: nat, target: uint64, tested: Tested)
    requires WellCounted(u) && Encodes(u, rows)
    requires FirstCover(rows, n, target) && 0 < rows[n].file <= |FileTable(u.fileNames).value|
    requires FileTable(u.fileNames).value[rows[n].file - 1].directory <= |DirectoryTable(u.directories).value|
    ensures var file, directories := FileTable(u.fileNames).value[rows[n].file - 1], DirectoryTable(u.directories).value;
      Locate(u, target, tested)
      == Found(if file.directory == 0 then [] else directories[file.directory - 1], file.name, rows[n].line)
  {
    hide *;
    EncodedMatrix(u, rows);
    FindsFirstCover(u, n, target, tested);
  }
}
