// File and directory tables of a line-number program header, and the files that
// DW_LNE_define_file instructions add while the program runs (DWARF 4, section 6.2.4).
module FileTables {
  import opened Base
  import opened Leb128
  import opened LineProgram

  datatype FileName = FileName(name: seq<byte>, directory: uint64)

  /** A null-terminated string, without its terminator. */
  function NullTerminated(s: seq<byte>): (r: Read<seq<byte>>)
    ensures r.Done? ==> |s| == |r.value| + 1 + |r.rest|
  {
    if s == [] then Abort(Unterminated)
    else if s[0] == 0 then Done([], s[1..])
    else
      match NullTerminated(s[1..])
      case Abort(why) => Abort(why)
      case Done(name, rest) => Done([s[0]] + name, rest)
  }

  /** One file entry; an empty name ends the table and has no other fields. */
  function FileEntry(s: seq<byte>): (r: Read<Option<FileName>>)
    ensures r.Done? ==> |r.rest| < |s|
  {
    match NullTerminated(s)
    case Abort(why) => Abort(why)
    case Done(name, t) =>
      if name == [] then Done(None, t)
      else
        match Uleb(t)
        case Abort(why) => Abort(why)
        case Done(directory, u) => MapRead(SkipUlebs(u, 2), _ => Some(FileName(name, directory)))
  }

  /** A table found after the entries already read. */
  function Prefixed<T>(entries: seq<T>, r: Read<seq<T>>): (p: Read<seq<T>>)
    ensures p.Done? <==> r.Done?
    ensures p.Done? ==> p.rest == r.rest && p.value == entries + r.value
  {
    match r
    case Abort(why) => Abort(why)
    case Done(more, rest) => Done(entries + more, rest)
  }

  lemma PrefixedByNothing<T>(r: Read<seq<T>>)
    ensures Prefixed([], r) == r
  {
    if r.Done? {
      assert [] + r.value == r.value;
    }
  }

  lemma PrefixedTwice<T>(a: seq<T>, b: seq<T>, r: Read<seq<T>>)
    ensures Prefixed(a, Prefixed(b, r)) == Prefixed(a + b, r)
  {
    if r.Done? {
      assert a + (b + r.value) == a + b + r.value;
    }
  }

  /** All entries up to the empty name. */
  function FileTable(s: seq<byte>): (r: Read<seq<FileName>>)
    ensures r.Done? ==> |r.rest| < |s|
    decreases |s|
  {
    match FileEntry(s)
    case Abort(why) => Abort(why)
    case Done(None, rest) => Done([], rest)
    case Done(Some(file), rest) => Prefixed([file], FileTable(rest))
  }

  function DirectoryTable(s: seq<byte>): (r: Read<seq<seq<byte>>>)
    ensures r.Done? ==> |r.rest| < |s|
    decreases |s|
  {
    match NullTerminated(s)
    case Abort(why) => Abort(why)
    case Done(name, rest) =>
      if name == [] then Done([], rest) else Prefixed([name], DirectoryTable(rest))
  }

  // ---------------------------------------------------------------------
  // The second pass over the program
  // ---------------------------------------------------------------------

  /** Which byte NextDefineFile compares with DW_LNE_define_file. */
  datatype Tested =
    | StandardByte   // as written: the standard opcode byte, zero at that point
    | ExtendedByte   // as intended: the extended opcode just read

  /** One turn of the scanner; a value when the instruction defines a file. */
  function ScanOne(h: Header, s: seq<byte>, tested: Tested): (r: Read<Option<FileName>>)
    requires h.Valid() && s != []
    ensures r.Done? ==> |r.rest| < |s|
  {
    if s[0] >= h.opcodeBase then Done(None, s[1..])
    else if s[0] != 0 then MapRead(SkipUlebs(s[1..], h.opcodeLengths[s[0] - 1]), _ => None)
    else
      match ExtendedPrefix(s[1..])
      case Abort(why) => Abort(why)
      case Done((length, opcode), rest) =>
        if (if tested.StandardByte? then s[0] else opcode) == LNE_DEFINE_FILE then
          match FileEntry(rest)
          case Abort(why) => Abort(why)
          case Done(None, _) => Abort(EmptyDefineFile)
          case Done(Some(file), u) => Done(Some(file), u)
        else if length > |rest| then Abort(Underflow)
        else Done(None, rest[length..])
  }

  /** The next file the scanner finds, or None at the end of the program. */
  function NextDefineFile(h: Header, s: seq<byte>, tested: Tested): (r: Read<Option<FileName>>)
    requires h.Valid()
    ensures r.Done? && r.value.Some? ==> |r.rest| < |s|
    decreases |s|
  {
    if s == [] then Done(None, [])
    else
      match ScanOne(h, s, tested)
      case Abort(why) => Abort(why)
      case Done(Some(file), rest) => Done(Some(file), rest)
      case Done(None, rest) => NextDefineFile(h, rest, tested)
  }

  /** The k-th file (from 1) the scanner finds. */
  function DefinedFile(h: Header, s: seq<byte>, k: nat, tested: Tested): Result<FileName>
    requires h.Valid() && k > 0
    decreases k
  {
    match NextDefineFile(h, s, tested)
    case Abort(why) => Err(why)
    case Done(None, _) => Err(BadIndex)
    case Done(Some(file), rest) => if k == 1 then Ok(file) else DefinedFile(h, rest, k - 1, tested)
  }

  /** As written, the scanner never finds a file. */
  lemma {:induction false} AsWrittenFindsNothing(h: Header, s: seq<byte>)
    requires h.Valid()
    ensures var r := NextDefineFile(h, s, StandardByte); r.Done? ==> r.value.None?
    decreases |s|
  {
    if s != [] {
      var r := ScanOne(h, s, StandardByte);
      if r.Done? {
        AsWrittenFindsNothing(h, r.rest);
      }
    }
  }

  // ---------------------------------------------------------------------
  // Lockstep of the two interpreters
  // ---------------------------------------------------------------------

  /** The number of LEB128 operands the interpreter reads for a standard opcode it
      recognises; None for one it skips by the header's count. */
  function OperandCount(h: Header, opcode: byte): Option<nat> {
    if opcode in {LNS_COPY, LNS_NEGATE_STMT, LNS_SET_BASIC_BLOCK, LNS_CONST_ADD_PC} then Some(0)
    else if opcode in {LNS_ADVANCE_PC, LNS_ADVANCE_LINE, LNS_SET_FILE, LNS_SET_COLUMN} then Some(1)
    else if opcode in {LNS_SET_PROLOGUE_END, LNS_SET_EPILOGUE_BEGIN} && h.version != 2 then Some(0)
    else if opcode == LNS_SET_ISA && h.version != 2 then Some(1)
    else None
  }

  /** The operands a standard opcode declares are those it is executed with. The
      two-byte operand of DW_LNS_fixed_advance_pc must look like one LEB128 number of two
      bytes, or like two of one byte, whichever is declared. */
  predicate StandardWellFormed(h: Header, opcode: byte, operands: seq<byte>)
    requires h.Valid() && 0 < opcode < h.opcodeBase
  {
    var declared := h.opcodeLengths[opcode - 1];
    if opcode == LNS_FIXED_ADVANCE_PC then
      && |operands| >= 2 && operands[1] < 128
      && if operands[0] < 128 then declared == 2 else declared == 1
    else
      OperandCount(h, opcode) == None || OperandCount(h, opcode) == Some(declared)
  }

  /** The length of an extended instruction is the size of its operand. */
  predicate ExtendedWellFormed(length: uint64, opcode: byte, operand: seq<byte>) {
    if opcode == LNE_END_SEQUENCE then length == 0
    else if opcode == LNE_SET_ADDRESS then length == 8
    else if opcode == LNE_SET_DISCRIMINATOR then
      Uleb(operand).Done? && length == |operand| - |Uleb(operand).rest|
    else if opcode == LNE_DEFINE_FILE then
      var entry := FileEntry(operand);
      entry.Done? && entry.value.Some? && length == |operand| - |entry.rest|
    else true
  }

  predicate WellFormedAt(h: Header, s: seq<byte>)
    requires h.Valid() && Decode(h, s).Done?
  {
    if s[0] >= h.opcodeBase then true
    else if s[0] != 0 then StandardWellFormed(h, s[0], s[1..])
    else
      var p := ExtendedPrefix(s[1..]);
      ExtendedWellFormed(p.value.0, p.value.1, p.rest)
  }

  /** Both interpreters leave the same bytes after one instruction. */
  predicate InStep(h: Header, s: seq<byte>)
    requires h.Valid() && Decode(h, s).Done?
  {
    ScanOne(h, s, ExtendedByte).Done? && ScanOne(h, s, ExtendedByte).rest == Decode(h, s).rest
  }

  // what a reader leaves is a suffix of what it was given

  ghost predicate Suffix(rest: seq<byte>, s: seq<byte>) {
    |rest| <= |s| && rest == s[|s| - |rest|..]
  }

  lemma SuffixOfSuffix(a: seq<byte>, b: seq<byte>, c: seq<byte>)
    requires Suffix(a, b) && Suffix(b, c)
    ensures Suffix(a, c)
  {
  }

  lemma {:induction false} DigitsLeaveSuffix(s: seq<byte>, sum: nat, k: nat)
    ensures var r := Digits(s, sum, k); r.Done? ==> Suffix(r.rest, s)
    decreases |s|
  {
    if s != [] && k < 10 && s[0] >= 128 {
      DigitsLeaveSuffix(s[1..], sum + Digit(s[0], k), k + 1);
    }
  }

  lemma {:induction false} SkipUlebsLeavesSuffix(s: seq<byte>, n: nat)
    ensures var r := SkipUlebs(s, n); r.Done? ==> Suffix(r.rest, s)
    decreases n
  {
    if n > 0 && Uleb(s).Done? {
      DigitsLeaveSuffix(s, 0, 0);
      SkipUlebsLeavesSuffix(Uleb(s).rest, n - 1);
    }
  }

  lemma {:induction false} NullTerminatedLeavesSuffix(s: seq<byte>)
    ensures var r := NullTerminated(s); r.Done? ==> Suffix(r.rest, s)
    decreases |s|
  {
    if s != [] && s[0] != 0 {
      NullTerminatedLeavesSuffix(s[1..]);
    }
  }

  lemma FileEntryLeavesSuffix(s: seq<byte>)
    ensures var r := FileEntry(s); r.Done? ==> Suffix(r.rest, s)
  {
    NullTerminatedLeavesSuffix(s);
    var name := NullTerminated(s);
    if name.Done? && name.value != [] {
      var t := name.rest;
      DigitsLeaveSuffix(t, 0, 0);
      if Uleb(t).Done? {
        var u := Uleb(t).rest;
        SkipUlebsLeavesSuffix(u, 2);
        SuffixOfSuffix(u, t, s);
        if SkipUlebs(u, 2).Done? {
          SuffixOfSuffix(SkipUlebs(u, 2).rest, u, s);
        }
      }
    }
  }

  /** Skipping numbers passes exactly two bytes when those are one number or two. */
  lemma TwoBytesSkippedExactlyWhen(t: seq<byte>, count: nat)
    requires |t| >= 2
    ensures SkipUlebs(t, count).Done? && |SkipUlebs(t, count).rest| == |t| - 2
      <==> t[1] < 128 && count == if t[0] < 128 then 2 else 1
  {
    if count > 0 {
      FirstNumberEnds(t);
      if count == 2 && t[0] < 128 {
        FirstNumberEnds(t[1..]);
        assert SkipUlebs(t, 2) == SkipUlebs(t[1..], 1);
        assert Uleb(t[1..]).Done? ==> SkipUlebs(t[1..], 1) == SkipUlebs(Uleb(t[1..]).rest, 0);
      } else if Uleb(t).Done? {
        assert SkipUlebs(t, count) == SkipUlebs(Uleb(t).rest, count - 1);
      }
    }
  }

  lemma FirstNumberEnds(t: seq<byte>)
    requires t != []
    ensures t[0] < 128 ==> Uleb(t).Done? && |Uleb(t).rest| == |t| - 1 && Uleb(t).rest == t[1..]
    ensures t[0] >= 128 && Uleb(t).Done? ==> |t| >= 2 && |Uleb(t).rest| <= |t| - 2
    ensures t[0] >= 128 && |t| >= 2 ==>
      (Uleb(t).Done? && |Uleb(t).rest| == |t| - 2 <==> t[1] < 128)
  {
    assert t[0] >= 128 ==> Digits(t, 0, 0) == Digits(t[1..], Digit(t[0], 0), 1);
    assert t[0] >= 128 && |t| >= 2 && t[1] >= 128 ==>
      Digits(t[1..], Digit(t[0], 0), 1) == Digits(t[1..][1..], Digit(t[0], 0) + Digit(t[1], 1), 2);
  }

  lemma StandardInStep(h: Header, opcode: byte, t: seq<byte>)
    requires h.Valid() && 0 < opcode < h.opcodeBase
    requires StandardOperands(h, opcode, t).Done?
    ensures var skipped := SkipUlebs(t, h.opcodeLengths[opcode - 1]);
      skipped.Done? && skipped.rest == StandardOperands(h, opcode, t).rest <==> StandardWellFormed(h, opcode, t)
  {
    var declared := h.opcodeLengths[opcode - 1];
    SkipUlebsLeavesSuffix(t, declared);
    if opcode == LNS_FIXED_ADVANCE_PC {
      TwoBytesSkippedExactlyWhen(t, declared);
    }
    if OperandCount(h, opcode) == Some(1) {
      assert StandardOperands(h, opcode, t).rest == Uleb(t).rest;
      if declared > 0 {
        assert SkipUlebs(t, declared) == SkipUlebs(Uleb(t).rest, declared - 1);
      }
    }
  }

  /** One instruction keeps the interpreters in step exactly when it is well formed. */
  lemma InStepExactlyWhenWellFormed(h: Header, s: seq<byte>)
    requires h.Valid() && Decode(h, s).Done?
    ensures InStep(h, s) <==> WellFormedAt(h, s)
  {
    hide StandardOperands, StandardWellFormed, SkipUlebs, FileEntry, Digits;
    if s[0] >= h.opcodeBase {
    } else if s[0] != 0 {
      StandardInStep(h, s[0], s[1..]);
    } else {
      var t := ExtendedPrefix(s[1..]).rest;
      DigitsLeaveSuffix(t, 0, 0);
      FileEntryLeavesSuffix(t);
    }
  }

  /** Lengths of the programs left at each instruction the interpreter reaches,
      ending with 0 when it reaches the end of the program. */
  function StepBoundaries(h: Header, s: seq<byte>): seq<nat>
    requires h.Valid()
    decreases |s|
  {
    if s != [] && Decode(h, s).Done? then [|s|] + StepBoundaries(h, Decode(h, s).rest) else [|s|]
  }

  function ScanBoundaries(h: Header, s: seq<byte>): seq<nat>
    requires h.Valid()
    decreases |s|
  {
    if s != [] && ScanOne(h, s, ExtendedByte).Done?
    then [|s|] + ScanBoundaries(h, ScanOne(h, s, ExtendedByte).rest) else [|s|]
  }

  /** Every instruction decodes. */
  predicate Decodable(h: Header, s: seq<byte>)
    requires h.Valid()
    decreases |s|
  {
    s == [] || (Decode(h, s).Done? && Decodable(h, Decode(h, s).rest))
  }

  predicate WellFormed(h: Header, s: seq<byte>)
    requires h.Valid() && Decodable(h, s)
    decreases |s|
  {
    s == [] || (WellFormedAt(h, s) && WellFormed(h, Decode(h, s).rest))
  }

  /** The scanner visits exactly the instructions the interpreter executes when,
      and only when, every instruction is well formed. */
  lemma {:induction false} LockstepExactlyWhenWellFormed(h: Header, s: seq<byte>)
    requires h.Valid() && Decodable(h, s)
    ensures ScanBoundaries(h, s) == StepBoundaries(h, s) <==> WellFormed(h, s)
    decreases |s|
  {
    if s != [] {
      InStepExactlyWhenWellFormed(h, s);
      var step, scan := StepBoundaries(h, s), ScanBoundaries(h, s);
      var rest := Decode(h, s).rest;
      assert step[1..] == StepBoundaries(h, rest) && step[1] == |rest|;
      if InStep(h, s) {
        LockstepExactlyWhenWellFormed(h, rest);
        assert scan[1..] == ScanBoundaries(h, rest);
      } else if ScanOne(h, s, ExtendedByte).Done? {
        SameLengthIsInStep(h, s);
        var scanned := ScanOne(h, s, ExtendedByte).rest;
        assert scan[1..] == ScanBoundaries(h, scanned);
        assert scan[1] == |scanned|;
      } else {
        assert |scan| == 1;
      }
    }
  }

  lemma SameLengthIsInStep(h: Header, s: seq<byte>)
    requires h.Valid() && Decode(h, s).Done? && ScanOne(h, s, ExtendedByte).Done?
    ensures |Decode(h, s).rest| == |ScanOne(h, s, ExtendedByte).rest| ==> InStep(h, s)
  {
    DecodeLeavesSuffix(h, s);
    ScanLeavesSuffix(h, s);
  }

  lemma StandardLeavesSuffix(h: Header, opcode: byte, t: seq<byte>)
    requires h.Valid() && 0 < opcode < h.opcodeBase
    ensures var r := StandardOperands(h, opcode, t); r.Done? ==> Suffix(r.rest, t)
  {
    if opcode == LNS_FIXED_ADVANCE_PC || OperandCount(h, opcode) == Some(0) {
    } else if OperandCount(h, opcode) == Some(1) {
      DigitsLeaveSuffix(t, 0, 0);
    } else {
      SkipUlebsLeavesSuffix(t, h.opcodeLengths[opcode - 1]);
    }
  }

  lemma ExtendedPrefixLeavesSuffix(t: seq<byte>)
    ensures var r := ExtendedPrefix(t); r.Done? ==> Suffix(r.rest, t)
  {
    DigitsLeaveSuffix(t, 0, 0);
  }

  lemma ExtendedLeavesSuffix(length: uint64, opcode: byte, t: seq<byte>)
    ensures var r := ExtendedOperands(length, opcode, t); r.Done? ==> Suffix(r.rest, t)
  {
    DigitsLeaveSuffix(t, 0, 0);
  }

  lemma DecodeLeavesSuffix(h: Header, s: seq<byte>)
    requires h.Valid() && Decode(h, s).Done?
    ensures Suffix(Decode(h, s).rest, s)
  {
    if s[0] >= h.opcodeBase {
    } else if s[0] != 0 {
      StandardLeavesSuffix(h, s[0], s[1..]);
    } else {
      ExtendedPrefixLeavesSuffix(s[1..]);
      var p := ExtendedPrefix(s[1..]);
      ExtendedLeavesSuffix(p.value.0, p.value.1, p.rest);
      SuffixOfSuffix(p.rest, s[1..], s);
      SuffixOfSuffix(Decode(h, s).rest, p.rest, s);
    }
  }

  lemma ScanLeavesSuffix(h: Header, s: seq<byte>)
    requires h.Valid() && s != [] && ScanOne(h, s, ExtendedByte).Done?
    ensures Suffix(ScanOne(h, s, ExtendedByte).rest, s)
  {
    if s[0] >= h.opcodeBase {
    } else if s[0] != 0 {
      SkipUlebsLeavesSuffix(s[1..], h.opcodeLengths[s[0] - 1]);
    } else {
      ExtendedPrefixLeavesSuffix(s[1..]);
      var t := ExtendedPrefix(s[1..]).rest;
      FileEntryLeavesSuffix(t);
      SuffixOfSuffix(t, s[1..], s);
      SuffixOfSuffix(ScanOne(h, s, ExtendedByte).rest, t, s);
    }
  }

  /** The file that the instruction at s defines, if it is a DW_LNE_define_file. */
  function DefinitionAt(h: Header, s: seq<byte>): Option<FileName>
    requires h.Valid() && Decode(h, s).Done? && WellFormedAt(h, s)
  {
    if s[0] != 0 then None
    else
      var p := ExtendedPrefix(s[1..]);
      if p.value.1 == LNE_DEFINE_FILE then FileEntry(p.rest).value else None
  }

  /** The files that DW_LNE_define_file instructions define, in the order in which
      the interpreter passes them. */
  function DefinedFiles(h: Header, s: seq<byte>): seq<FileName>
    requires h.Valid() && Decodable(h, s) && WellFormed(h, s)
    decreases |s|
  {
    if s == [] then []
    else
      var more := DefinedFiles(h, Decode(h, s).rest);
      match DefinitionAt(h, s)
      case None => more
      case Some(file) => [file] + more
  }

  lemma ScanOneFindsDefinition(h: Header, s: seq<byte>)
    requires h.Valid() && Decode(h, s).Done? && WellFormedAt(h, s)
    ensures ScanOne(h, s, ExtendedByte) == Done(DefinitionAt(h, s), Decode(h, s).rest)
  {
    InStepExactlyWhenWellFormed(h, s);
  }

  lemma {:induction false} ScannerFindsFirstDefinition(h: Header, s: seq<byte>)
    requires h.Valid() && Decodable(h, s) && WellFormed(h, s)
    ensures var r, files := NextDefineFile(h, s, ExtendedByte), DefinedFiles(h, s);
      && (files == [] ==> r == Done(None, []))
      && (files != [] ==>
        && r.Done? && r.value == Some(files[0])
        && Decodable(h, r.rest) && WellFormed(h, r.rest) && DefinedFiles(h, r.rest) == files[1..])
    decreases |s|
  {
    if s != [] {
      ScanOneFindsDefinition(h, s);
      ScannerFindsFirstDefinition(h, Decode(h, s).rest);
    }
  }

  /** The k-th file the intended scanner finds is the k-th definition in program order. */
  lemma {:induction false} ScannerFollowsProgramOrder(h: Header, s: seq<byte>, k: nat)
    requires h.Valid() && Decodable(h, s) && WellFormed(h, s) && k > 0
    ensures DefinedFile(h, s, k, ExtendedByte)
         == (if k <= |DefinedFiles(h, s)| then Ok(DefinedFiles(h, s)[k - 1]) else Err(BadIndex))
    decreases k
  {
    ScannerFindsFirstDefinition(h, s);
    var r := NextDefineFile(h, s, ExtendedByte);
    if r.value.Some? && k > 1 {
      ScannerFollowsProgramOrder(h, r.rest, k - 1);
    }
  }

  /** Under the operand count the standard prescribes, a fixed advance keeps the two
      interpreters in step exactly when its operand looks like a two-byte number. */
  lemma FixedAdvanceInStepExactlyWhen(h: Header, s: seq<byte>)
    requires h.Valid() && LNS_FIXED_ADVANCE_PC < h.opcodeBase && h.opcodeLengths[LNS_FIXED_ADVANCE_PC - 1] == 1
    requires |s| >= 3 && s[0] == LNS_FIXED_ADVANCE_PC
    ensures Decode(h, s).Done? && (InStep(h, s) <==> s[1] >= 128 && s[2] < 128)
  {
    InStepExactlyWhenWellFormed(h, s);
  }

  /** A standard header and a program that advances by a fixed two-byte operand:
      the interpreter consumes both bytes, the scanner only one. */
  lemma FixedAdvanceBreaksLockstep()
    ensures var h := Header(4, 1, true, -5, 14, 13, [0, 1, 1, 1, 1, 0, 0, 0, 1, 0, 0, 1]);
      var s := [LNS_FIXED_ADVANCE_PC, 5, 0];
      && h.Valid() && Decode(h, s) == Done(FixedAdvancePc(5), [])
      && ScanOne(h, s, ExtendedByte) == Done(None, [0])
  {
    var h := Header(4, 1, true, -5, 14, 13, [0, 1, 1, 1, 1, 0, 0, 0, 1, 0, 0, 1]);
    var t: seq<byte> := [5, 0];
    assert LittleEndian(t[1..][1..]) == 0;
    assert Fixed(t, 2) == Done(5, []);
    assert Digits(t, 0, 0) == Done(Leb(5, 1, 5), t[1..]);
    assert SkipUlebs(t, 1) == SkipUlebs(t[1..], 0);
    assert [LNS_FIXED_ADVANCE_PC, 5, 0][1..] == t;
  }
}
