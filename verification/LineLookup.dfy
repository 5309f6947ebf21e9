// The address search and the table lookup of DWARF 4, section 6.2, side by side.
module LineLookup {
  import opened Base
  import opened Leb128
  import opened LineProgram
  import opened LineTable
  import opened FileTables
  import opened LineUnit
  import opened LineEncoding

  /** The matrix a unit's program describes. */
  function MatrixOf(u: Unit): Matrix
    requires u.header.Valid()
  {
    Run(u.header, Initial(u.header), u.program)
  }

  /** For every unit whose sequences only move upward, the search answers with the
      first row that covers the target, and finds nothing exactly when no row does.
      The search stops instead only where the program cannot be executed further. */
  lemma SearchIsTableLookup(u: Unit, target: uint64, tested: Tested)
    requires u.header.Valid() && Ordered(MatrixOf(u).rows)
    ensures forall n: nat ::
      FirstCover(MatrixOf(u).rows, n, target) ==> Locate(u, target, tested) == Resolve(u, MatrixOf(u).rows[n], tested)
    ensures (forall n: nat :: !Covers(MatrixOf(u).rows, n, target))
      ==> Locate(u, target, tested) == match MatrixOf(u).stopped case None => NotFound case Some(why) => Stopped(why)
    ensures (forall r :: r in MatrixOf(u).rows ==> r.file != 0) && MatrixOf(u).stopped.None?
      ==> (Locate(u, target, tested) == NotFound <==> forall n: nat :: !Covers(MatrixOf(u).rows, n, target))
  {
    var rows := MatrixOf(u).rows;
    OrderedSearchIsTableLookup(rows, target);
    hide Run, Resolve;
    var answer := FirstAnswer(rows, target, 0);
    if answer.Some? {
      ResolveFinds(u, rows[answer.value], tested);
    }
  }

  lemma ResolveFinds(u: Unit, row: Row, tested: Tested)
    requires u.header.Valid()
    ensures Resolve(u, row, tested) == NotFound <==> row.file == 0
  {
  }

  /** What the answer says: the line of the first row that covers the target, and of the file
      that the row names by its index, name and directory. It says so exactly when both
      indices name something. */
  lemma FindsFirstCover(u: Unit, n: nat, target: uint64, tested: Tested)
    requires WellCounted(u) && Ordered(MatrixOf(u).rows) && FirstCover(MatrixOf(u).rows, n, target)
    ensures var row, found := MatrixOf(u).rows[n], Locate(u, target, tested);
      var directories, files := DirectoryTable(u.directories).value, FileTable(u.fileNames).value;
      && (found == NotFound <==> row.file == 0)
      && (found.Found? ==> found.line == row.line)
      && (0 < row.file <= |files| ==>
            var file := files[row.file - 1];
            && (found.Found? <==> file.directory <= |directories|)
            && (found.Found? ==> found.name == file.name)
            && (found.Found? && file.directory == 0 ==> found.directory == [])
            && (found.Found? && file.directory != 0 ==> found.directory == directories[file.directory - 1]))
      && (row.file > |files| && tested.StandardByte? ==> found.Stopped?)
  {
    var row := MatrixOf(u).rows[n];
    assert Locate(u, target, tested) == Resolve(u, row, tested) by {
      SearchIsTableLookup(u, target, tested);
    }
    hide *;
    ResolvesHeaderFile(u, row, tested);
  }

  lemma ResolvesHeaderFile(u: Unit, row: Row, tested: Tested)
    requires WellCounted(u)
    ensures var found := Resolve(u, row, tested);
      var directories, files := DirectoryTable(u.directories).value, FileTable(u.fileNames).value;
      && (found == NotFound <==> row.file == 0)
      && (found.Found? ==> found.line == row.line)
      && (0 < row.file <= |files| ==>
            var file := files[row.file - 1];
            && (found.Found? <==> file.directory <= |directories|)
            && (found.Found? ==> found.name == file.name)
            && (found.Found? && file.directory == 0 ==> found.directory == [])
            && (found.Found? && file.directory != 0 ==> found.directory == directories[file.directory - 1]))
      && (row.file > |files| && tested.StandardByte? ==> found.Stopped?)
  {
    hide FileAt, DirectoryAt, DirectoryTable, FileTable;
    if 0 < row.file <= u.fileCount {
      CountedIndexNamesAFile(u, row.file, tested);
      DirectoryIsNamed(u, FileTable(u.fileNames).value[row.file - 1].directory);
    } else if row.file != 0 && tested.StandardByte? {
      AsWrittenNamesHeaderFilesOnly(u, row.file);
    }
  }

  /** The same for the files that the program defines, with the intended comparison. */
  lemma FindsFirstCoverInDefinedFile(u: Unit, n: nat, target: uint64)
    requires WellCounted(u) && Ordered(MatrixOf(u).rows) && FirstCover(MatrixOf(u).rows, n, target)
    requires Decodable(u.header, u.program) && WellFormed(u.header, u.program)
    ensures var row, found := MatrixOf(u).rows[n], Locate(u, target, ExtendedByte);
      var directories := DirectoryTable(u.directories).value;
      var files := FileTable(u.fileNames).value + DefinedFiles(u.header, u.program);
      && (found.Found? <==> 0 < row.file <= |files| && files[row.file - 1].directory <= |directories|)
      && (found.Found? ==>
            var file := files[row.file - 1];
            && found.line == row.line && found.name == file.name
            && found.directory == if file.directory == 0 then [] else directories[file.directory - 1])
  {
    var row := MatrixOf(u).rows[n];
    assert Locate(u, target, ExtendedByte) == Resolve(u, row, ExtendedByte) by {
      SearchIsTableLookup(u, target, ExtendedByte);
    }
    hide *;
    ResolvesAnyFile(u, row);
  }

  lemma ResolvesAnyFile(u: Unit, row: Row)
    requires WellCounted(u) && Decodable(u.header, u.program) && WellFormed(u.header, u.program)
    ensures var found, directories := Resolve(u, row, ExtendedByte), DirectoryTable(u.directories).value;
      var files := FileTable(u.fileNames).value + DefinedFiles(u.header, u.program);
      && (found.Found? <==> 0 < row.file <= |files| && files[row.file - 1].directory <= |directories|)
      && (found.Found? ==>
            var file := files[row.file - 1];
            && found.line == row.line && found.name == file.name
            && found.directory == if file.directory == 0 then [] else directories[file.directory - 1])
  {
    hide FileAt, DirectoryAt, DirectoryTable, FileTable, DefinedFiles, WellFormed;
    if row.file != 0 {
      FileAtNamesAllFiles(u, row.file);
      var file := FileAt(u, row.file, ExtendedByte);
      if file.Ok? {
        DirectoryIsNamed(u, file.value.directory);
      }
    }
  }

  /** Index 0 is the compilation directory, which the unit does not name. */
  lemma DirectoryIsNamed(u: Unit, index: nat)
    requires WellCounted(u)
    ensures var directories := DirectoryTable(u.directories).value;
      DirectoryAt(u, index)
      == if index == 0 then Ok([]) else if index <= |directories| then Ok(directories[index - 1]) else Err(BadIndex)
  {
    hide NameAt, DirectoryTable;
    if 0 < index <= u.directoryCount {
      CountedIndexNamesADirectory(u, index);
    }
  }

  lemma {:induction false} EncodableIsOrdered(h: Header, p: Position, rows: seq<Row>)
    requires Encodable(h, p, rows)
    ensures Ordered(rows)
    ensures rows != [] && !p.opening ==> p.address <= rows[0].address
    decreases |rows|
  {
    if rows != [] {
      EncodableIsOrdered(h, After(rows[0]), rows[1..]);
      forall n | 0 <= n && n + 1 < |rows| && !rows[n].end
        ensures rows[n].address <= rows[n + 1].address
      {
        assert n > 0 ==> rows[n] == rows[1..][n - 1] && rows[n + 1] == rows[1..][n - 1 + 1];
      }
    }
  }

  /** The program of the unit is the encoding of that matrix. */
  predicate Encodes(u: Unit, rows: seq<Row>) {
    && Adequate(u.header) && Encodable(u.header, StartPosition(), rows)
    && u.program == Assemble(u.header, EmitRows(u.header, StartPosition(), rows))
  }

  /** Looking an address up in the encoding of a matrix is looking it up in the matrix. */
  lemma {:induction false} EncodedSearchIsTableLookup(u: Unit, rows: seq<Row>, target: uint64, tested: Tested)
    requires Encodes(u, rows)
    ensures forall n: nat :: FirstCover(rows, n, target) ==> Locate(u, target, tested) == Resolve(u, rows[n], tested)
    ensures (forall n: nat :: !Covers(rows, n, target)) ==> Locate(u, target, tested) == NotFound
  {
    EncodedMatrix(u, rows);
    hide Run, Locate, Resolve, FirstCover, Ordered;
    SearchIsTableLookup(u, target, tested);
  }

  lemma {:induction false} EncodedMatrix(u: Unit, rows: seq<Row>)
    requires Encodes(u, rows)
    ensures MatrixOf(u) == Matrix(rows, None) && Ordered(rows)
  {
    EncodingRoundTrip(u.header, rows);
    EncodableIsOrdered(u.header, StartPosition(), rows);
  }

  /** A program whose only sequence goes down from 9 to 3 before it ends at 8. */
  function DescendingProgram(h: Header): (p: seq<Instruction>)
    requires Adequate(h)
    ensures p != [] && AllExpressible(h, p) && Commits(p[|p| - 1])
  {
    [SetAddress(9), Copy, AdvanceLine(1), SetAddress(3), Copy, SetAddress(8), EndSequence]
  }

  /** Assembled for any header, it covers address 5 with its second row, and the search
      passes over that row. */
  lemma DescendingProgramIsPassedOver(u: Unit, tested: Tested)
    requires Adequate(u.header)
    requires u.program == Assemble(u.header, DescendingProgram(u.header))
    ensures MatrixOf(u) == Matrix([Row(9, 1, 1, false), Row(3, 1, 2, false), Row(8, 1, 2, true)], None)
    ensures Covers(MatrixOf(u).rows, 1, 5) && Locate(u, 5, tested) == NotFound
  {
    var h, p := u.header, DescendingProgram(u.header);
    RunAssembled(h, Initial(h), p);
    DescendingRows(h);
    UnorderedSequenceIsPassedOver();
  }

  lemma DescendingRows(h: Header)
    requires Adequate(h)
    ensures RowsOf(h, Initial(h), DescendingProgram(h))
         == [Row(9, 1, 1, false), Row(3, 1, 2, false), Row(8, 1, 2, true)]
  {
    hide RowsOf;
    var r := Initial(h).(address := 9);
    var q: seq<Instruction> := [AdvanceLine(1), SetAddress(3), Copy, SetAddress(8), EndSequence];
    RowsOfCons(h, r, Copy, q);
    RowsOfCons(h, Initial(h), SetAddress(9), [Copy] + q);
    assert DescendingProgram(h) == [SetAddress(9)] + ([Copy] + q);
    DescendingRest(h, AfterCommit(r));
  }

  lemma DescendingRest(h: Header, r: Registers)
    requires Adequate(h) && r.file == 1 && r.line == 1
    ensures RowsOf(h, r, [AdvanceLine(1), SetAddress(3), Copy, SetAddress(8), EndSequence])
         == [Row(3, 1, 2, false), Row(8, 1, 2, true)]
  {
    hide RowsOf;
    var r1 := r.(line := 2);
    var r2 := AfterCommit(r1.(address := 3));
    var q: seq<Instruction> := [SetAddress(8), EndSequence];
    RowsOfCons(h, r2, SetAddress(8), [EndSequence]);
    RowsOfCons(h, r2.(address := 8), EndSequence, []);
    RowsOfNothing(h);
    assert [SetAddress(8)] + [EndSequence] == q && [EndSequence] + [] == [EndSequence];
    RowsOfCons(h, r1.(address := 3), Copy, q);
    RowsOfCons(h, r1, SetAddress(3), [Copy] + q);
    RowsOfCons(h, r, AdvanceLine(1), [SetAddress(3)] + ([Copy] + q));
    assert [AdvanceLine(1)] + ([SetAddress(3)] + ([Copy] + q))
      == [AdvanceLine(1), SetAddress(3), Copy, SetAddress(8), EndSequence];
  }

  lemma RowsOfNothing(h: Header)
    requires Adequate(h)
    ensures RowsOf(h, Initial(h), []) == []
  {
  }
}
