// The lookup a materialised line-number matrix supports (DWARF 4, section 6.2),
// against which the streaming search of symbolizer/Dwarf.cc is proved.
module LineTable {
  import opened Base
  import opened LineProgram

  /** Row n and its successor belong to one sequence and enclose the target. */
  predicate Covers(rows: seq<Row>, n: nat, target: uint64) {
    n + 1 < |rows| && !rows[n].end && rows[n].address <= target < rows[n + 1].address
  }

  /** Index of the first row of the sequence that row n belongs to. */
  function Start(rows: seq<Row>, n: nat): (m: nat)
    requires n < |rows|
    ensures m <= n && forall j :: m <= j < n ==> !rows[j].end
    ensures m == 0 || rows[m - 1].end
  {
    if n == 0 || rows[n - 1].end then n else Start(rows, n - 1)
  }

  /** A sequence is searched only when it starts at or below the target. */
  predicate Candidate(rows: seq<Row>, n: nat, target: uint64) {
    n < |rows| && rows[Start(rows, n)].address <= target
  }

  predicate Answers(rows: seq<Row>, n: nat, target: uint64) {
    Covers(rows, n, target) && Candidate(rows, n, target)
  }

  /** The least row at or after from that answers. */
  function FirstAnswer(rows: seq<Row>, target: uint64, from: nat): (r: Option<nat>)
    ensures r.Some? ==> from <= r.value && Answers(rows, r.value, target)
    ensures r.Some? ==> forall j :: from <= j < r.value ==> !Answers(rows, j, target)
    ensures r.None? ==> forall j :: from <= j ==> !Answers(rows, j, target)
    decreases |rows| - from
  {
    if |rows| <= from then None
    else if Answers(rows, from, target) then Some(from)
    else FirstAnswer(rows, target, from + 1)
  }

  /** Addresses only increase within a sequence. */
  predicate Ordered(rows: seq<Row>) {
    forall n :: 0 <= n && n + 1 < |rows| && !rows[n].end ==> rows[n].address <= rows[n + 1].address
  }

  predicate FirstCover(rows: seq<Row>, n: nat, target: uint64) {
    Covers(rows, n, target) && forall j: nat :: j < n ==> !Covers(rows, j, target)
  }

  /** The search answers with the first covering row exactly when that row's
      sequence starts at or below the target. */
  lemma AnswersWithFirstCover(rows: seq<Row>, target: uint64, n: nat)
    requires FirstCover(rows, n, target)
    ensures FirstAnswer(rows, target, 0) == Some(n) <==> Candidate(rows, n, target)
  {
    assert Candidate(rows, n, target) ==> Answers(rows, n, target);
  }

  lemma {:induction false} StartIsLowest(rows: seq<Row>, n: nat)
    requires Ordered(rows) && n < |rows|
    ensures rows[Start(rows, n)].address <= rows[n].address
  {
    if n == 0 || rows[n - 1].end {
    } else {
      StartIsLowest(rows, n - 1);
      assert rows[n - 1].address <= rows[n - 1 + 1].address;
    }
  }

  /** When addresses only increase within sequences, the search is the table
      lookup: it finds a row exactly when some row covers the target, and then
      the first such row. */
  lemma OrderedSearchIsTableLookup(rows: seq<Row>, target: uint64)
    requires Ordered(rows)
    ensures FirstAnswer(rows, target, 0).None? <==> forall n: nat :: !Covers(rows, n, target)
    ensures forall n: nat :: FirstAnswer(rows, target, 0) == Some(n) <==> FirstCover(rows, n, target)
  {
    forall n: nat | Covers(rows, n, target)
      ensures Answers(rows, n, target)
    {
      StartIsLowest(rows, n);
    }
    forall n: nat
      ensures FirstAnswer(rows, target, 0) == Some(n) <==> FirstCover(rows, n, target)
    {
      if FirstCover(rows, n, target) {
        AnswersWithFirstCover(rows, target, n);
      }
    }
  }

  /** Without that order the search can pass over a row that covers the target. */
  lemma UnorderedSequenceIsPassedOver()
    ensures var rows := [Row(9, 1, 1, false), Row(3, 1, 2, false), Row(8, 1, 2, true)];
      Covers(rows, 1, 5) && FirstAnswer(rows, 5, 0) == None
  {
    var rows := [Row(9, 1, 1, false), Row(3, 1, 2, false), Row(8, 1, 2, true)];
    assert Start(rows, 1) == 0;
  }
}
