// logging/Logger.{h,cc}: producers and one writer thread that hand buffers to each
// other, as a machine whose steps are the critical sections and the writer's own work.
module Loggers {
  import opened Base
  import opened LogBuffers
  import opened Runs

  const LARGE_BUFFER: nat := 4096 * 1000
  const MOST_BUFFERS := 25

  /** A buffer is known by its content. */
  type Buffer = b: seq<byte> | |b| <= LARGE_BUFFER

  /** Where the writer's thread is. */
  datatype Position =
    | Top
    | Locked
    | Waiting
    | Swapped
    | Writing(next: nat)
    | Done

  /** What goes to the file: the content of a buffer, or a notice that some were dropped. */
  datatype Output = Data(buffer: Buffer) | Notice(dropped: int)

  datatype State = State(
    running: bool,
    current: Option<Buffer>,
    next: Option<Buffer>,
    buffers: seq<Buffer>,
    // of the writer's thread
    at: Position,
    buffer1: Option<Buffer>,
    buffer2: Option<Buffer>,
    toWrite: seq<Buffer>,
    output: seq<Output>,
    // a null pointer was used, or an assertion of the writer failed
    failed: bool,
    // all bytes accepted so far, and all batches taken by the writer
    appended: seq<byte>,
    batches: seq<seq<Buffer>>)

  const START := State(true, Some([]), Some([]), [], Top, Some([]), Some([]), [], [], false, [], [])

  datatype Step =
    | Append(message: seq<byte>)
    | Stop
    // the writer
    | Enter
    | Wait
    | Swap
    | Limit
    | Write
    | Refill

  // ---------------------------------------------------------------------
  // Steps
  // ---------------------------------------------------------------------

  /** What is kept of a message. */
  function Kept(message: seq<byte>): Buffer {
    if |message| <= LARGE_BUFFER then message else message[..LARGE_BUFFER]
  }

  function AppendTo(s: State, message: seq<byte>): State {
    if s.current.None? then s.(failed := true)
    else
      var content := s.current.value;
      if LARGE_BUFFER - |content| > |message| then
        s.(current := Some(Appended(content, LARGE_BUFFER, message)), appended := s.appended + message)
      else
        var taken: Buffer := if s.next.Some? then s.next.value else [];
        s.(buffers := s.buffers + [content], next := None,
           current := Some(Appended(taken, LARGE_BUFFER, message)),
           appended := s.appended + Kept(message))
  }

  predicate IsEmpty(b: Option<Buffer>) {
    b == Some([])
  }

  /** The head of the loop and the assertions after it. */
  function EnterLoop(s: State): State {
    if !s.running then s.(at := Done)
    else
      s.(at := Locked,
         failed := s.failed || !IsEmpty(s.buffer1) || !IsEmpty(s.buffer2) || s.toWrite != [])
  }

  function SwapBuffers(s: State): State {
    if s.current.None? then s.(failed := true)
    else
      var batch := s.buffers + [s.current.value];
      var t := s.(at := Swapped, buffers := [], toWrite := batch, batches := s.batches + [batch],
                  current := s.buffer1, buffer1 := None);
      if t.next.None? then t.(next := t.buffer2, buffer2 := None) else t
  }

  /** Too many buffers: all but the first two are dropped, with a notice. */
  function LimitBatch(s: State): State {
    if |s.toWrite| > MOST_BUFFERS then
      s.(at := Writing(0), output := s.output + [Notice(|s.toWrite| - 2)], toWrite := s.toWrite[..2])
    else s.(at := Writing(0), failed := s.failed || s.toWrite == [])
  }

  function WriteOne(s: State): State
    requires s.at.Writing? && s.at.next < |s.toWrite|
  {
    s.(output := s.output + [Data(s.toWrite[s.at.next])], at := Writing(s.at.next + 1))
  }

  /** The writer takes back an emptied buffer where it gave one away. */
  function RefillFirst(s: State): State {
    if s.buffer1.Some? then s
    else if s.toWrite == [] then s.(failed := true)
    else s.(buffer1 := Some([]), toWrite := s.toWrite[..|s.toWrite| - 1])
  }

  function RefillSecond(s: State): State {
    if s.buffer2.Some? then s
    else if s.toWrite == [] then s.(failed := true)
    else s.(buffer2 := Some([]), toWrite := s.toWrite[..|s.toWrite| - 1])
  }

  function RefillBuffers(s: State): State {
    var t := if |s.toWrite| > 2 then s.(toWrite := s.toWrite[..2]) else s;
    RefillSecond(RefillFirst(t)).(toWrite := [], at := Top)
  }

  predicate Enabled(s: State, step: Step) {
    match step
    case Append(_) => true
    case Stop => true
    case Enter => s.at.Top?
    // the check for an empty queue and the swap are one critical section, unless the
    // writer waits in between; it may be woken, or time out, at any moment
    case Wait => s.at.Locked? && s.buffers == []
    case Swap => s.at.Waiting? || (s.at.Locked? && s.buffers != [])
    case Limit => s.at.Swapped?
    case Write => s.at.Writing? && s.at.next < |s.toWrite|
    case Refill => s.at.Writing? && s.at.next >= |s.toWrite|
  }

  /** An enabled step's effect; a step that is not enabled does nothing. */
  function Next(s: State, step: Step): State {
    if !Enabled(s, step) then s
    else match step
      case Append(message) => AppendTo(s, message)
      case Stop => s.(running := false)
      case Enter => EnterLoop(s)
      case Wait => s.(at := Waiting)
      case Swap => SwapBuffers(s)
      case Limit => LimitBatch(s)
      case Write => WriteOne(s)
      case Refill => RefillBuffers(s)
  }

  function From(s: State, steps: seq<Step>): State {
    After(Next, s, steps)
  }

  // ---------------------------------------------------------------------
  // Buffers are where they are needed
  // ---------------------------------------------------------------------

  /** Producers always find a buffer; a spare that is missing means that a full one waits;
      the writer has both of its own back at the head of its loop. */
  predicate Supplied(s: State) {
    && !s.failed
    && s.current.Some?
    && (s.next.Some? ==> s.next.value == [])
    && (s.next.None? ==> s.buffers != [])
    && (s.buffer1.Some? ==> s.buffer1.value == [])
    && (s.buffer2.Some? ==> s.buffer2.value == [])
    && match s.at {
         case Top | Locked | Waiting | Done => IsEmpty(s.buffer1) && IsEmpty(s.buffer2) && s.toWrite == []
         case Swapped => s.toWrite != [] && (s.buffer2.None? ==> |s.toWrite| >= 2)
         case Writing(k) => s.toWrite != [] && (s.buffer2.None? ==> |s.toWrite| >= 2) && k <= |s.toWrite|
       }
  }

  lemma AppendIsSupplied(s: State, message: seq<byte>)
    requires Supplied(s)
    ensures Supplied(AppendTo(s, message))
  {
  }

  lemma SwapIsSupplied(s: State)
    requires Supplied(s) && Enabled(s, Swap)
    ensures Supplied(SwapBuffers(s))
  {
  }

  lemma LimitIsSupplied(s: State)
    requires Supplied(s) && s.at.Swapped?
    ensures Supplied(LimitBatch(s))
  {
  }

  lemma RefillIsSupplied(s: State)
    requires Supplied(s) && s.at.Writing?
    ensures Supplied(RefillBuffers(s))
  {
    var t := if |s.toWrite| > 2 then s.(toWrite := s.toWrite[..2]) else s;
    assert t.toWrite != [] && (t.buffer2.None? ==> |t.toWrite| >= 2);
  }

  lemma NextIsSupplied(s: State, step: Step)
    requires Supplied(s)
    ensures Supplied(Next(s, step))
  {
    hide AppendTo, SwapBuffers, LimitBatch, RefillBuffers;
    if Enabled(s, step) {
      match step
      case Append(message) => AppendIsSupplied(s, message);
      case Swap => SwapIsSupplied(s);
      case Limit => LimitIsSupplied(s);
      case Refill => RefillIsSupplied(s);
      case _ =>
    }
  }

  /** In every reachable state: no assertion of the writer fails, no pointer is used that
      is null, and at the head of its loop the writer has two empty buffers. */
  lemma {:induction false} EveryRunIsSupplied(s: State, steps: seq<Step>)
    requires Supplied(s)
    ensures Supplied(From(s, steps))
    decreases |steps|
  {
    if steps != [] {
      NextIsSupplied(s, steps[0]);
      EveryRunIsSupplied(Next(s, steps[0]), steps[1..]);
    }
  }

  // ---------------------------------------------------------------------
  // Nothing is lost but what is reported
  // ---------------------------------------------------------------------

  function Flat(buffers: seq<Buffer>): seq<byte> {
    if buffers == [] then [] else Flat(buffers[..|buffers| - 1]) + buffers[|buffers| - 1]
  }

  function FlatAll(batches: seq<seq<Buffer>>): seq<byte> {
    if batches == [] then [] else FlatAll(batches[..|batches| - 1]) + Flat(batches[|batches| - 1])
  }

  /** The buffers of a batch that are written, and the notice before them. */
  function Survivors(batch: seq<Buffer>): seq<Buffer> {
    if |batch| > MOST_BUFFERS then batch[..2] else batch
  }

  function NoticeOf(batch: seq<Buffer>): seq<Output> {
    if |batch| > MOST_BUFFERS then [Notice(|batch| - 2)] else []
  }

  function Datas(buffers: seq<Buffer>): (r: seq<Output>)
    ensures |r| == |buffers|
  {
    seq(|buffers|, i requires 0 <= i < |buffers| => Data(buffers[i]))
  }

  /** What the file gets for the batches: in order, and each in full unless it is too large. */
  function Rendered(batches: seq<seq<Buffer>>): seq<Output> {
    if batches == [] then []
    else
      var batch := batches[|batches| - 1];
      Rendered(batches[..|batches| - 1]) + NoticeOf(batch) + Datas(Survivors(batch))
  }

  /** Batches, then queued buffers, then the current one: all bytes accepted, in order. */
  predicate Conserved(s: State) {
    s.current.Some? ==> FlatAll(s.batches) + Flat(s.buffers) + s.current.value == s.appended
  }

  /** The file has every finished batch, and of the one at hand what is written so far. */
  predicate Faithful(s: State) {
    match s.at
    case Top | Locked | Waiting | Done => s.output == Rendered(s.batches)
    case Swapped =>
      && s.batches != [] && s.toWrite == s.batches[|s.batches| - 1]
      && s.output == Rendered(s.batches[..|s.batches| - 1])
    case Writing(k) =>
      && s.batches != []
      && var batch := s.batches[|s.batches| - 1];
      && s.toWrite == Survivors(batch) && k <= |s.toWrite|
      && s.output == Rendered(s.batches[..|s.batches| - 1]) + NoticeOf(batch) + Datas(s.toWrite[..k])
  }

  lemma Concatenation(a: seq<byte>, b: seq<byte>, c: seq<byte>, d: seq<byte>)
    ensures a + b + (c + d) == a + b + c + d == a + (b + c) + d
  {
  }

  lemma AppendConserves(s: State, message: seq<byte>)
    requires Supplied(s) && Conserved(s)
    ensures Conserved(AppendTo(s, message))
  {
    var content := s.current.value;
    assert message[..|message|] == message;
    if LARGE_BUFFER - |content| > |message| {
      Concatenation(FlatAll(s.batches), Flat(s.buffers), content, message);
    } else {
      hide Flat, FlatAll;
      assert AppendTo(s, message).current.value == Kept(message);
      Concatenation(FlatAll(s.batches), Flat(s.buffers), content, Kept(message));
    }
  }

  lemma AppendIsFaithful(s: State, message: seq<byte>)
    requires Faithful(s)
    ensures Faithful(AppendTo(s, message))
  {
    hide Rendered, Survivors, NoticeOf, Datas;
  }

  lemma SwapTakesAll(s: State)
    requires Supplied(s) && Enabled(s, Swap)
    ensures var t, batch := SwapBuffers(s), s.buffers + [s.current.value];
      && t.at == Swapped && t.toWrite == batch && t.batches == s.batches + [batch]
      && t.buffers == [] && t.current == Some([])
      && t.output == s.output && t.appended == s.appended
  {
  }

  lemma SwapConserves(s: State)
    requires Supplied(s) && Conserved(s) && Faithful(s) && Enabled(s, Swap)
    ensures Conserved(SwapBuffers(s)) && Faithful(SwapBuffers(s))
  {
    SwapTakesAll(s);
    hide Supplied, SwapBuffers;
    var batch := s.buffers + [s.current.value];
    assert Flat([]) == [];
    assert (s.batches + [batch])[..|s.batches|] == s.batches;
    assert FlatAll(s.batches + [batch]) == FlatAll(s.batches) + Flat(batch);
    hide Flat, FlatAll, Rendered;
    assert FlatAll(s.batches) + (Flat(s.buffers) + s.current.value) + [] + []
      == FlatAll(s.batches) + Flat(s.buffers) + s.current.value;
  }

  lemma LimitIsFaithful(s: State)
    requires Conserved(s) && Faithful(s) && s.at.Swapped?
    ensures Conserved(LimitBatch(s)) && Faithful(LimitBatch(s))
  {
    assert Datas(LimitBatch(s).toWrite[..0]) == [];
    hide Flat, FlatAll, Rendered, Datas;
  }

  lemma WriteIsFaithful(s: State)
    requires Conserved(s) && Faithful(s) && s.at.Writing? && s.at.next < |s.toWrite|
    ensures Conserved(WriteOne(s)) && Faithful(WriteOne(s))
  {
    var k := s.at.next;
    assert Datas(s.toWrite[..k + 1]) == Datas(s.toWrite[..k]) + [Data(s.toWrite[k])];
    hide Flat, FlatAll, Rendered, Survivors, NoticeOf, Datas;
  }

  lemma RefillKeeps(s: State)
    ensures var t := RefillBuffers(s);
      && t.at == Top && t.output == s.output && t.batches == s.batches
      && t.buffers == s.buffers && t.current == s.current && t.appended == s.appended
  {
  }

  lemma RefillIsFaithful(s: State)
    requires Conserved(s) && Faithful(s) && Enabled(s, Refill)
    ensures Conserved(RefillBuffers(s)) && Faithful(RefillBuffers(s))
  {
    RefillKeeps(s);
    assert s.toWrite[..s.at.next] == s.toWrite;
    hide Flat, FlatAll, RefillBuffers;
  }

  lemma NextConserves(s: State, step: Step)
    requires Supplied(s) && Conserved(s) && Faithful(s)
    ensures Conserved(Next(s, step)) && Faithful(Next(s, step))
  {
    hide Supplied, Flat, FlatAll, Rendered, AppendTo, SwapBuffers, LimitBatch, WriteOne, RefillBuffers;
    if Enabled(s, step) {
      match step
      case Append(message) =>
        AppendConserves(s, message);
        AppendIsFaithful(s, message);
      case Swap => SwapConserves(s);
      case Limit => LimitIsFaithful(s);
      case Write => WriteIsFaithful(s);
      case Refill => RefillIsFaithful(s);
      case _ =>
    }
  }

  lemma {:induction false} EveryRunConserves(s: State, steps: seq<Step>)
    requires Supplied(s) && Conserved(s) && Faithful(s)
    ensures Supplied(From(s, steps)) && Conserved(From(s, steps)) && Faithful(From(s, steps))
    decreases |steps|
  {
    if steps != [] {
      NextIsSupplied(s, steps[0]);
      NextConserves(s, steps[0]);
      EveryRunConserves(Next(s, steps[0]), steps[1..]);
    }
  }

  /** The bytes in the file, and the sum of the drops it reports. */
  function Written(output: seq<Output>): seq<byte> {
    if output == [] then []
    else
      var last := output[|output| - 1];
      Written(output[..|output| - 1]) + if last.Data? then last.buffer else []
  }

  function Reported(output: seq<Output>): int {
    if output == [] then 0
    else
      var last := output[|output| - 1];
      Reported(output[..|output| - 1]) + if last.Notice? then last.dropped else 0
  }

  lemma {:induction false} OutputOfConcatenation(a: seq<Output>, b: seq<Output>)
    ensures Written(a + b) == Written(a) + Written(b)
    ensures Reported(a + b) == Reported(a) + Reported(b)
    decreases |b|
  {
    if b == [] {
      assert a + b == a;
    } else {
      var before, last := b[..|b| - 1], b[|b| - 1];
      assert (a + b)[..|a + b| - 1] == a + before;
      OutputOfConcatenation(a, before);
      var part := if last.Data? then last.buffer else [];
      assert Written(a) + (Written(before) + part) == Written(a) + Written(before) + part;
    }
  }

  lemma {:induction false} OutputOfDatas(buffers: seq<Buffer>)
    ensures Written(Datas(buffers)) == Flat(buffers)
    ensures Reported(Datas(buffers)) == 0
    decreases |buffers|
  {
    if buffers != [] {
      assert Datas(buffers)[..|buffers| - 1] == Datas(buffers[..|buffers| - 1]);
      OutputOfDatas(buffers[..|buffers| - 1]);
    }
  }

  /** The bytes of the batches less what overload drops, and how many buffers it drops. */
  function FlatSurvivors(batches: seq<seq<Buffer>>): seq<byte> {
    if batches == [] then []
    else FlatSurvivors(batches[..|batches| - 1]) + Flat(Survivors(batches[|batches| - 1]))
  }

  function Dropped(batches: seq<seq<Buffer>>): int {
    if batches == [] then 0
    else
      var batch := batches[|batches| - 1];
      Dropped(batches[..|batches| - 1]) + |batch| - |Survivors(batch)|
  }

  /** Exactly the buffers after the first two of an oversized batch are missing from the
      file, and the notices count them. */
  lemma {:induction false} OnlyReportedBuffersAreLost(batches: seq<seq<Buffer>>)
    ensures Written(Rendered(batches)) == FlatSurvivors(batches)
    ensures Reported(Rendered(batches)) == Dropped(batches)
  {
    if batches != [] {
      var before, batch := batches[..|batches| - 1], batches[|batches| - 1];
      OnlyReportedBuffersAreLost(before);
      OutputOfConcatenation(Rendered(before) + NoticeOf(batch), Datas(Survivors(batch)));
      OutputOfConcatenation(Rendered(before), NoticeOf(batch));
      OutputOfDatas(Survivors(batch));
      OutputOfNotice(batch);
      hide Written, Reported, NoticeOf, Survivors, Datas, Flat;
      assert Written(Rendered(before)) + [] == Written(Rendered(before));
    }
  }

  lemma OutputOfNotice(batch: seq<Buffer>)
    ensures Written(NoticeOf(batch)) == []
    ensures Reported(NoticeOf(batch)) == |batch| - |Survivors(batch)|
  {
    assert NoticeOf(batch)[..0] == [];
    assert Written([]) == [] && Reported([]) == 0;
  }

  predicate NoOverload(batches: seq<seq<Buffer>>) {
    forall batch :: batch in batches ==> |batch| <= MOST_BUFFERS
  }

  lemma {:induction false} AllSurvive(batches: seq<seq<Buffer>>)
    requires NoOverload(batches)
    ensures FlatSurvivors(batches) == FlatAll(batches)
    ensures Dropped(batches) == 0
  {
    if batches != [] {
      AllSurvive(batches[..|batches| - 1]);
    }
  }

  /** What the writer has taken and not yet written. */
  function Unwritten(s: State): seq<byte>
    requires s.at.Writing? ==> s.at.next <= |s.toWrite|
  {
    match s.at
    case Swapped => Flat(s.toWrite)
    case Writing(k) => Flat(s.toWrite[k..])
    case _ => []
  }

  lemma {:induction false} FlatOfConcatenation(a: seq<Buffer>, b: seq<Buffer>)
    ensures Flat(a + b) == Flat(a) + Flat(b)
    decreases |b|
  {
    if b == [] {
      assert a + b == a;
    } else {
      assert (a + b)[..|a + b| - 1] == a + b[..|b| - 1];
      FlatOfConcatenation(a, b[..|b| - 1]);
    }
  }

  /** A batch of which k buffers are written. */
  lemma PartlyWritten(before: seq<Output>, batch: seq<Buffer>, k: nat)
    requires k <= |batch| <= MOST_BUFFERS
    ensures var output := before + NoticeOf(batch) + Datas(batch[..k]);
      && Written(output) + Flat(batch[k..]) == Written(before) + Flat(batch)
      && Reported(output) == Reported(before)
  {
    assert NoticeOf(batch) == [] && before + [] == before;
    OutputOfConcatenation(before, Datas(batch[..k]));
    OutputOfDatas(batch[..k]);
    FlatOfConcatenation(batch[..k], batch[k..]);
    assert batch[..k] + batch[k..] == batch;
    hide Flat, Written, Reported, Datas, NoticeOf;
    assert Written(before) + Flat(batch[..k]) + Flat(batch[k..])
      == Written(before) + (Flat(batch[..k]) + Flat(batch[k..]));
  }

  /** The file and what the writer still has to write are what survives of the batches. */
  lemma WrittenAndUnwritten(s: State)
    requires Faithful(s) && NoOverload(s.batches)
    ensures Written(s.output) + Unwritten(s) == FlatAll(s.batches)
    ensures Reported(s.output) == 0
  {
    AllSurvive(s.batches);
    OnlyReportedBuffersAreLost(s.batches);
    if s.at.Swapped? || s.at.Writing? {
      var before, batch := s.batches[..|s.batches| - 1], s.batches[|s.batches| - 1];
      assert NoOverload(before) && |batch| <= MOST_BUFFERS;
      AllSurvive(before);
      OnlyReportedBuffersAreLost(before);
      hide Rendered, FlatSurvivors, NoOverload, Dropped;
      if s.at.Writing? {
        PartlyWritten(Rendered(before), batch, s.at.next);
      }
    }
  }

  /** As long as no batch is oversized: the file, then what the writer holds, then the
      queued buffers, then the current one are all bytes accepted, in order. */
  lemma NothingIsLostWithoutOverload(steps: seq<Step>)
    requires NoOverload(From(START, steps).batches)
    ensures var s := From(START, steps);
      && Supplied(s)
      && Written(s.output) + Unwritten(s) + Flat(s.buffers) + s.current.value == s.appended
      && Reported(s.output) == 0
  {
    EveryRunConserves(START, steps);
    WrittenAndUnwritten(From(START, steps));
  }

  /** With overload, whenever the writer is between batches, or done. */
  lemma OverloadIsReported(steps: seq<Step>)
    requires !From(START, steps).at.Swapped? && !From(START, steps).at.Writing?
    ensures var s := From(START, steps);
      && Supplied(s)
      && FlatAll(s.batches) + Flat(s.buffers) + s.current.value == s.appended
      && Written(s.output) == FlatSurvivors(s.batches)
      && Reported(s.output) == Dropped(s.batches)
  {
    EveryRunConserves(START, steps);
    OnlyReportedBuffersAreLost(From(START, steps).batches);
  }

  // ---------------------------------------------------------------------
  // Messages, and what stopping leaves behind
  // ---------------------------------------------------------------------

  /** A message is kept whole exactly when it is no longer than a buffer, and what is kept
      never straddles two buffers. */
  lemma MessageStaysTogether(s: State, message: seq<byte>)
    requires Supplied(s)
    ensures (exists before: seq<byte> :: AppendTo(s, message).current == Some(before + message))
            <==> |message| <= 4_096_000
    ensures var t := AppendTo(s, message);
      && t.current.Some? && t.appended == s.appended + Kept(message)
      && exists before: seq<byte> :: t.current.value == before + Kept(message)
  {
    var content := s.current.value;
    if LARGE_BUFFER - |content| <= |message| {
      assert AppendTo(s, message).current.value == [] + Kept(message);
    }
  }

  /** No two buffers that follow each other are both empty. */
  ghost predicate NoEmptyPair(buffers: seq<Buffer>) {
    forall i, j :: 0 <= i < j < |buffers| && j == i + 1 ==> buffers[i] != [] || buffers[j] != []
  }

  /** An empty buffer is given away only for a message that fills the next one. */
  ghost predicate Filled(s: State) {
    && s.current.Some? && NoEmptyPair(s.buffers + [s.current.value])
    && forall batch :: batch in s.batches ==> NoEmptyPair(batch)
  }

  lemma AppendIsFilled(s: State, message: seq<byte>)
    requires Supplied(s) && Filled(s)
    ensures Filled(AppendTo(s, message))
  {
    var t, content := AppendTo(s, message), s.current.value;
    if LARGE_BUFFER - |content| > |message| {
      assert t.buffers == s.buffers && |content| <= |t.current.value|;
      LastReplaced(s.buffers, content, t.current.value);
    } else {
      assert t.buffers == s.buffers + [content] && (content == [] ==> t.current.value != []);
      OneMoreFilled(s.buffers, content, t.current.value);
    }
  }

  lemma LastReplaced(buffers: seq<Buffer>, last: Buffer, longer: Buffer)
    requires NoEmptyPair(buffers + [last]) && |last| <= |longer|
    ensures NoEmptyPair(buffers + [longer])
  {
    var before, after := buffers + [last], buffers + [longer];
    forall i, j | 0 <= i < j < |after| && j == i + 1
      ensures after[i] != [] || after[j] != []
    {
      assert before[i] != [] || before[j] != [];
    }
  }

  lemma OneMoreFilled(buffers: seq<Buffer>, last: Buffer, next: Buffer)
    requires NoEmptyPair(buffers + [last]) && (last == [] ==> next != [])
    ensures NoEmptyPair(buffers + [last] + [next])
  {
    var before, after := buffers + [last], buffers + [last] + [next];
    forall i, j | 0 <= i < j < |after| && j == i + 1
      ensures after[i] != [] || after[j] != []
    {
      assert j < |before| ==> before[i] != [] || before[j] != [];
    }
  }

  lemma NextIsFilled(s: State, step: Step)
    requires Supplied(s) && Filled(s)
    ensures Filled(Next(s, step))
  {
    hide AppendTo;
    if Enabled(s, step) {
      match step
      case Append(message) => AppendIsFilled(s, message);
      case Swap => SwapTakesAll(s);
      case Refill => RefillKeeps(s);
      case _ =>
    }
  }

  lemma {:induction false} EveryRunIsFilled(s: State, steps: seq<Step>)
    requires Supplied(s) && Filled(s)
    ensures Filled(From(s, steps))
    decreases |steps|
  {
    if steps != [] {
      NextIsSupplied(s, steps[0]);
      NextIsFilled(s, steps[0]);
      EveryRunIsFilled(Next(s, steps[0]), steps[1..]);
    }
  }

  lemma {:induction false} FlatIsNotEmpty(buffers: seq<Buffer>, i: nat)
    requires i < |buffers| && buffers[i] != []
    ensures Flat(buffers) != []
    decreases |buffers|
  {
    if i < |buffers| - 1 {
      FlatIsNotEmpty(buffers[..|buffers| - 1], i);
    }
  }

  /** Dropping buffers always drops bytes. */
  lemma OversizedBatchLosesBytes(batch: seq<Buffer>)
    requires NoEmptyPair(batch)
    ensures |Flat(Survivors(batch))| <= |Flat(batch)|
    ensures |Flat(Survivors(batch))| == |Flat(batch)| <==> |batch| <= MOST_BUFFERS
  {
    if |batch| > MOST_BUFFERS {
      assert batch == batch[..2] + batch[2..];
      FlatOfConcatenation(batch[..2], batch[2..]);
      assert batch[2] != [] || batch[3] != [];
      assert batch[2..][0] == batch[2] && batch[2..][1] == batch[3];
      FlatIsNotEmpty(batch[2..], if batch[2] != [] then 0 else 1);
    }
  }

  lemma {:induction false} AllSurviveExactlyWhen(batches: seq<seq<Buffer>>)
    requires forall batch :: batch in batches ==> NoEmptyPair(batch)
    ensures |FlatSurvivors(batches)| <= |FlatAll(batches)|
    ensures |FlatSurvivors(batches)| == |FlatAll(batches)| <==> NoOverload(batches)
  {
    if batches != [] {
      var before, batch := batches[..|batches| - 1], batches[|batches| - 1];
      AllSurviveExactlyWhen(before);
      OversizedBatchLosesBytes(batch);
      assert forall b :: b in batches <==> b in before || b == batch by {
        assert batches == before + [batch];
      }
    }
  }

  /** A swap that takes effect, and an append of at least one byte. */
  predicate Swaps(s: State, step: Step) {
    step.Swap? && Enabled(s, step)
  }

  predicate AppendsBytes(s: State, step: Step) {
    step.Append? && step.message != []
  }

  lemma NextAppends(s: State, step: Step)
    requires Supplied(s)
    ensures s.appended <= Next(s, step).appended
    ensures Next(s, step).appended == s.appended <==> !AppendsBytes(s, step)
    ensures !Swaps(s, step) ==> Next(s, step).batches == s.batches
  {
    hide SwapBuffers, RefillBuffers;
    if step.Refill? && Enabled(s, step) {
      RefillKeeps(s);
    }
    if step.Swap? && Enabled(s, step) {
      SwapTakesAll(s);
    }
  }

  lemma {:induction false} AppendedGrowsExactlyWhen(s: State, steps: seq<Step>)
    requires Supplied(s)
    ensures s.appended <= From(s, steps).appended
    ensures From(s, steps).appended == s.appended <==> Never(Next, AppendsBytes, s, steps)
    ensures Never(Next, Swaps, s, steps) ==> From(s, steps).batches == s.batches
    decreases |steps|
  {
    if steps != [] {
      NextIsSupplied(s, steps[0]);
      NextAppends(s, steps[0]);
      hide Next, Supplied;
      AppendedGrowsExactlyWhen(Next(s, steps[0]), steps[1..]);
    }
  }

  /** What the file and the notices have when the writer is done. */
  lemma FileWhenDone(s: State, late: seq<byte>)
    requires Faithful(s) && s.at.Done? && Filled(s) && s.appended == FlatAll(s.batches) + late
    ensures Written(s.output) == FlatSurvivors(s.batches) && Reported(s.output) == Dropped(s.batches)
    ensures Written(s.output) == s.appended <==> NoOverload(s.batches) && late == []
  {
    OnlyReportedBuffersAreLost(s.batches);
    AllSurviveExactlyWhen(s.batches);
    if NoOverload(s.batches) {
      AllSurvive(s.batches);
    }
  }

  /** A writer that is done has written what was accepted before its last swap, less what
      it reported as dropped; so the file has everything exactly when no batch was
      oversized and no byte was appended after that swap. */
  lemma DrainedExactlyWhen(a: seq<Step>, b: seq<Step>)
    requires var s := From(START, a);
      Swaps(s, Swap) && Never(Next, Swaps, Next(s, Swap), b) && From(Next(s, Swap), b).at.Done?
    ensures var s, t := From(START, a), From(START, a + [Swap] + b);
      && t.at.Done? && t.batches == Next(s, Swap).batches
      && s.appended == FlatAll(t.batches) && s.appended <= t.appended
      && Written(t.output) == FlatSurvivors(t.batches) && Reported(t.output) == Dropped(t.batches)
      && (Written(t.output) == t.appended
          <==> NoOverload(t.batches) && Never(Next, AppendsBytes, Next(s, Swap), b))
  {
    hide Next, Never, FlatAll, FlatSurvivors, Written, Reported, Dropped, NoOverload;
    SplitRun(Next, START, a, Swap, b);
    SwappedState(a);
    DoneAfterSwap(Next(From(START, a), Swap), b);
  }

  lemma DoneAfterSwap(u: State, b: seq<Step>)
    requires Supplied(u) && Conserved(u) && Faithful(u) && Filled(u) && u.appended == FlatAll(u.batches)
    requires Never(Next, Swaps, u, b) && From(u, b).at.Done?
    ensures var t := From(u, b);
      && t.batches == u.batches && u.appended <= t.appended
      && Written(t.output) == FlatSurvivors(t.batches) && Reported(t.output) == Dropped(t.batches)
      && (Written(t.output) == t.appended <==> NoOverload(t.batches) && Never(Next, AppendsBytes, u, b))
  {
    EveryRunConserves(u, b);
    EveryRunIsFilled(u, b);
    AppendedGrowsExactlyWhen(u, b);
    var t := From(u, b);
    hide *;
    var late := t.appended[|u.appended|..];
    assert t.appended == u.appended + late;
    assert late == [] <==> t.appended == u.appended;
    FileWhenDone(t, late);
  }

  /** A swap takes all that was accepted. */
  lemma SwappedState(a: seq<Step>)
    requires Swaps(From(START, a), Swap)
    ensures var s := From(START, a);
      var u := Next(s, Swap);
      && Supplied(u) && Conserved(u) && Faithful(u) && Filled(u)
      && u.appended == FlatAll(u.batches) == s.appended
  {
    var s := From(START, a);
    var u := Next(s, Swap);
    EveryRunConserves(START, a);
    EveryRunIsFilled(START, a);
    SwapTakesAll(s);
    NextIsSupplied(s, Swap);
    NextConserves(s, Swap);
    NextIsFilled(s, Swap);
    hide Next, From, Supplied, Faithful, Filled;
    assert FlatAll(u.batches) + Flat([]) + [] == FlatAll(u.batches);
  }

  /** A writer that is done without a swap has written nothing. */
  lemma DoneBeforeAnySwap(steps: seq<Step>)
    requires Never(Next, Swaps, START, steps) && From(START, steps).at.Done?
    ensures var t := From(START, steps);
      && t.output == [] && t.batches == []
      && (Written(t.output) == t.appended <==> Never(Next, AppendsBytes, START, steps))
  {
    EveryRunConserves(START, steps);
    AppendedGrowsExactlyWhen(START, steps);
  }

  /** So whenever the writer is done, the file has everything exactly when no batch was
      oversized and no byte was appended after the last swap. */
  lemma DoneWriterWroteAllExactlyWhen(steps: seq<Step>)
    requires From(START, steps).at.Done?
    ensures var t := From(START, steps);
      Written(t.output) == t.appended
      <==> NoOverload(t.batches) && QuietSince(Next, Swaps, AppendsBytes, START, steps)
  {
    LastOfKind(Next, Swaps, START, steps);
    if Never(Next, Swaps, START, steps) {
      DoneBeforeAnySwap(steps);
    }
    forall a: seq<Step>, x: Step, b: seq<Step> |
      steps == a + [x] + b && Swaps(From(START, a), x) && Never(Next, Swaps, Next(From(START, a), x), b)
      ensures var t := From(START, steps);
        Written(t.output) == t.appended
        <==> NoOverload(t.batches) && Never(Next, AppendsBytes, Next(From(START, a), x), b)
    {
      assert x == Swap;
      SplitRun(Next, START, a, x, b);
      DrainedExactlyWhen(a, b);
    }
  }

  /** The writer does not drain what came after its last swap. */
  lemma StopLosesMessages()
    ensures var s := From(START, [Append([65]), Stop, Enter]);
      s.at == Done && s.output == [] && s.appended == [65]
  {
    var first := Next(START, Append([65]));
    assert [Append([65]), Stop, Enter][1..] == [Stop, Enter];
    assert [Stop, Enter][1..] == [Enter];
    assert [Enter][1..] == [];
    assert first.appended == [65];
  }

  // ---------------------------------------------------------------------
  // The logger
  // ---------------------------------------------------------------------

  /** A step of any thread but the writer's. */
  predicate Foreign(step: Step) {
    step.Append? || step.Stop?
  }

  predicate AllForeign(steps: seq<Step>) {
    forall step :: step in steps ==> Foreign(step)
  }

  /** What holds in every reachable state. */
  ghost predicate Sound(s: State) {
    Supplied(s) && Conserved(s) && Faithful(s)
  }

  lemma SoundStays(s: State, step: Step)
    requires Sound(s)
    ensures Sound(Next(s, step))
  {
    NextIsSupplied(s, step);
    NextConserves(s, step);
  }

  lemma SoundStaysOverRun(s: State, steps: seq<Step>)
    requires Sound(s)
    ensures Sound(From(s, steps)) && s.appended <= From(s, steps).appended
  {
    EveryRunConserves(s, steps);
    AppendedGrowsExactlyWhen(s, steps);
  }

  /** A run of the machine in which the other threads did just that. */
  ghost predicate Makes(s: State, t: State, made: seq<Step>) {
    LeadsWith(Next, Foreign, s, t, made)
  }

  lemma MakesNothing(s: State)
    ensures Makes(s, s, [])
  {
    LeadsWithNothing(Next, Foreign, s);
  }

  lemma MakesStep(s: State, t: State, made: seq<Step>, step: Step)
    requires Makes(s, t, made) && !Foreign(step)
    ensures Makes(s, Next(t, step), made)
  {
    LeadsWithStep(Next, Foreign, s, t, made, step);
  }

  lemma {:induction false} AllAreForeign(steps: seq<Step>)
    requires AllForeign(steps)
    ensures OfKind(Foreign, steps) == steps
  {
    if steps != [] {
      assert steps[0] in steps;
      AllAreForeign(steps[1..]);
    }
  }

  lemma MakesRun(s: State, t: State, made: seq<Step>, steps: seq<Step>)
    requires Makes(s, t, made) && AllForeign(steps)
    ensures Makes(s, From(t, steps), made + steps)
  {
    LeadsWithRun(Next, Foreign, s, t, made, steps);
    AllAreForeign(steps);
  }

  lemma MakesScript(s: State, t: State, made: seq<Step>, scripts: seq<seq<Step>>, n: nat)
    requires Makes(s, t, made + Joined(scripts, n)) && n < |scripts| && AllForeign(scripts[n])
    ensures Makes(s, From(t, scripts[n]), made + Joined(scripts, n + 1))
  {
    var before := Joined(scripts, n);
    assert Joined(scripts, n + 1) == before + scripts[n];
    hide *;
    MakesRun(s, t, made + before, scripts[n]);
    assert made + before + scripts[n] == made + (before + scripts[n]);
  }

  /** What other threads do in the first n rounds. */
  function InRounds(schedule: seq<seq<seq<Step>>>, n: nat): seq<Step>
    requires n <= |schedule|
  {
    if n == 0 then [] else InRounds(schedule, n - 1) + Joined(schedule[n - 1], |schedule[n - 1]|)
  }

  /** Once everything is in a batch, all that was accepted is. */
  lemma SwapTakesAppended(s: State)
    requires Sound(s) && Enabled(s, Swap)
    ensures FlatAll(SwapBuffers(s).batches) == s.appended
  {
    SwapTakesAll(s);
    SwapConserves(s);
    var t := SwapBuffers(s);
    hide SwapBuffers, Supplied, Faithful, FlatAll;
    assert FlatAll(t.batches) + Flat([]) + [] == FlatAll(t.batches);
  }

  class Logger {
    var running: bool
    var current: Option<Buffer>
    var next: Option<Buffer>
    var buffers: seq<Buffer>
    // the writer's thread
    var at: Position
    var buffer1: Option<Buffer>
    var buffer2: Option<Buffer>
    var toWrite: seq<Buffer>
    var output: seq<Output>
    ghost var appended: seq<byte>
    ghost var batches: seq<seq<Buffer>>

    ghost function Contents(): State
      reads this
    {
      State(running, current, next, buffers, at, buffer1, buffer2, toWrite, output, false, appended, batches)
    }

    constructor ()
      ensures Contents() == START && Sound(Contents())
    {
      running, current, next, buffers := true, Some([]), Some([]), [];
      at, buffer1, buffer2, toWrite, output := Top, Some([]), Some([]), [], [];
      appended, batches := [], [];
    }

    /** Under the lock. */
    method Append(message: seq<byte>)
      requires Supplied(Contents())
      modifies this`current, this`next, this`buffers, this`appended
      ensures Contents() == Next(old(Contents()), Step.Append(message))
      ensures buffers == old(buffers) <==> |message| < LARGE_BUFFER - old(|current.value|)
    {
      var content := current.value;
      if LARGE_BUFFER - |content| > |message| {
        current := Some(Appended(content, LARGE_BUFFER, message));
        appended := appended + message;
      } else {
        buffers := buffers + [content];
        if next.Some? {
          current, next := next, None;
        } else {
          current := Some([]);
        }
        current := Some(Appended(current.value, LARGE_BUFFER, message));
        appended := appended + Kept(message);
      }
    }

    method Stop()
      modifies this`running
      ensures Contents() == Next(old(Contents()), Step.Stop)
    {
      running := false;
    }

    /** What other threads do for a while. */
    method Interfere(script: seq<Step>)
      requires AllForeign(script) && Sound(Contents())
      modifies this`running, this`current, this`next, this`buffers, this`appended
      ensures Contents() == From(old(Contents()), script)
      ensures Sound(Contents()) && old(appended) <= appended
    {
      hide Next, Sound;
      ghost var before := Contents();
      var i := 0;
      assert script[0..] == script;
      while i < |script|
        invariant 0 <= i <= |script| && Sound(Contents())
        invariant From(Contents(), script[i..]) == From(before, script)
        decreases |script| - i
      {
        assert script[i..][0] == script[i] && script[i..][1..] == script[i + 1..];
        assert script[i] in script;
        SoundStays(Contents(), script[i]);
        SoundIsSupplied(Contents());
        match script[i] {
          case Append(message) => Append(message);
          case Stop => Stop();
          case _ => // no step of another thread
        }
        i := i + 1;
      }
      assert script[i..] == [];
      SoundStaysOverRun(before, script);
    }

    /** The next script, if there is one left. */
    method InterfereNext(ghost before: State, ghost made: seq<Step>, scripts: seq<seq<Step>>, used: nat)
      returns (after: nat)
      requires Sound(Contents()) && Makes(before, Contents(), made + Joined(scripts, used)) && used <= |scripts|
      requires forall script :: script in scripts ==> AllForeign(script)
      modifies this`running, this`current, this`next, this`buffers, this`appended
      ensures Sound(Contents()) && old(appended) <= appended
      ensures after == (if used < |scripts| then used + 1 else used)
      ensures Makes(before, Contents(), made + Joined(scripts, after))
    {
      hide Makes, Sound;
      after := used;
      if used < |scripts| {
        MakesScript(before, Contents(), made, scripts, used);
        Interfere(scripts[used]);
        after := used + 1;
      }
    }

    /** Up to and including the critical section of the writer: it may have to wait, and
        leaves the producers an empty current buffer and a spare. */
    method TakeBatch(ghost before: State, ghost made: seq<Step>, scripts: seq<seq<Step>>) returns (used: nat)
      requires Sound(Contents()) && at.Locked? && Makes(before, Contents(), made)
      requires forall script :: script in scripts ==> AllForeign(script)
      modifies this
      ensures Sound(Contents()) && at.Swapped? && used <= |scripts|
      ensures Makes(before, Contents(), made + Joined(scripts, used))
      ensures current == Some([]) && next == Some([]) && buffers == []
      ensures |batches| == old(|batches|) + 1 && batches[..|batches| - 1] == old(batches)
      ensures old(appended) <= appended == FlatAll(batches)
    {
      hide Makes, Sound, Next, FlatAll;
      assert made + [] == made;
      used := InterfereNext(before, made, scripts, 0);
      if buffers == [] {
        SoundStays(Contents(), Wait);
        MakesStep(before, Contents(), made + Joined(scripts, used), Wait);
        BeginWait();
        used := InterfereNext(before, made, scripts, used);
      }
      SoundStays(Contents(), Step.Swap);
      SoundIsSupplied(Contents());
      SwapTakesAll(Contents());
      SwapTakesAppended(Contents());
      SwapIsNext(Contents());
      MakesStep(before, Contents(), made + Joined(scripts, used), Step.Swap);
      hide SwapBuffers;
      Swap();
    }

    method BeginWait()
      requires at.Locked? && buffers == []
      modifies this`at
      ensures Contents() == Next(old(Contents()), Step.Wait)
      ensures at == Waiting
    {
      at := Waiting;
    }

    method Swap()
      requires current.Some?
      modifies this`at, this`buffers, this`batches, this`toWrite, this`current, this`buffer1, this`next, this`buffer2
      ensures Contents() == SwapBuffers(old(Contents()))
    {
      buffers := buffers + [current.value];
      batches := batches + [buffers];
      toWrite, buffers := buffers, [];
      current, buffer1 := buffer1, None;
      if next.None? {
        next, buffer2 := buffer2, None;
      }
      at := Swapped;
    }

    method LimitBatch(ghost before: State, ghost made: seq<Step>)
      requires Sound(Contents()) && at.Swapped? && Makes(before, Contents(), made)
      modifies this`at, this`output, this`toWrite
      ensures Sound(Contents()) && Makes(before, Contents(), made)
      ensures at == Writing(0) && 0 < |toWrite| <= 25
      ensures old(|toWrite|) <= 25 ==> toWrite == old(toWrite) && output == old(output)
      ensures old(|toWrite|) > 25 ==>
        toWrite == old(toWrite)[..2] && output == old(output) + [Notice(old(|toWrite|) - 2)]
    {
      hide Makes, Conserved, Faithful;
      SoundStays(Contents(), Limit);
      MakesStep(before, Contents(), made, Limit);
      // the assertion that the batch is not empty
      assert toWrite != [];
      at := Writing(0);
      if |toWrite| > MOST_BUFFERS {
        output := output + [Notice(|toWrite| - 2)];
        toWrite := toWrite[..2];
      }
    }

    method WriteBatch(ghost before: State, ghost made: seq<Step>, scripts: seq<seq<Step>>, used: nat)
      requires Sound(Contents()) && at == Writing(0) && used <= |scripts|
      requires Makes(before, Contents(), made + Joined(scripts, used))
      requires forall script :: script in scripts ==> AllForeign(script)
      modifies this`at, this`output, this`running, this`current, this`next, this`buffers, this`appended
      ensures Sound(Contents()) && Makes(before, Contents(), made + Joined(scripts, |scripts|))
      ensures at == Writing(|toWrite|) && old(appended) <= appended
    {
      hide Makes, Sound;
      var i, done: nat := 0, used;
      while i < |toWrite|
        invariant 0 <= i <= |toWrite| && at == Writing(i) && done <= |scripts| && old(appended) <= appended
        invariant Sound(Contents()) && Makes(before, Contents(), made + Joined(scripts, done))
        decreases |toWrite| - i
      {
        SoundStays(Contents(), Write);
        MakesStep(before, Contents(), made + Joined(scripts, done), Write);
        output := output + [Data(toWrite[i])];
        at := Writing(i + 1);
        done := InterfereNext(before, made, scripts, done);
        i := i + 1;
      }
      while done < |scripts|
        invariant done <= |scripts| && at == Writing(|toWrite|) && old(appended) <= appended
        invariant Sound(Contents()) && Makes(before, Contents(), made + Joined(scripts, done))
      {
        done := InterfereNext(before, made, scripts, done);
      }
    }

    /** Takes the spares back from the batch; it always has enough of them. */
    method RefillSpares(ghost before: State, ghost made: seq<Step>)
      requires Sound(Contents()) && at == Writing(|toWrite|) && Makes(before, Contents(), made)
      modifies this`at, this`toWrite, this`buffer1, this`buffer2
      ensures Sound(Contents()) && at.Top? && Makes(before, Contents(), made)
    {
      hide Makes, Conserved, Faithful;
      SoundStays(Contents(), Step.Refill);
      MakesStep(before, Contents(), made, Step.Refill);
      hide RefillBuffers;
      Refill();
    }

    method Refill()
      requires toWrite != [] && (buffer2.None? ==> |toWrite| >= 2)
      modifies this`at, this`toWrite, this`buffer1, this`buffer2
      ensures Contents() == RefillBuffers(old(Contents()))
    {
      if |toWrite| > 2 {
        toWrite := toWrite[..2];
      }
      if buffer1.None? {
        toWrite, buffer1 := toWrite[..|toWrite| - 1], Some([]);
      }
      if buffer2.None? {
        toWrite, buffer2 := toWrite[..|toWrite| - 1], Some([]);
      }
      toWrite := [];
      at := Top;
    }

    /** ThreadMain for as many rounds as the schedule has, or until it is told to stop. Each
        round takes and writes one batch; after one or more of them what was accepted before
        the first is written, less what the notices report. */
    method ThreadMain(schedule: seq<seq<seq<Step>>>) returns (rounds: nat)
      requires Sound(Contents()) && at.Top?
      requires forall scripts :: scripts in schedule ==> forall script :: script in scripts ==> AllForeign(script)
      modifies this
      ensures rounds <= |schedule| && (running ==> rounds == |schedule|)
      ensures old(running) && schedule != [] ==> rounds > 0
      ensures Sound(Contents()) && Makes(old(Contents()), Contents(), InRounds(schedule, rounds))
      ensures at == if running then Top else Done
      ensures |batches| == old(|batches|) + rounds && batches[..old(|batches|)] == old(batches)
      ensures output == Rendered(batches) && old(appended) <= appended
      ensures rounds > 0 ==> old(appended) <= FlatAll(batches)
    {
      ghost var before := Contents();
      MakesNothing(before);
      hide Makes, Sound, Next, Rendered, FlatAll;
      rounds := 0;
      while rounds < |schedule| && running
        invariant 0 <= rounds <= |schedule| && at.Top?
        invariant rounds == 0 ==> running == old(running)
        invariant Sound(Contents()) && Makes(before, Contents(), InRounds(schedule, rounds))
        invariant |batches| == |before.batches| + rounds && batches[..|before.batches|] == before.batches
        invariant before.appended <= appended && (rounds > 0 ==> before.appended <= FlatAll(batches))
        decreases |schedule| - rounds
      {
        assert schedule[rounds] in schedule;
        Round(before, InRounds(schedule, rounds), schedule[rounds]);
        rounds := rounds + 1;
      }
      SoundIsFaithful(Contents());
      if !running {
        SoundStays(Contents(), Enter);
        MakesStep(before, Contents(), InRounds(schedule, rounds), Enter);
        Leave();
      }
    }

    method Leave()
      requires at.Top? && !running
      modifies this`at
      ensures Contents() == Next(old(Contents()), Enter) && at == Done
    {
      at := Done;
    }

    /** The head of the loop, with its assertions. */
    method BeginRound()
      requires Supplied(Contents()) && at.Top? && running
      modifies this`at
      ensures Contents() == Next(old(Contents()), Enter) && at == Locked
    {
      assert buffer1 == Some([]) && buffer2 == Some([]) && toWrite == [];
      at := Locked;
    }

    method Round(ghost before: State, ghost made: seq<Step>, scripts: seq<seq<Step>>)
      requires Sound(Contents()) && at.Top? && running && Makes(before, Contents(), made)
      requires forall script :: script in scripts ==> AllForeign(script)
      modifies this
      ensures Sound(Contents()) && at.Top? && Makes(before, Contents(), made + Joined(scripts, |scripts|))
      ensures |batches| == old(|batches|) + 1 && batches[..|batches| - 1] == old(batches)
      ensures old(appended) <= appended && old(appended) <= FlatAll(batches)
    {
      hide Makes, Sound, Next, FlatAll;
      SoundStays(Contents(), Enter);
      SoundIsSupplied(Contents());
      MakesStep(before, Contents(), made, Enter);
      BeginRound();
      var used := TakeBatch(before, made, scripts);
      LimitBatch(before, made + Joined(scripts, used));
      WriteBatch(before, made, scripts, used);
      RefillSpares(before, made + Joined(scripts, |scripts|));
    }
  }

  lemma SwapIsNext(s: State)
    requires Enabled(s, Swap)
    ensures Next(s, Swap) == SwapBuffers(s)
  {
    hide SwapBuffers;
  }

  lemma SoundIsSupplied(s: State)
    requires Sound(s)
    ensures Supplied(s)
  {
  }

  /** Between batches, and at the end, the file has what the batches call for. */
  lemma SoundIsFaithful(s: State)
    requires Sound(s) && (s.at.Top? || s.at.Done?)
    ensures s.output == Rendered(s.batches)
  {
  }
}
