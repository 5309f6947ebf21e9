// events/EventLoop.{h,cc}: posting tasks to a loop from its own thread and from others,
// as a machine whose steps are the atomic actions of the threads.
module EventLoops {
  import opened Base
  import opened Runs

  /** The loop's own thread; other threads have other numbers. */
  const LOOP := 0

  /** The channel of the eventfd; other channels have other numbers. */
  const WAKEUP := 0

  const EVENTFD_MAX: int := 0xFFFF_FFFF_FFFF_FFFE

  datatype TraceContext = TraceContext(trace: int, span: int)

  const NO_CONTEXT := TraceContext(0, 0)

  datatype Entry = Entry(context: TraceContext, task: int)

  /** Where the loop's thread is. A batch being run is what was posted from number
      first up to number end. */
  datatype Position =
    | Idle
    | Checking
    | Polling
    | Dispatching(rest: seq<int>)
    | BeforeSwap
    | Draining(first: nat, end: nat)
    | InTask(first: nat, end: nat)
    | Stopped

  datatype State = State(
    pending: seq<Entry>,
    // the eventfd
    counter: nat,
    current: Option<int>,
    quit: bool,
    // of the loop's thread
    context: TraceContext,
    at: Position,
    // what is left of the batch being run
    batch: seq<Entry>,
    // threads that are past the lock of Post, or past setting quit_, and have not
    // written to the eventfd yet
    owing: set<int>,
    // everything pushed, and everything started with the context it started in
    posted: seq<Entry>,
    executed: seq<Entry>,
    // the channels whose handlers were called
    handled: seq<int>)

  const START := State([], 0, None, false, NO_CONTEXT, Idle, [], {}, [], [], [])

  datatype Step =
    // any thread
    | Push(thread: int, entry: Entry)
    | Write(thread: int)
    | Quit(thread: int)
    // a handler or a task changes the context of the loop's thread
    | SetContext(context: TraceContext)
    // the loop
    | Begin
    | Check
    | PollReturns(active: seq<int>)
    | NextChannel
    | ReadEventfd
    | EndDispatch
    | Swap
    | StartTask
    | FinishTask
    | EndBatch

  /** The loop's thread is in code that may call the loop back. */
  predicate InUserCode(s: State) {
    s.at.Idle? || s.at.InTask? || (s.at.Dispatching? && s.current.Some?)
  }

  predicate Enabled(s: State, step: Step) {
    match step
    case Push(thread, entry) =>
      thread !in s.owing && (thread == LOOP ==> InUserCode(s) && entry.context == s.context)
    case Write(thread) => thread in s.owing
    case Quit(thread) => thread !in s.owing && (thread == LOOP ==> InUserCode(s))
    case SetContext(_) => InUserCode(s) && LOOP !in s.owing
    case Begin => s.at.Idle? && LOOP !in s.owing
    case Check => s.at.Checking?
    // the eventfd is reported only if it can be read
    case PollReturns(active) => s.at.Polling? && (WAKEUP in active ==> s.counter > 0)
    case NextChannel => s.at.Dispatching? && s.at.rest != [] && LOOP !in s.owing
    case ReadEventfd => s.at.Dispatching? && s.current == Some(WAKEUP) && LOOP !in s.owing
    case EndDispatch => s.at.Dispatching? && s.at.rest == [] && LOOP !in s.owing
    case Swap => s.at.BeforeSwap?
    case StartTask => s.at.Draining? && s.batch != []
    case FinishTask => s.at.InTask? && LOOP !in s.owing
    case EndBatch => s.at.Draining? && s.batch == []
  }

  /** Whether Post goes on to Wakeup. */
  predicate MustWake(s: State, thread: int) {
    thread != LOOP || s.current.None?
  }

  /** An enabled step's effect; a step that is not enabled does nothing. */
  function Next(s: State, step: Step): State {
    if !Enabled(s, step) then s
    else match step
      case Push(thread, entry) =>
        s.(pending := s.pending + [entry], posted := s.posted + [entry],
           owing := if MustWake(s, thread) then s.owing + {thread} else s.owing)
      case Write(thread) =>
        s.(counter := if s.counter < EVENTFD_MAX then s.counter + 1 else s.counter,
           owing := s.owing - {thread})
      case Quit(thread) =>
        s.(quit := true, owing := if thread != LOOP then s.owing + {thread} else s.owing)
      case SetContext(context) => s.(context := context)
      case Begin => s.(at := Checking)
      case Check => s.(at := if s.quit then Stopped else Polling)
      case PollReturns(active) => s.(at := Dispatching(active))
      case NextChannel =>
        s.(current := Some(s.at.rest[0]), at := Dispatching(s.at.rest[1..]), handled := s.handled + [s.at.rest[0]])
      case ReadEventfd => s.(counter := 0)
      case EndDispatch => s.(current := None, at := BeforeSwap)
      case Swap =>
        s.(batch := s.pending, pending := [], at := Draining(|s.executed|, |s.posted|))
      case StartTask =>
        var t := s.(context := s.batch[0].context);
        t.(batch := s.batch[1..], executed := s.executed + [Entry(t.context, s.batch[0].task)],
           at := InTask(s.at.first, s.at.end))
      case FinishTask => s.(context := NO_CONTEXT, at := Draining(s.at.first, s.at.end))
      case EndBatch => s.(at := Checking)
  }

  /** A run of any length, of any threads, in any interleaving. */
  function From(s: State, steps: seq<Step>): State {
    After(Next, s, steps)
  }

  // ---------------------------------------------------------------------
  // No wakeup is lost
  // ---------------------------------------------------------------------

  /** A task that waits has the eventfd readable, or the loop on its way to the swap, or
      a thread that is about to write. */
  predicate Awaited(s: State) {
    s.pending != [] ==>
      s.counter > 0 || s.at.Dispatching? || s.at.BeforeSwap? || exists thread :: thread in s.owing
  }

  /** Where the loop is in user code it still has a channel, or is not dispatching. */
  predicate Placed(s: State) {
    && (s.current.Some? ==> s.at.Dispatching?)
    && (s.at.Draining? || s.at.InTask? || s.batch == [])
  }

  lemma NextIsAwaited(s: State, step: Step)
    requires Awaited(s) && Placed(s)
    ensures Awaited(Next(s, step)) && Placed(Next(s, step))
  {
    match step
    case Push(thread, _) => assert Enabled(s, step) && MustWake(s, thread) ==> thread in Next(s, step).owing;
    case Quit(thread) => assert Enabled(s, step) && thread != LOOP ==> thread in Next(s, step).owing;
    case _ =>
  }

  lemma {:induction false} EveryRunIsAwaited(s: State, steps: seq<Step>)
    requires Awaited(s) && Placed(s)
    ensures Awaited(From(s, steps)) && Placed(From(s, steps))
    decreases |steps|
  {
    if steps != [] {
      NextIsAwaited(s, steps[0]);
      EveryRunIsAwaited(Next(s, steps[0]), steps[1..]);
    }
  }

  /** In no reachable state does the loop wait in poll with a task queued, the eventfd
      unreadable, and nobody about to make it readable. */
  lemma NoLostWakeup(steps: seq<Step>)
    ensures var s := From(START, steps);
      s.at.Polling? && s.pending != [] && s.counter == 0 ==> exists thread :: thread in s.owing && thread != LOOP
  {
    EveryRunIsAwaited(START, steps);
    LoopOwesInUserCode(START, steps);
    var s := From(START, steps);
    if s.at.Polling? && s.pending != [] && s.counter == 0 {
      var thread :| thread in s.owing;
      assert thread != LOOP;
    }
  }

  lemma NextOwesInUserCode(s: State, step: Step)
    requires LOOP in s.owing ==> InUserCode(s)
    ensures LOOP in Next(s, step).owing ==> InUserCode(Next(s, step))
  {
  }

  /** The loop's thread writes before it leaves the code that posted. */
  lemma {:induction false} LoopOwesInUserCode(s: State, steps: seq<Step>)
    requires LOOP in s.owing ==> InUserCode(s)
    ensures LOOP in From(s, steps).owing ==> InUserCode(From(s, steps))
    decreases |steps|
  {
    if steps != [] {
      NextOwesInUserCode(s, steps[0]);
      LoopOwesInUserCode(Next(s, steps[0]), steps[1..]);
    }
  }

  /** A loop that was told to quit while it may wait in poll is about to be woken. */
  predicate QuitHeard(s: State) {
    s.quit && s.at.Polling? ==> s.counter > 0 || exists thread :: thread in s.owing
  }

  /** In no reachable state does the loop wait in poll after a quit, the eventfd
      unreadable, and nobody about to make it readable. */
  lemma QuitWakesTheLoop(steps: seq<Step>)
    ensures var s := From(START, steps);
      s.quit && s.at.Polling? && s.counter == 0 ==> exists thread :: thread in s.owing && thread != LOOP
  {
    EveryRunIsHeard(START, steps);
    LoopOwesInUserCode(START, steps);
    var s := From(START, steps);
    if s.quit && s.at.Polling? && s.counter == 0 {
      var thread :| thread in s.owing;
      assert thread != LOOP;
    }
  }

  lemma {:induction false} EveryRunIsHeard(s: State, steps: seq<Step>)
    requires QuitHeard(s) && Awaited(s) && Placed(s) && (LOOP in s.owing ==> InUserCode(s))
    ensures QuitHeard(From(s, steps))
    decreases |steps|
  {
    if steps != [] {
      NextIsAwaited(s, steps[0]);
      NextOwesInUserCode(s, steps[0]);
      EveryRunIsHeard(Next(s, steps[0]), steps[1..]);
    }
  }

  /** Once told to quit, the loop stops at its next check, whatever waits. */
  lemma QuitLeavesTasks()
    ensures var s := From(START, [Push(LOOP, Entry(NO_CONTEXT, 7)), Write(LOOP), Quit(LOOP), Begin, Check]);
      s.at == Stopped && s.pending == [Entry(NO_CONTEXT, 7)]
  {
    var e := Entry(NO_CONTEXT, 7);
    var queued := START.(pending := [e], posted := [e]);
    var s1, s2 := queued.(owing := {LOOP}), queued.(counter := 1);
    assert Next(START, Push(LOOP, e)) == s1;
    assert Next(s1, Write(LOOP)) == s2;
    var s3 := s2.(quit := true);
    assert Next(s2, Quit(LOOP)) == s3;
    assert Next(s3, Begin) == s3.(at := Checking);
    assert From(START, [Push(LOOP, e), Write(LOOP), Quit(LOOP), Begin, Check])
      == From(s1, [Write(LOOP), Quit(LOOP), Begin, Check])
      == From(s2, [Quit(LOOP), Begin, Check])
      == From(s3, [Begin, Check])
      == From(s3.(at := Checking), [Check])
      == From(s3.(at := Stopped), []);
  }

  // ---------------------------------------------------------------------
  // What makes the eventfd readable, and what is done about a channel that is ready
  // ---------------------------------------------------------------------

  /** A read or a write of the eventfd that takes effect. */
  predicate Reads(s: State, step: Step) {
    step.ReadEventfd? && Enabled(s, step)
  }

  predicate Writes(s: State, step: Step) {
    step.Write? && Enabled(s, step)
  }

  lemma {:induction false} UnreadExactlyWhenWritten(s: State, steps: seq<Step>)
    requires Never(Next, Reads, s, steps)
    ensures From(s, steps).counter > 0 <==> s.counter > 0 || !Never(Next, Writes, s, steps)
    decreases |steps|
  {
    if steps != [] {
      var t := Next(s, steps[0]);
      assert t.counter > 0 <==> s.counter > 0 || Writes(s, steps[0]);
      hide Next, Enabled;
      UnreadExactlyWhenWritten(t, steps[1..]);
    }
  }

  /** In every run the eventfd is readable exactly when it was written to since the loop last
      read it, so a woken loop goes to sleep again. */
  lemma ReadableExactlyWhenWritten(steps: seq<Step>)
    ensures From(START, steps).counter > 0 <==> !QuietSince(Next, Reads, Writes, START, steps)
  {
    LastOfKind(Next, Reads, START, steps);
    if Never(Next, Reads, START, steps) {
      UnreadExactlyWhenWritten(START, steps);
    }
    forall a: seq<Step>, x: Step, b: seq<Step> |
      steps == a + [x] + b && Reads(From(START, a), x) && Never(Next, Reads, Next(From(START, a), x), b)
      ensures From(START, steps).counter > 0 <==> !Never(Next, Writes, Next(From(START, a), x), b)
    {
      SplitRun(Next, START, a, x, b);
      UnreadExactlyWhenWritten(Next(From(START, a), x), b);
    }
  }

  predicate Polls(s: State, step: Step) {
    step.PollReturns? && Enabled(s, step)
  }

  /** What was handled, and what is left to handle, since poll last returned. */
  predicate Handling(s: State, channels: seq<int>) {
    s.handled + (if s.at.Dispatching? then s.at.rest else []) == channels
  }

  lemma {:induction false} HandlingStays(s: State, steps: seq<Step>, channels: seq<int>)
    requires Handling(s, channels) && Never(Next, Polls, s, steps)
    ensures Handling(From(s, steps), channels)
    decreases |steps|
  {
    if steps != [] {
      assert Handling(Next(s, steps[0]), channels);
      HandlingStays(Next(s, steps[0]), steps[1..], channels);
    }
  }

  /** Whatever runs in between: after poll has returned some channels, they are handled in
      that order, and when the loop goes on, exactly they have been. */
  lemma ActiveChannelsAreHandled(s: State, active: seq<int>, steps: seq<Step>)
    requires Enabled(s, PollReturns(active)) && Never(Next, Polls, Next(s, PollReturns(active)), steps)
    ensures var t := From(Next(s, PollReturns(active)), steps);
      && s.handled <= t.handled <= s.handled + active
      && (!t.at.Dispatching? ==> t.handled == s.handled + active)
  {
    HandlingStays(Next(s, PollReturns(active)), steps, s.handled + active);
    var t := From(Next(s, PollReturns(active)), steps);
    HandledGrows(Next(s, PollReturns(active)), steps);
    if !t.at.Dispatching? {
      assert t.handled + [] == t.handled;
    }
  }

  lemma {:induction false} HandledGrows(s: State, steps: seq<Step>)
    ensures s.handled <= From(s, steps).handled
    decreases |steps|
  {
    if steps != [] {
      assert s.handled <= Next(s, steps[0]).handled;
      HandledGrows(Next(s, steps[0]), steps[1..]);
    }
  }

  // ---------------------------------------------------------------------
  // Posted tasks run once, in order, in their poster's context
  // ---------------------------------------------------------------------

  /** What was started, then what is left of the batch, then what waits: all that was
      posted, in the order of the lock. A batch stays what it was at the swap. */
  predicate Ordered(s: State) {
    && s.executed + s.batch + s.pending == s.posted
    && (s.at.Draining? || s.at.InTask? ==>
          s.at.first <= |s.executed| && |s.executed| + |s.batch| == s.at.end)
    && (s.at.InTask? ==> s.at.first < |s.executed|)
    // after a task the context is cleared
    && (s.at.Draining? && s.at.first < |s.executed| ==> s.context == NO_CONTEXT)
    && (!s.at.Draining? && !s.at.InTask? ==> s.batch == [])
  }

  lemma NextIsOrdered(s: State, step: Step)
    requires Ordered(s)
    ensures Ordered(Next(s, step))
    ensures s.executed <= Next(s, step).executed && s.posted <= Next(s, step).posted
  {
  }

  lemma {:induction false} EveryRunIsOrdered(s: State, steps: seq<Step>)
    requires Ordered(s)
    ensures Ordered(From(s, steps))
    ensures s.executed <= From(s, steps).executed && s.posted <= From(s, steps).posted
    decreases |steps|
  {
    if steps != [] {
      NextIsOrdered(s, steps[0]);
      EveryRunIsOrdered(Next(s, steps[0]), steps[1..]);
    }
  }

  /** In every reachable state, and each task was started in the context of its poster. */
  lemma ExecutedInPostOrder(steps: seq<Step>)
    ensures var s := From(START, steps);
      s.executed + s.batch + s.pending == s.posted && s.executed <= s.posted
  {
    EveryRunIsOrdered(START, steps);
  }

  /** The batch that ends with post number end is running, or was the last one to run. */
  predicate LastBatch(s: State, end: nat) {
    if s.at.Draining? || s.at.InTask? then s.at.end == end else |s.executed| == end
  }

  /** A swap, or a push, that takes effect. */
  predicate Swaps(s: State, step: Step) {
    step.Swap? && Enabled(s, step)
  }

  predicate Pushes(s: State, step: Step) {
    step.Push? && Enabled(s, step)
  }

  lemma {:induction false} LastBatchStays(s: State, steps: seq<Step>, end: nat)
    requires Ordered(s) && LastBatch(s, end) && Never(Next, Swaps, s, steps)
    ensures LastBatch(From(s, steps), end)
    decreases |steps|
  {
    if steps != [] {
      NextIsOrdered(s, steps[0]);
      assert LastBatch(Next(s, steps[0]), end);
      LastBatchStays(Next(s, steps[0]), steps[1..], end);
    }
  }

  /** Nothing posted while a batch runs is started before the next swap, and once the
      batch is over everything posted before its swap has been started. */
  lemma BatchIsFixed(s: State, steps: seq<Step>)
    requires Ordered(s) && (s.at.Draining? || s.at.InTask?) && Never(Next, Swaps, s, steps)
    ensures var t := From(s, steps);
      && s.at.end <= |s.posted| && t.executed <= s.posted[..s.at.end]
      && (!t.at.Draining? && !t.at.InTask? ==> t.executed == s.posted[..s.at.end])
  {
    var t := From(s, steps);
    LastBatchStays(s, steps, s.at.end);
    EveryRunIsOrdered(s, steps);
    assert t.executed == t.posted[..|t.executed|];
    assert s.posted == t.posted[..|s.posted|];
  }

  // ---------------------------------------------------------------------
  // What a loop told to quit leaves behind
  // ---------------------------------------------------------------------

  lemma {:induction false} PostedGrowsExactlyWhenPushed(s: State, steps: seq<Step>)
    ensures |From(s, steps).posted| >= |s.posted|
    ensures From(s, steps).posted == s.posted <==> Never(Next, Pushes, s, steps)
    decreases |steps|
  {
    if steps != [] {
      var t := Next(s, steps[0]);
      assert if Pushes(s, steps[0]) then |t.posted| == |s.posted| + 1 else t.posted == s.posted;
      hide Next;
      PostedGrowsExactlyWhenPushed(t, steps[1..]);
    }
  }

  /** A loop that stopped has started what was posted before its last swap, and leaves
      what was posted after it; so it has started everything exactly when no push took
      effect after that swap. */
  lemma StoppedLoopStartedExactly(a: seq<Step>, b: seq<Step>)
    requires var s := From(START, a);
      Swaps(s, Swap) && Never(Next, Swaps, Next(s, Swap), b) && From(Next(s, Swap), b).at.Stopped?
    ensures var s, t := From(START, a), From(START, a + [Swap] + b);
      && t.at.Stopped?
      && s.posted <= t.posted && t.executed == s.posted && t.pending == t.posted[|s.posted|..]
      && (t.executed == t.posted <==> Never(Next, Pushes, Next(s, Swap), b))
  {
    SplitRun(Next, START, a, Swap, b);
    var s := From(START, a);
    var u := Next(s, Swap);
    var t := From(u, b);
    EveryRunIsOrdered(START, a);
    NextIsOrdered(s, Swap);
    EveryRunIsOrdered(u, b);
    BatchIsFixed(u, b);
    PostedGrowsExactlyWhenPushed(u, b);
    hide Next, From, Never, Ordered;
    assert u.posted == s.posted && u.at.end == |s.posted|;
    assert s.posted[..|s.posted|] == s.posted;
    assert t.executed + t.batch + t.pending == t.posted && t.batch == [];
  }

  /** A loop that stopped without a swap has started nothing. */
  lemma StoppedBeforeAnySwap(steps: seq<Step>)
    requires Never(Next, Swaps, START, steps) && From(START, steps).at.Stopped?
    ensures var t := From(START, steps);
      && t.executed == [] && t.pending == t.posted
      && (t.executed == t.posted <==> Never(Next, Pushes, START, steps))
  {
    EveryRunIsOrdered(START, steps);
    LastBatchStays(START, steps, 0);
    PostedGrowsExactlyWhenPushed(START, steps);
  }

  /** So any loop that stopped has started everything exactly when no push took effect after
      its last swap. */
  lemma StoppedLoopStartedAllExactlyWhen(steps: seq<Step>)
    requires From(START, steps).at.Stopped?
    ensures var t := From(START, steps);
      t.executed == t.posted <==> QuietSince(Next, Swaps, Pushes, START, steps)
  {
    LastOfKind(Next, Swaps, START, steps);
    if Never(Next, Swaps, START, steps) {
      StoppedBeforeAnySwap(steps);
    }
    forall a: seq<Step>, x: Step, b: seq<Step> |
      steps == a + [x] + b && Swaps(From(START, a), x) && Never(Next, Swaps, Next(From(START, a), x), b)
      ensures var t := From(START, steps);
        t.executed == t.posted <==> Never(Next, Pushes, Next(From(START, a), x), b)
    {
      assert x == Swap;
      SplitRun(Next, START, a, x, b);
      StoppedLoopStartedExactly(a, b);
    }
  }

  // ---------------------------------------------------------------------
  // The loop
  // ---------------------------------------------------------------------

  /** A step of another thread, or of a handler or a task of the loop's own. */
  predicate Foreign(step: Step) {
    step.Push? || step.Write? || step.Quit? || step.SetContext?
  }

  predicate AllForeign(steps: seq<Step>) {
    forall step :: step in steps ==> Foreign(step)
  }

  /** A foreign step; the write with which the loop's thread ends a post is its own. */
  predicate FromOutside(step: Step) {
    Foreign(step) && step != Write(LOOP)
  }

  /** What is done from outside in the first n scripts. */
  function Outside(scripts: seq<seq<Step>>, n: nat): seq<Step> {
    OfKind(FromOutside, Joined(scripts, n))
  }

  lemma OutsideOneMore(scripts: seq<seq<Step>>, n: nat)
    ensures Outside(scripts, n + 1)
         == Outside(scripts, n) + OfKind(FromOutside, if n < |scripts| then scripts[n] else [])
  {
    OfKindInNext(FromOutside, scripts, n);
  }

  /** A run that leads from one state to another, with what was made from outside. */
  ghost predicate Makes(s: State, t: State, made: seq<Step>) {
    LeadsWith(Next, FromOutside, s, t, made)
  }

  lemma MakesStep(s: State, t: State, made: seq<Step>, step: Step)
    requires Makes(s, t, made) && !FromOutside(step)
    ensures Makes(s, Next(t, step), made)
  {
    LeadsWithStep(Next, FromOutside, s, t, made, step);
  }

  lemma MakesOn(s: State, t: State, u: State, made: seq<Step>, more: seq<Step>)
    requires Makes(s, t, made) && Makes(t, u, more)
    ensures Makes(s, u, made + more)
  {
    LeadsWithOn(Next, FromOutside, s, t, u, made, more);
  }

  lemma MakesNothing(s: State)
    ensures Makes(s, s, [])
  {
    LeadsWithNothing(Next, FromOutside, s);
  }

  lemma MakesRun(s: State, steps: seq<Step>)
    ensures Makes(s, From(s, steps), OfKind(FromOutside, steps))
  {
    LeadsWithNothing(Next, FromOutside, s);
    LeadsWithRun(Next, FromOutside, s, s, [], steps);
    assert [] + OfKind(FromOutside, steps) == OfKind(FromOutside, steps);
  }

  class EventLoop {
    var pendingTasks: seq<Entry>
    var wakeupCounter: nat
    var currentActiveChannel: Option<int>
    var quitting: bool
    var context: TraceContext
    var at: Position
    var tasks: seq<Entry>
    var owing: set<int>
    var posted: seq<Entry>
    var executed: seq<Entry>
    var handled: seq<int>

    function Contents(): State
      reads this
    {
      State(pendingTasks, wakeupCounter, currentActiveChannel, quitting, context, at, tasks, owing, posted, executed, handled)
    }

    constructor ()
      ensures Contents() == START
    {
      pendingTasks, wakeupCounter, currentActiveChannel, quitting := [], 0, None, false;
      context, at, tasks, owing, posted, executed, handled := NO_CONTEXT, Idle, [], {}, [], [], [];
    }

    /** Post up to the release of the lock; it goes on to Wakeup if told so. */
    method PushTask(thread: int, entry: Entry) returns (wake: bool)
      requires Enabled(Contents(), Push(thread, entry))
      modifies this`pendingTasks, this`posted, this`owing
      ensures Contents() == Next(old(Contents()), Push(thread, entry))
      ensures wake <==> thread in owing
      ensures wake <==> thread != LOOP || old(currentActiveChannel).None?
    {
      pendingTasks := pendingTasks + [entry];
      posted := posted + [entry];
      wake := thread != LOOP || currentActiveChannel.None?;
      if wake {
        owing := owing + {thread};
      }
    }

    method Wakeup(thread: int)
      requires thread in owing
      modifies this`wakeupCounter, this`owing
      ensures Contents() == Next(old(Contents()), Write(thread))
      ensures owing == old(owing) - {thread}
    {
      if wakeupCounter < EVENTFD_MAX {
        wakeupCounter := wakeupCounter + 1;
      }
      owing := owing - {thread};
    }

    method SetQuit(thread: int)
      requires Enabled(Contents(), Quit(thread))
      modifies this`quitting, this`owing
      ensures Contents() == Next(old(Contents()), Quit(thread))
    {
      quitting := true;
      if thread != LOOP {
        owing := owing + {thread};
      }
    }

    /** Whatever other threads, and the code the loop has called, do for a while. */
    method Interfere(script: seq<Step>)
      requires AllForeign(script)
      modifies this
      ensures Contents() == From(old(Contents()), script)
      ensures at == old(at) && tasks == old(tasks) && currentActiveChannel == old(currentActiveChannel)
      ensures handled == old(handled) && executed == old(executed)
      ensures LOOP in owing ==> LOOP in old(owing) || InUserCode(old(Contents()))
    {
      hide Next;
      ghost var before := Contents();
      var i := 0;
      assert script[0..] == script;
      while i < |script|
        invariant 0 <= i <= |script|
        invariant From(Contents(), script[i..]) == From(before, script)
        invariant at == before.at && tasks == before.batch && currentActiveChannel == before.current
        invariant handled == before.handled && executed == before.executed
        invariant LOOP in owing ==> LOOP in before.owing || InUserCode(before)
      {
        assert script[i..][0] == script[i] && script[i..][1..] == script[i + 1..];
        assert script[i] in script;
        Act(script[i]);
        i := i + 1;
      }
      assert script[i..] == [];
    }

    method Act(step: Step)
      requires Foreign(step)
      modifies this
      ensures Contents() == Next(old(Contents()), step)
      ensures at == old(at) && tasks == old(tasks) && currentActiveChannel == old(currentActiveChannel)
      ensures handled == old(handled) && executed == old(executed)
      ensures LOOP in owing ==> LOOP in old(owing) || InUserCode(old(Contents()))
    {
      if Enabled(Contents(), step) {
        match step
        case Push(thread, entry) => var wake := PushTask(thread, entry);
        case Write(thread) => Wakeup(thread);
        case Quit(thread) => SetQuit(thread);
        case SetContext(c) => context := c;
        case _ => // not a foreign step
      }
    }

    /** A handler or a task: it returns only when each of its posts has. */
    method UserCode(script: seq<Step>)
      requires AllForeign(script) && InUserCode(Contents()) && LOOP !in owing
      modifies this
      ensures Makes(old(Contents()), Contents(), OfKind(FromOutside, script))
      ensures at == old(at) && tasks == old(tasks) && currentActiveChannel == old(currentActiveChannel)
      ensures handled == old(handled) && executed == old(executed)
      ensures LOOP !in owing
    {
      hide Next, Makes;
      ghost var before := Contents();
      Interfere(script);
      MakesRun(before, script);
      if LOOP in owing {
        MakesStep(before, Contents(), OfKind(FromOutside, script), Write(LOOP));
        Wakeup(LOOP);
      }
    }

    method OnWakeup()
      requires Enabled(Contents(), ReadEventfd)
      modifies this`wakeupCounter
      ensures Contents() == Next(old(Contents()), ReadEventfd)
    {
      wakeupCounter := 0;
    }

    /** Starts every task posted before the swap, in order and in its poster's context,
        and none posted later. */
    method RunPendingTasks(scripts: seq<seq<Step>>)
      requires Ordered(Contents()) && at.BeforeSwap? && LOOP !in owing
      requires forall script :: script in scripts ==> AllForeign(script)
      modifies this
      ensures Makes(old(Contents()), Contents(), Outside(scripts, old(|pendingTasks|))) && Ordered(Contents())
      ensures at.Checking? && LOOP !in owing && currentActiveChannel == old(currentActiveChannel)
      ensures executed == old(executed + pendingTasks) && handled == old(handled)
      ensures old(posted) <= posted
    {
      hide Next, Ordered, Makes;
      ghost var before, end := Contents(), |posted|;
      MakesNothing(before);
      MakesStep(before, Contents(), [], Step.Swap);
      SwapTasks();
      var i := 0;
      while tasks != []
        invariant i + |tasks| == |before.pending| && Makes(before, Contents(), Outside(scripts, i))
        invariant at.Draining? && at.end == end && LOOP !in owing
        invariant currentActiveChannel == before.current && handled == before.handled
        decreases |tasks|
      {
        RunTask(before, Outside(scripts, i), if i < |scripts| then scripts[i] else []);
        OutsideOneMore(scripts, i);
        i := i + 1;
      }
      MakesKeeps(before, Contents(), Outside(scripts, i));
      MakesStep(before, Contents(), Outside(scripts, i), EndBatch);
      BatchIsOver(before, Contents());
      FinishBatch();
      MakesKeeps(before, Contents(), Outside(scripts, i));
    }

    /** The critical section of RunPendingTasks. */
    method SwapTasks()
      requires at.BeforeSwap?
      modifies this`tasks, this`pendingTasks, this`at
      ensures Contents() == Next(old(Contents()), Step.Swap)
      ensures at == Draining(|executed|, |posted|) && tasks == old(pendingTasks)
    {
      tasks, pendingTasks := pendingTasks, [];
      at := Draining(|executed|, |posted|);
    }

    method FinishBatch()
      requires at.Draining? && tasks == []
      modifies this`at
      ensures Contents() == Next(old(Contents()), EndBatch)
      ensures at == Checking
    {
      at := Checking;
    }

    /** One task in its poster's context, which is cleared after it. */
    method RunTask(ghost before: State, ghost made: seq<Step>, script: seq<Step>)
      requires at.Draining? && tasks != [] && LOOP !in owing && Makes(before, Contents(), made)
      requires AllForeign(script)
      modifies this
      ensures Makes(before, Contents(), made + OfKind(FromOutside, script))
      ensures executed == old(executed + [tasks[0]])
      ensures LOOP !in owing && currentActiveChannel == old(currentActiveChannel) && handled == old(handled)
      ensures at == old(at) && tasks == old(tasks)[1..] && context == NO_CONTEXT
    {
      hide Next, Makes;
      MakesStep(before, Contents(), made, StartTask);
      BeginTask();
      ghost var started := Contents();
      UserCode(script);
      MakesOn(before, started, Contents(), made, OfKind(FromOutside, script));
      MakesStep(before, Contents(), made + OfKind(FromOutside, script), FinishTask);
      EndTask();
    }

    method BeginTask()
      requires at.Draining? && tasks != []
      modifies this`context, this`tasks, this`executed, this`at
      ensures Contents() == Next(old(Contents()), StartTask)
      ensures at == InTask(old(at).first, old(at).end) && tasks == old(tasks)[1..]
      ensures executed == old(executed + [tasks[0]]) && context == old(tasks)[0].context
    {
      var task := tasks[0];
      context := task.context;
      tasks := tasks[1..];
      executed := executed + [Entry(context, task.task)];
      at := InTask(at.first, at.end);
    }

    method EndTask()
      requires at.InTask? && LOOP !in owing
      modifies this`context, this`at
      ensures Contents() == Next(old(Contents()), FinishTask)
      ensures at == Draining(old(at).first, old(at).end) && context == NO_CONTEXT
    {
      context := NO_CONTEXT;
      at := Draining(at.first, at.end);
    }

    /** Handles the active channels one after another. */
    method Dispatch(active: seq<int>, scripts: seq<seq<Step>>)
      requires at.Polling? && currentActiveChannel.None? && LOOP !in owing
      requires WAKEUP in active ==> wakeupCounter > 0
      requires forall script :: script in scripts ==> AllForeign(script)
      modifies this
      ensures Makes(old(Contents()), Contents(), Outside(scripts, |active|))
      ensures handled == old(handled) + active && executed == old(executed)
      ensures at.BeforeSwap? && currentActiveChannel.None? && LOOP !in owing
    {
      ghost var before := Contents();
      MakesNothing(before);
      assert Outside(scripts, 0) == [];
      hide Makes, Next, Outside, Enabled, InUserCode, AllForeign;
      MakesStep(before, Contents(), [], PollReturns(active));
      BeginDispatch(active);
      var i := 0;
      while at.rest != []
        invariant at.Dispatching? && i + |at.rest| == |active| && LOOP !in owing
        invariant handled + at.rest == before.handled + active && executed == before.executed
        invariant Makes(before, Contents(), Outside(scripts, i))
        decreases |at.rest|
      {
        OneHandled(handled, at.rest);
        HandleNext(before, Outside(scripts, i), if i < |scripts| then scripts[i] else []);
        OutsideOneMore(scripts, i);
        i := i + 1;
      }
      MakesStep(before, Contents(), Outside(scripts, i), EndDispatch);
      assert handled + [] == handled;
      FinishDispatch();
    }

    method BeginDispatch(active: seq<int>)
      requires at.Polling? && (WAKEUP in active ==> wakeupCounter > 0)
      modifies this`at
      ensures Contents() == Next(old(Contents()), PollReturns(active))
      ensures at == Dispatching(active)
    {
      at := Dispatching(active);
    }

    method FinishDispatch()
      requires at.Dispatching? && at.rest == [] && LOOP !in owing
      modifies this`currentActiveChannel, this`at
      ensures Contents() == Next(old(Contents()), EndDispatch)
      ensures currentActiveChannel == None && at == BeforeSwap
    {
      currentActiveChannel := None;
      at := BeforeSwap;
    }

    /** The eventfd's own handler reads it; others do what they do. */
    method HandleNext(ghost before: State, ghost made: seq<Step>, script: seq<Step>)
      requires at.Dispatching? && at.rest != [] && LOOP !in owing && Makes(before, Contents(), made)
      requires AllForeign(script)
      modifies this
      ensures Makes(before, Contents(), made + OfKind(FromOutside, script))
      ensures handled == old(handled + [at.rest[0]]) && executed == old(executed)
      ensures at == Dispatching(old(at).rest[1..]) && LOOP !in owing
    {
      hide Makes;
      MakesStep(before, Contents(), made, NextChannel);
      currentActiveChannel := Some(at.rest[0]);
      handled := handled + [at.rest[0]];
      at := Dispatching(at.rest[1..]);
      if currentActiveChannel == Some(WAKEUP) {
        MakesStep(before, Contents(), made, ReadEventfd);
        OnWakeup();
      }
      hide Next;
      ghost var called := Contents();
      UserCode(script);
      MakesOn(before, called, Contents(), made, OfKind(FromOutside, script));
    }

    /** One round of loop(): a run of the machine that handles exactly the channels poll
        returned, in order, after which everything that was pending when poll returned
        has been started; or the loop has been told to quit. */
    method Round(others: seq<int>, handlers: seq<seq<Step>>, meanwhile: seq<Step>, bodies: seq<seq<Step>>)
      returns (active: seq<int>)
      requires Ordered(Contents()) && Placed(Contents()) && at.Checking? && LOOP !in owing
      requires WAKEUP !in others && AllForeign(meanwhile)
      requires forall script :: script in handlers + bodies ==> AllForeign(script)
      modifies this
      ensures Ordered(Contents()) && handled == old(handled) + active
      ensures if old(quitting) then at.Stopped? && active == [] && executed == old(executed)
              else at.Checking? && old(posted) <= executed
      ensures !old(quitting) ==>
        active == if From(Next(old(Contents()), Check), meanwhile).counter > 0 then [WAKEUP] + others else others
      ensures Makes(old(Contents()), Contents(),
                    if old(quitting) then []
                    else OfKind(FromOutside, meanwhile) + Outside(handlers, |active|)
                         + Outside(bodies, |executed| - |old(executed)|))
    {
      ghost var before := Contents();
      hide Ordered, Makes, Outside, AllForeign;
      MakesNothing(before);
      MakesStep(before, Contents(), [], Check);
      active := [];
      if quitting {
        at := Stopped;
        MakesKeeps(before, Contents(), []);
        return;
      }
      at := Polling;
      ghost var polling, made := Contents(), OfKind(FromOutside, meanwhile);
      Interfere(meanwhile);
      MakesRun(polling, meanwhile);
      MakesOn(before, polling, Contents(), [], made);
      assert [] + made == made;
      hide Next;
      ghost var polled := Contents();
      active := if wakeupCounter > 0 then [WAKEUP] + others else others;
      Dispatch(active, handlers);
      MakesOn(before, polled, Contents(), made, Outside(handlers, |active|));
      MakesKeeps(before, Contents(), made + Outside(handlers, |active|));
      ghost var dispatched := Contents();
      RunPendingTasks(bodies);
      MakesOn(before, dispatched, Contents(), made + Outside(handlers, |active|),
              Outside(bodies, |dispatched.pending|));
      AllWereStarted(dispatched);
    }
  }

  lemma OneHandled(handled: seq<int>, rest: seq<int>)
    requires rest != []
    ensures handled + [rest[0]] + rest[1..] == handled + rest
  {
    assert rest == [rest[0]] + rest[1..];
  }

  lemma MakesKeeps(s: State, t: State, made: seq<Step>)
    requires Ordered(s) && Makes(s, t, made)
    ensures Ordered(t) && s.executed <= t.executed && s.posted <= t.posted
  {
    LeadsWithLeads(Next, FromOutside, s, t, made);
    ReachesKeeps(s, t);
  }

  lemma ReachesKeeps(s: State, t: State)
    requires Ordered(s) && Leads(Next, s, t)
    ensures Ordered(t) && s.executed <= t.executed && s.posted <= t.posted
  {
    var steps :| After(Next, s, steps) == t;
    EveryRunIsOrdered(s, steps);
  }

  lemma BatchIsOver(s: State, t: State)
    requires Ordered(s) && s.at.BeforeSwap? && Ordered(t) && s.posted <= t.posted
    requires t.at.Draining? && t.at.end == |s.posted| && t.batch == []
    ensures t.executed == s.executed + s.pending
  {
    assert t.executed == t.posted[..|s.posted|];
    assert s.executed + s.batch + s.pending == s.executed + s.pending;
  }

  lemma AllWereStarted(s: State)
    requires Ordered(s) && s.at.BeforeSwap?
    ensures s.executed + s.pending == s.posted
  {
    assert s.executed + s.batch + s.pending == s.executed + s.pending;
  }
}
