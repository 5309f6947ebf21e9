// threading/ThreadPool.{h,cc}: a bounded queue between producers and workers, with a
// lock, two condition variables and a stop flag, as a machine of atomic steps.
module ThreadPools {
  import opened Base
  import opened Runs

  datatype Entry = Entry(context: int, task: int)

  /** A thread, by its number among the workers or among the callers of Run. Caller w is
      worker w while its task is inside Run; those from the number of workers on are
      threads of their own. */
  datatype Thread = Worker(w: nat) | Producer(p: nat)

  /** Where a thread is. One that waits is on the condition variable and has not been
      notified; a notified one has yet to get the lock back. */
  datatype Place =
    | Outside
    | Entering
    | Holding
    // with the lock, past the check that sends it to wait
    | Deciding
    | Waiting
    | Notified
    | Busy(entry: Entry)
    | Exited

  datatype State = State(
    running: bool,
    max: nat,
    queue: seq<Entry>,
    lock: Option<Thread>,
    workers: seq<Place>,
    producers: seq<Place>,
    // the broadcast of Stop is over
    released: bool,
    // everything pushed, and everything popped, in the order of the lock
    accepted: seq<Entry>,
    taken: seq<Entry>,
    // what callers ran themselves because there are no workers
    inline: seq<Entry>)

  function Start(max: nat, workers: nat, callers: nat): State {
    State(true, max, [], None, seq(workers, _ => Outside), seq(workers + callers, _ => Outside), false, [], [], [])
  }

  /** A check names the thread its notification chooses among those that wait. */
  datatype Step =
    | Begin(w: nat)
    | Arrive(p: nat)
    | RunInline(p: nat, entry: Entry)
    | Acquire(thread: Thread)
    | WorkerCheck(w: nat, chosen: nat)
    | ProducerCheck(p: nat, entry: Entry, chosen: nat)
    | Block(thread: Thread)
    // a task calls Run on its own pool
    | Call(w: nat)
    | Finish(w: nat)
    | WakeUp(thread: Thread)
    | SetStop
    | Broadcast

  predicate IsFull(s: State) {
    s.max > 0 && |s.queue| >= s.max
  }

  predicate Exists(s: State, t: Thread) {
    match t
    case Worker(w) => w < |s.workers|
    case Producer(p) => p < |s.producers|
  }

  function PlaceOf(s: State, t: Thread): Place
    requires Exists(s, t)
  {
    match t
    case Worker(w) => s.workers[w]
    case Producer(p) => s.producers[p]
  }

  function Moved(s: State, t: Thread, place: Place): State
    requires Exists(s, t)
  {
    match t
    case Worker(w) => s.(workers := s.workers[w := place])
    case Producer(p) => s.(producers := s.producers[p := place])
  }

  /** pthread_cond_signal: some waiting thread is notified, if there is one. */
  function Notify(places: seq<Place>, chosen: nat): (r: seq<Place>)
    ensures |r| == |places|
  {
    if chosen < |places| && places[chosen] == Waiting then places[chosen := Notified] else places
  }

  predicate MayChoose(places: seq<Place>, chosen: nat) {
    Waiting in places ==> chosen < |places| && places[chosen] == Waiting
  }

  /** pthread_cond_broadcast */
  function NotifyAll(places: seq<Place>): (r: seq<Place>)
    ensures |r| == |places|
    ensures forall i :: 0 <= i < |r| ==> r[i] == if places[i] == Waiting then Notified else places[i]
  {
    seq(|places|, i requires 0 <= i < |places| => if places[i] == Waiting then Notified else places[i])
  }

  predicate Enabled(s: State, step: Step) {
    match step
    case Begin(w) => w < |s.workers| && s.workers[w] == Outside
    case Arrive(p) => |s.workers| <= p < |s.producers| && s.producers[p] == Outside && s.workers != []
    case RunInline(p, _) => p < |s.producers| && s.producers[p] == Outside && s.workers == []
    case Acquire(t) => s.lock.None? && Exists(s, t) && PlaceOf(s, t) in {Entering, Notified}
    case WorkerCheck(w, chosen) =>
      && w < |s.workers| && s.workers[w] == Holding && MayChoose(s.producers, chosen)
    case ProducerCheck(p, _, chosen) =>
      && p < |s.producers| && s.producers[p] == Holding && MayChoose(s.workers, chosen)
    case Block(t) => Exists(s, t) && PlaceOf(s, t) == Deciding
    case Call(w) => w < |s.workers| && s.workers[w].Busy? && w < |s.producers| && s.producers[w] == Outside
    case Finish(w) => w < |s.workers| && s.workers[w].Busy? && w < |s.producers| && s.producers[w] == Outside
    // a spurious wakeup
    case WakeUp(t) => Exists(s, t) && PlaceOf(s, t) == Waiting
    case SetStop => s.running
    case Broadcast => !s.running && s.lock.None?
  }

  /** The body of Take from the check of its loop on, with the lock held. */
  function Checked(s: State, w: nat, chosen: nat): State
    requires w < |s.workers|
  {
    if s.queue == [] && s.running then s.(workers := s.workers[w := Deciding])
    else if s.queue == [] then s.(workers := s.workers[w := Outside], lock := None)
    else
      s.(queue := s.queue[1..], taken := s.taken + [s.queue[0]],
         workers := s.workers[w := Busy(s.queue[0])], lock := None,
         producers := if s.max > 0 then Notify(s.producers, chosen) else s.producers)
  }

  /** The body of Run from the check of its loop on, with the lock held. */
  function Offered(s: State, p: nat, entry: Entry, chosen: nat): State
    requires p < |s.producers|
  {
    if IsFull(s) then s.(producers := s.producers[p := Deciding])
    else
      s.(queue := s.queue + [entry], accepted := s.accepted + [entry],
         producers := s.producers[p := Outside], lock := None,
         workers := Notify(s.workers, chosen))
  }

  /** An enabled step's effect; a step that is not enabled does nothing. */
  function Next(s: State, step: Step): State {
    if !Enabled(s, step) then s
    else match step
      case Begin(w) => s.(workers := s.workers[w := if s.running then Entering else Exited])
      case Arrive(p) => s.(producers := s.producers[p := Entering])
      case RunInline(p, entry) => s.(inline := s.inline + [entry])
      case Acquire(t) => Moved(s, t, Holding).(lock := Some(t))
      case WorkerCheck(w, chosen) => Checked(s, w, chosen)
      case ProducerCheck(p, entry, chosen) => Offered(s, p, entry, chosen)
      case Block(t) => Moved(s, t, Waiting).(lock := None)
      case Call(w) => s.(producers := s.producers[w := Entering])
      case Finish(w) => s.(workers := s.workers[w := Outside])
      case WakeUp(t) => Moved(s, t, Notified)
      case SetStop => s.(running := false)
      case Broadcast => s.(workers := NotifyAll(s.workers), released := true)
  }

  function From(s: State, steps: seq<Step>): State {
    After(Next, s, steps)
  }

  // ---------------------------------------------------------------------
  // No wakeup is lost
  // ---------------------------------------------------------------------

  /** How many threads are notified, or have the lock and are about to check. */
  function Awake(places: seq<Place>): nat {
    if places == [] then 0
    else Awake(places[..|places| - 1]) + if places[|places| - 1] in {Notified, Holding} then 1 else 0
  }

  lemma {:induction false} AwakeAfterMove(places: seq<Place>, i: nat, place: Place)
    requires i < |places|
    ensures Awake(places[i := place])
         == Awake(places) - (if places[i] in {Notified, Holding} then 1 else 0)
                          + (if place in {Notified, Holding} then 1 else 0)
    decreases |places|
  {
    var n := |places| - 1;
    if i < n {
      AwakeAfterMove(places[..n], i, place);
      assert places[i := place][..n] == places[..n][i := place];
    } else {
      assert places[i := place][..n] == places[..n];
    }
  }

  lemma AwakeAfterNotify(places: seq<Place>, chosen: nat)
    requires MayChoose(places, chosen)
    ensures Awake(Notify(places, chosen)) == Awake(places) + if Waiting in places then 1 else 0
    ensures Waiting in Notify(places, chosen) ==> Waiting in places
  {
    if Waiting in places {
      AwakeAfterMove(places, chosen, Notified);
    }
  }

  predicate HasLock(place: Place) {
    place == Holding || place == Deciding
  }

  /** One thread has the lock, and one about to wait has seen why. */
  predicate Locked(s: State) {
    && (forall w :: 0 <= w < |s.workers| ==>
          (HasLock(s.workers[w]) <==> s.lock == Some(Worker(w)))
          && (s.workers[w] == Deciding ==> s.queue == []))
    && (forall p :: 0 <= p < |s.producers| ==>
          (HasLock(s.producers[p]) <==> s.lock == Some(Producer(p)))
          && (s.producers[p] == Deciding ==> IsFull(s)))
    && (s.lock.Some? ==> Exists(s, s.lock.value))
  }

  /** A worker that waits unnotified leaves no entry without a worker on its way to it,
      and a producer no free slot without a producer on its way. */
  predicate Attended(s: State) {
    && (s.max > 0 ==> |s.queue| <= s.max)
    && (Waiting in s.workers ==> |s.queue| <= Awake(s.workers))
    && (Waiting in s.producers ==> s.max > 0 && s.max - |s.queue| <= Awake(s.producers))
  }

  /** Entries leave in the order in which they were accepted. */
  predicate Fifo(s: State) {
    s.taken + s.queue == s.accepted
  }

  /** Once Stop has notified everyone, no worker waits or is about to. */
  predicate Released(s: State) {
    s.released ==> !s.running && forall w :: 0 <= w < |s.workers| ==> s.workers[w] !in {Waiting, Deciding}
  }

  /** A caller of Run runs no task and does not exit. */
  predicate ProducersCall(s: State) {
    forall p :: 0 <= p < |s.producers| ==> !s.producers[p].Busy? && s.producers[p] != Exited
  }

  /** A worker is inside Run only in the middle of a task. */
  predicate TasksCall(s: State) {
    && |s.workers| <= |s.producers|
    && forall w :: 0 <= w < |s.workers| && s.producers[w] != Outside ==> s.workers[w].Busy?
  }

  predicate Valid(s: State) {
    Locked(s) && Attended(s) && Fifo(s) && Released(s) && ProducersCall(s) && TasksCall(s)
  }

  lemma WaitingAfterMove(places: seq<Place>, i: nat, place: Place)
    requires i < |places| && place != Waiting && Waiting in places[i := place]
    ensures Waiting in places
  {
    var k :| 0 <= k < |places| && places[i := place][k] == Waiting;
    assert places[k] == Waiting;
  }

  lemma NotifyLeavesOthers(places: seq<Place>, chosen: nat)
    ensures forall i :: 0 <= i < |places| ==>
      Notify(places, chosen)[i] == places[i] || (places[i] == Waiting && Notify(places, chosen)[i] == Notified)
  {
  }

  lemma CheckedStaysLocked(s: State, w: nat, chosen: nat)
    requires Locked(s) && Enabled(s, WorkerCheck(w, chosen))
    ensures Locked(Checked(s, w, chosen))
  {
    assert s.lock == Some(Worker(w));
    NotifyLeavesOthers(s.producers, chosen);
    hide Notify;
  }

  lemma OfferedStaysLocked(s: State, p: nat, entry: Entry, chosen: nat)
    requires Locked(s) && Enabled(s, ProducerCheck(p, entry, chosen))
    ensures Locked(Offered(s, p, entry, chosen))
  {
    assert s.lock == Some(Producer(p));
    NotifyLeavesOthers(s.workers, chosen);
    hide Notify;
  }

  /** Who has the lock after a thread went from one place to another. */
  function LockAfter(s: State, t: Thread, place: Place): Option<Thread>
    requires Exists(s, t)
  {
    if HasLock(place) then Some(t) else if HasLock(PlaceOf(s, t)) then None else s.lock
  }

  lemma WorkerMovedStaysLocked(s: State, w: nat, place: Place)
    requires Locked(s) && w < |s.workers| && place != Deciding
    requires !HasLock(s.workers[w]) && HasLock(place) ==> s.lock.None?
    ensures Locked(Moved(s, Worker(w), place).(lock := LockAfter(s, Worker(w), place)))
  {
    var lock, workers := LockAfter(s, Worker(w), place), s.workers[w := place];
    assert HasLock(s.workers[w]) <==> s.lock == Some(Worker(w));
    forall i: nat | i < |workers|
      ensures HasLock(workers[i]) <==> lock == Some(Worker(i))
      ensures workers[i] == Deciding ==> s.queue == []
    {
    }
  }

  lemma ProducerMovedStaysLocked(s: State, p: nat, place: Place)
    requires Locked(s) && p < |s.producers| && place != Deciding
    requires !HasLock(s.producers[p]) && HasLock(place) ==> s.lock.None?
    ensures Locked(Moved(s, Producer(p), place).(lock := LockAfter(s, Producer(p), place)))
  {
    var lock, producers := LockAfter(s, Producer(p), place), s.producers[p := place];
    assert HasLock(s.producers[p]) <==> s.lock == Some(Producer(p));
    forall i: nat | i < |producers|
      ensures HasLock(producers[i]) <==> lock == Some(Producer(i))
      ensures producers[i] == Deciding ==> IsFull(s)
    {
    }
  }

  lemma MovedStaysLocked(s: State, t: Thread, place: Place)
    requires Locked(s) && Exists(s, t) && place != Deciding
    requires !HasLock(PlaceOf(s, t)) && HasLock(place) ==> s.lock.None?
    ensures Locked(Moved(s, t, place).(lock := LockAfter(s, t, place)))
  {
    hide Locked;
    match t
    case Worker(w) => WorkerMovedStaysLocked(s, w, place);
    case Producer(p) => ProducerMovedStaysLocked(s, p, place);
  }

  lemma LockedStays(s: State, step: Step)
    requires Locked(s)
    ensures Locked(Next(s, step))
  {
    if Enabled(s, step) {
      match step
      case Begin(w) => MovedStaysLocked(s, Worker(w), if s.running then Entering else Exited);
      case Arrive(p) => MovedStaysLocked(s, Producer(p), Entering);
      case RunInline(_, _) =>
      case Acquire(t) => MovedStaysLocked(s, t, Holding);
      case WorkerCheck(w, chosen) => CheckedStaysLocked(s, w, chosen);
      case ProducerCheck(p, entry, chosen) => OfferedStaysLocked(s, p, entry, chosen);
      case Block(t) => MovedStaysLocked(s, t, Waiting);
      case Call(w) => MovedStaysLocked(s, Producer(w), Entering);
      case Finish(w) => MovedStaysLocked(s, Worker(w), Outside);
      case WakeUp(t) => MovedStaysLocked(s, t, Notified);
      case SetStop =>
      case Broadcast =>
    }
  }

  lemma CheckedStaysAttended(s: State, w: nat, chosen: nat)
    requires Attended(s) && Enabled(s, WorkerCheck(w, chosen))
    ensures Attended(Checked(s, w, chosen))
  {
    var t := Checked(s, w, chosen);
    AwakeAfterMove(s.workers, w, t.workers[w]);
    AwakeAfterNotify(s.producers, chosen);
    if Waiting in t.workers {
      WaitingAfterMove(s.workers, w, t.workers[w]);
    }
  }

  lemma OfferedStaysAttended(s: State, p: nat, entry: Entry, chosen: nat)
    requires Attended(s) && Enabled(s, ProducerCheck(p, entry, chosen))
    ensures Attended(Offered(s, p, entry, chosen))
  {
    var t := Offered(s, p, entry, chosen);
    AwakeAfterMove(s.producers, p, t.producers[p]);
    AwakeAfterNotify(s.workers, chosen);
    if Waiting in t.producers {
      WaitingAfterMove(s.producers, p, t.producers[p]);
    }
  }

  /** A step that only moves a thread that was neither notified nor at the check. */
  lemma MovedStaysAttended(s: State, t: Thread, place: Place)
    requires Attended(s) && Locked(s) && Exists(s, t)
    requires PlaceOf(s, t) in {Notified, Holding} ==> place in {Notified, Holding}
    requires place == Waiting ==> PlaceOf(s, t) == Deciding
    ensures Attended(Moved(s, t, place))
  {
    var places := if t.Worker? then s.workers else s.producers;
    var i := if t.Worker? then t.w else t.p;
    AwakeAfterMove(places, i, place);
    if place != Waiting && Waiting in places[i := place] {
      WaitingAfterMove(places, i, place);
    }
  }

  lemma {:induction false} NobodyWaits(places: seq<Place>)
    ensures Waiting !in NotifyAll(places)
  {
  }

  lemma AttendedStays(s: State, step: Step)
    requires Valid(s)
    ensures Attended(Next(s, step))
  {
    if Enabled(s, step) {
      match step
      case Begin(w) => MovedStaysAttended(s, Worker(w), if s.running then Entering else Exited);
      case Arrive(p) => MovedStaysAttended(s, Producer(p), Entering);
      case RunInline(_, _) =>
      case Acquire(t) => MovedStaysAttended(s, t, Holding);
      case WorkerCheck(w, chosen) => CheckedStaysAttended(s, w, chosen);
      case ProducerCheck(p, entry, chosen) => OfferedStaysAttended(s, p, entry, chosen);
      case Block(t) => MovedStaysAttended(s, t, Waiting);
      case Call(w) => MovedStaysAttended(s, Producer(w), Entering);
      case Finish(w) => MovedStaysAttended(s, Worker(w), Outside);
      case WakeUp(t) => MovedStaysAttended(s, t, Notified);
      case SetStop =>
      case Broadcast => NobodyWaits(s.workers);
    }
  }

  lemma FifoStays(s: State, step: Step)
    requires Fifo(s)
    ensures Fifo(Next(s, step))
  {
  }

  lemma ReleasedStays(s: State, step: Step)
    requires Released(s) && Locked(s)
    ensures Released(Next(s, step))
  {
  }

  lemma ProducersStay(s: State, step: Step)
    requires ProducersCall(s)
    ensures ProducersCall(Next(s, step))
  {
  }

  lemma OutsideStays(s: State, step: Step, w: nat)
    requires w < |s.workers| && w < |s.producers| && s.producers[w] == Outside && step != Call(w)
    ensures w < |Next(s, step).producers| && Next(s, step).producers[w] == Outside
  {
    hide NotifyAll;
  }

  lemma CallingStaysBusy(s: State, step: Step, w: nat)
    requires w < |s.workers| && w < |s.producers| && s.producers[w] != Outside && s.workers[w].Busy?
    ensures w < |Next(s, step).workers| && Next(s, step).workers[w].Busy?
  {
  }

  lemma TasksStay(s: State, step: Step)
    requires TasksCall(s)
    ensures TasksCall(Next(s, step))
  {
    NextKeepsShape(s, step);
    forall w: nat | w < |s.workers| && Next(s, step).producers[w] != Outside
      ensures Next(s, step).workers[w].Busy?
    {
      if s.producers[w] != Outside {
        CallingStaysBusy(s, step, w);
      } else if step != Call(w) {
        OutsideStays(s, step, w);
      }
    }
    hide Checked, Offered, NotifyAll;
  }

  lemma NextIsValid(s: State, step: Step)
    requires Valid(s)
    ensures Valid(Next(s, step))
  {
    LockedStays(s, step);
    AttendedStays(s, step);
    FifoStays(s, step);
    ReleasedStays(s, step);
    ProducersStay(s, step);
    TasksStay(s, step);
  }

  lemma {:induction false} EveryRunIsValid(s: State, steps: seq<Step>)
    requires Valid(s)
    ensures Valid(From(s, steps))
    decreases |steps|
  {
    if steps != [] {
      NextIsValid(s, steps[0]);
      EveryRunIsValid(Next(s, steps[0]), steps[1..]);
    }
  }

  lemma StartIsValid(max: nat, workers: nat, callers: nat)
    ensures Valid(Start(max, workers, callers))
  {
  }

  /** In every reachable state, under barging and spurious wakeups: entries do not lie in
      the queue while all workers sleep, nor slots while all producers do; the bound holds;
      and what was taken is what was first accepted. */
  lemma NoLostWakeup(max: nat, workers: nat, callers: nat, steps: seq<Step>)
    ensures var s := From(Start(max, workers, callers), steps);
      && (Waiting in s.workers && s.queue != [] ==> exists w ::
            0 <= w < |s.workers| && s.workers[w] in {Notified, Holding})
      && (Waiting in s.producers && !IsFull(s) ==> exists p ::
            0 <= p < |s.producers| && s.producers[p] in {Notified, Holding})
      && (max > 0 ==> |s.queue| <= max)
      && s.taken <= s.accepted
  {
    StartIsValid(max, workers, callers);
    EveryRunIsValid(Start(max, workers, callers), steps);
    MaxIsFixed(Start(max, workers, callers), steps);
    var s := From(Start(max, workers, callers), steps);
    SomeoneAwake(s.workers);
    SomeoneAwake(s.producers);
  }

  lemma {:induction false} SomeoneAwake(places: seq<Place>)
    ensures Awake(places) > 0 ==> exists i :: 0 <= i < |places| && places[i] in {Notified, Holding}
  {
    if places != [] {
      var before := places[..|places| - 1];
      SomeoneAwake(before);
      assert forall i :: 0 <= i < |before| ==> before[i] == places[i];
    }
  }

  lemma NextKeepsShape(s: State, step: Step)
    ensures var t := Next(s, step);
      t.max == s.max && |t.workers| == |s.workers| && |t.producers| == |s.producers|
  {
    hide Notify, NotifyAll;
  }

  lemma {:induction false} MaxIsFixed(s: State, steps: seq<Step>)
    ensures var t := From(s, steps);
      t.max == s.max && |t.workers| == |s.workers| && |t.producers| == |s.producers|
    decreases |steps|
  {
    if steps != [] {
      NextKeepsShape(s, steps[0]);
      hide Next;
      MaxIsFixed(Next(s, steps[0]), steps[1..]);
    }
  }

  // ---------------------------------------------------------------------
  // Stop
  // ---------------------------------------------------------------------

  /** How many steps a worker may still make once nobody waits. */
  function Rank(place: Place): nat {
    match place
    case Exited => 0
    case Outside => 1
    case Busy(_) => 2
    case Holding => 3
    case Entering | Notified => 4
    case Deciding | Waiting => 5
  }

  function RankSum(places: seq<Place>): nat {
    if places == [] then 0 else RankSum(places[..|places| - 1]) + Rank(places[|places| - 1])
  }

  lemma {:induction false} RankAfterMove(places: seq<Place>, i: nat, place: Place)
    requires i < |places|
    ensures RankSum(places[i := place]) == RankSum(places) - Rank(places[i]) + Rank(place)
    decreases |places|
  {
    var n := |places| - 1;
    if i < n {
      RankAfterMove(places[..n], i, place);
      assert places[i := place][..n] == places[..n][i := place];
    } else {
      assert places[i := place][..n] == places[..n];
    }
  }

  /** A step of a worker's own loop. */
  predicate ByWorker(step: Step) {
    match step
    case Begin(_) => true
    case Finish(_) => true
    case WorkerCheck(_, _) => true
    case Acquire(t) => t.Worker?
    case Block(t) => t.Worker?
    case WakeUp(t) => t.Worker?
    case _ => false
  }

  /** After the broadcast a worker's step moves it, and only it, closer to its end, and
      no other step moves a worker. */
  lemma ReleasedWorkersMove(s: State, step: Step) returns (w: nat, place: Place)
    requires Locked(s) && Released(s) && s.released
    ensures Next(s, step).released
    ensures if Enabled(s, step) && ByWorker(step) then
        w < |s.workers| && Next(s, step).workers == s.workers[w := place] && Rank(place) < Rank(s.workers[w])
      else Next(s, step).workers == s.workers
  {
    w, place := 0, Outside;
    if Enabled(s, step) {
      match step
      case Begin(i) => w, place := i, Exited;
      case Acquire(t) => w, place := if t.Worker? then t.w else 0, Holding;
      case WorkerCheck(i, chosen) => w, place := i, Checked(s, i, chosen).workers[i];
      case Finish(i) => w, place := i, Outside;
      case _ =>
    }
  }

  lemma ReleasedWorkersAdvance(s: State, step: Step)
    requires Locked(s) && Released(s) && s.released
    ensures Next(s, step).released
    ensures RankSum(Next(s, step).workers)
         <= RankSum(s.workers) - (if Enabled(s, step) && ByWorker(step) then 1 else 0)
  {
    var w, place := ReleasedWorkersMove(s, step);
    hide Next, Locked, Released;
    if Enabled(s, step) && ByWorker(step) {
      RankAfterMove(s.workers, w, place);
    }
  }

  /** How many steps of the run are made by workers. */
  function WorkerSteps(s: State, steps: seq<Step>): nat
    decreases |steps|
  {
    if steps == [] then 0
    else
      (if Enabled(s, steps[0]) && ByWorker(steps[0]) then 1 else 0) + WorkerSteps(Next(s, steps[0]), steps[1..])
  }

  /** However the run goes on after the broadcast, the workers make only so many steps. */
  lemma {:induction false} WorkersRunOut(s: State, steps: seq<Step>)
    requires Valid(s) && s.released
    ensures WorkerSteps(s, steps) + RankSum(From(s, steps).workers) <= RankSum(s.workers)
    decreases |steps|
  {
    if steps != [] {
      NextIsValid(s, steps[0]);
      ReleasedWorkersAdvance(s, steps[0]);
      WorkersRunOut(Next(s, steps[0]), steps[1..]);
    }
  }

  /** And until all have exited or wait inside Run, a worker or the holder of the lock can
      make one. */
  lemma SomeoneCanMove(s: State)
    requires Valid(s) && s.released
    requires exists w :: 0 <= w < |s.workers| && s.workers[w] != Exited && s.producers[w] == Outside
    ensures exists step ::
      Enabled(s, step) && (ByWorker(step) || step.ProducerCheck? || step.Block?)
  {
    var w :| 0 <= w < |s.workers| && s.workers[w] != Exited && s.producers[w] == Outside;
    var chosenWorker, chosenProducer := SomeWaiting(s.workers), SomeWaiting(s.producers);
    if s.lock.Some? {
      match s.lock.value {
        case Worker(h) => assert Enabled(s, WorkerCheck(h, chosenProducer));
        case Producer(h) =>
          assert Enabled(s, if s.producers[h] == Holding then ProducerCheck(h, Entry(0, 0), chosenWorker)
                            else Block(Producer(h)));
      }
    } else {
      assert Enabled(s, if s.workers[w] == Outside then Begin(w)
                        else if s.workers[w].Busy? then Finish(w)
                        else Acquire(Worker(w)));
    }
  }

  function SomeWaiting(places: seq<Place>): (chosen: nat)
    ensures MayChoose(places, chosen)
  {
    if places == [] then 0
    else if places[0] == Waiting then 0
    else
      assert places == [places[0]] + places[1..];
      1 + SomeWaiting(places[1..])
  }

  /** How many entries a worker takes in the run. */
  function TakenBy(s: State, steps: seq<Step>, w: nat): nat
    decreases |steps|
  {
    if steps == [] then 0
    else
      (if Enabled(s, steps[0]) && steps[0].WorkerCheck? && steps[0].w == w && s.queue != [] then 1 else 0)
      + TakenBy(Next(s, steps[0]), steps[1..], w)
  }

  /** On its way into Take. */
  predicate MayTake(place: Place) {
    place == Entering || place == Notified || place == Holding
  }

  lemma ReleasedWorkerTakesLess(s: State, step: Step, w: nat)
    requires Valid(s) && s.released && w < |s.workers|
    ensures var t := Next(s, step);
      && (MayTake(t.workers[w]) ==> MayTake(s.workers[w]))
      && (Enabled(s, step) && step.WorkerCheck? && step.w == w ==> MayTake(s.workers[w]) && !MayTake(t.workers[w]))
  {
    assert forall i :: 0 <= i < |s.workers| ==> s.workers[i] !in {Waiting, Deciding};
  }

  /** After the broadcast each worker takes at most one more entry, and none if it was
      not on its way to one. */
  lemma {:induction false} AtMostOneMore(s: State, steps: seq<Step>, w: nat)
    requires Valid(s) && s.released && w < |s.workers|
    ensures TakenBy(s, steps, w) <= if MayTake(s.workers[w]) then 1 else 0
    decreases |steps|
  {
    if steps != [] {
      NextIsValid(s, steps[0]);
      ReleasedWorkersAdvance(s, steps[0]);
      ReleasedWorkerTakesLess(s, steps[0], w);
      NextKeepsShape(s, steps[0]);
      hide Valid, Next;
      AtMostOneMore(Next(s, steps[0]), steps[1..], w);
    }
  }

  // ---------------------------------------------------------------------
  // What Stop leaves behind
  // ---------------------------------------------------------------------

  /** A state after the broadcast of Stop. */
  predicate Stopped(s: State) {
    Valid(s) && s.released
  }

  lemma StoppedStays(s: State, step: Step)
    requires Stopped(s)
    ensures Stopped(Next(s, step)) && s.accepted <= Next(s, step).accepted
  {
    NextIsValid(s, step);
    ReleasedWorkersAdvance(s, step);
    hide Valid, Notify, NotifyAll;
  }

  lemma {:induction false} EveryRunStaysStopped(s: State, steps: seq<Step>)
    requires Stopped(s)
    ensures Stopped(From(s, steps)) && s.accepted <= From(s, steps).accepted
    ensures From(s, steps).max == s.max
    ensures |From(s, steps).workers| == |s.workers| && |From(s, steps).producers| == |s.producers|
    decreases |steps|
  {
    if steps != [] {
      StoppedStays(s, steps[0]);
      NextKeepsShape(s, steps[0]);
      hide Stopped, Next;
      EveryRunStaysStopped(Next(s, steps[0]), steps[1..]);
    }
  }

  /** The workers on their way into Take. */
  function Takers(workers: seq<Place>): set<nat> {
    set w: nat | w < |workers| && MayTake(workers[w])
  }

  /** Those of the callers that are inside Run. */
  function Inside(producers: seq<Place>, callers: set<nat>): set<nat> {
    set p | p in callers && p < |producers| && producers[p] != Outside
  }

  /** After the broadcast: the free slots and those that workers will still make. One that
      has the lock already, and finds nothing, makes none. */
  function Room(s: State): int {
    s.max - |s.queue| + |Takers(s.workers)| - if s.lock.Some? && s.lock.value.Worker? && s.queue == [] then 1 else 0
  }

  /** A caller that is not among these has the lock and room, and so takes a slot first. */
  predicate Ahead(s: State, callers: set<nat>) {
    s.lock.Some? && s.lock.value.Producer? && s.lock.value.p !in callers && !IsFull(s)
  }

  function Claims(s: State, callers: set<nat>): nat {
    |Inside(s.producers, callers)| + if Ahead(s, callers) then 1 else 0
  }

  lemma SizeAfterChange(before: set<nat>, after: set<nat>, i: nat)
    requires before - {i} == after - {i}
    ensures |after| == |before| - (if i in before then 1 else 0) + if i in after then 1 else 0
  {
    assert |before - {i}| == |before| - if i in before then 1 else 0;
    assert |after - {i}| == |after| - if i in after then 1 else 0;
  }

  lemma TakersAfterMove(places: seq<Place>, w: nat, place: Place)
    requires w < |places|
    ensures |Takers(places[w := place])|
         == |Takers(places)| - (if MayTake(places[w]) then 1 else 0) + if MayTake(place) then 1 else 0
  {
    SizeAfterChange(Takers(places), Takers(places[w := place]), w);
  }

  lemma InsideAfterMove(places: seq<Place>, callers: set<nat>, p: nat, place: Place)
    requires p < |places|
    ensures |Inside(places[p := place], callers)|
         == |Inside(places, callers)| - (if p in callers && places[p] != Outside then 1 else 0)
                                      + if p in callers && place != Outside then 1 else 0
  {
    SizeAfterChange(Inside(places, callers), Inside(places[p := place], callers), p);
  }

  lemma InsideAfterNotify(places: seq<Place>, callers: set<nat>, chosen: nat)
    ensures Inside(Notify(places, chosen), callers) == Inside(places, callers)
  {
    NotifyLeavesOthers(places, chosen);
  }

  /** What the thread with the lock does next. */
  predicate ByHolder(step: Step) {
    step.WorkerCheck? || step.ProducerCheck? || step.Block?
  }

  /** A worker is on its way into Take until its check. */
  lemma TakersStep(s: State, step: Step)
    requires Stopped(s)
    ensures |Takers(Next(s, step).workers)|
         == |Takers(s.workers)| - if Enabled(s, step) && step.WorkerCheck? then 1 else 0
  {
    if Enabled(s, step) {
      match step {
        case Begin(w) => TakersAfterMove(s.workers, w, Exited);
        case Acquire(t) => if t.Worker? { TakersAfterMove(s.workers, t.w, Holding); }
        case WorkerCheck(w, _) =>
          TakersAfterMove(s.workers, w, if s.queue == [] then Outside else Busy(s.queue[0]));
        case Finish(w) => TakersAfterMove(s.workers, w, Outside);
        case ProducerCheck(_, _, chosen) => assert Notify(s.workers, chosen) == s.workers;
        case Broadcast => assert NotifyAll(s.workers) == s.workers;
        case _ =>
      }
    }
    hide Takers, Locked, Attended, ProducersCall, TasksCall, Fifo, Notify, NotifyAll;
  }

  /** No step makes room, other than by what it takes from the bound on entries to come. */
  lemma RoomStep(s: State, step: Step)
    requires Stopped(s)
    ensures var t := Next(s, step);
      if ByHolder(step) then |t.accepted| + Room(t) == |s.accepted| + Room(s)
      else |t.accepted| + Room(t) <= |s.accepted| + Room(s)
  {
    TakersStep(s, step);
    if Enabled(s, step) {
      match step {
        case WorkerCheck(i, _) => assert s.lock == Some(Worker(i));
        case ProducerCheck(p, _, _) => assert s.lock == Some(Producer(p));
        case Block(thread) => assert PlaceOf(s, thread) == Deciding && s.lock == Some(thread);
        case _ =>
      }
    }
    hide Takers, Attended, ProducersCall, TasksCall, Fifo, Notify, NotifyAll;
  }

  /** Every claim to a slot is made good by an entry or lasts. */
  lemma ClaimsStep(s: State, step: Step, callers: set<nat>)
    requires Stopped(s)
    ensures var t := Next(s, step);
      if ByHolder(step) then |t.accepted| + Claims(t, callers) == |s.accepted| + Claims(s, callers)
      else |t.accepted| + Claims(t, callers) >= |s.accepted| + Claims(s, callers)
  {
    if Enabled(s, step) {
      match step {
        case Arrive(p) => InsideAfterMove(s.producers, callers, p, Entering);
        case Call(p) => InsideAfterMove(s.producers, callers, p, Entering);
        case Acquire(t) => if t.Producer? { InsideAfterMove(s.producers, callers, t.p, Holding); }
        case WakeUp(t) => if t.Producer? { InsideAfterMove(s.producers, callers, t.p, Notified); }
        case Block(t) => if t.Producer? { InsideAfterMove(s.producers, callers, t.p, Waiting); }
        case WorkerCheck(_, chosen) => InsideAfterNotify(s.producers, callers, chosen);
        case ProducerCheck(p, _, _) => InsideAfterMove(s.producers, callers, p, if IsFull(s) then Deciding else Outside);
        case _ =>
      }
    }
    hide Inside, Attended, ProducersCall, TasksCall, Fifo, Notify, NotifyAll;
  }

  lemma RoomIsLeft(s: State, callers: set<nat>)
    requires Stopped(s) && s.max > 0
    ensures Room(s) >= if Ahead(s, callers) then 1 else 0
  {
    if s.lock.Some? && s.lock.value.Worker? {
      assert HasLock(s.workers[s.lock.value.w]);
      assert s.lock.value.w in Takers(s.workers);
    }
  }

  /** However the run goes on, that many entries are still queued and no more. */
  lemma {:induction false} AcceptedAtMostRoom(s: State, steps: seq<Step>)
    requires Stopped(s)
    ensures |From(s, steps).accepted| + Room(From(s, steps)) <= |s.accepted| + Room(s)
    ensures s.max > 0 ==> |From(s, steps).accepted| <= |s.accepted| + Room(s)
    decreases |steps|
  {
    EveryRunStaysStopped(s, steps);
    if s.max > 0 {
      RoomIsLeft(From(s, steps), {});
    }
    if steps != [] {
      StoppedStays(s, steps[0]);
      RoomStep(s, steps[0]);
      NextKeepsShape(s, steps[0]);
      hide Stopped, Room, Next;
      AcceptedAtMostRoom(Next(s, steps[0]), steps[1..]);
    }
  }

  /** Nor does a claim go away but by an entry that is queued. */
  lemma {:induction false} ClaimsLast(s: State, steps: seq<Step>, callers: set<nat>)
    requires Stopped(s)
    ensures |From(s, steps).accepted| + Claims(From(s, steps), callers) >= |s.accepted| + Claims(s, callers)
    decreases |steps|
  {
    if steps != [] {
      StoppedStays(s, steps[0]);
      ClaimsStep(s, steps[0], callers);
      hide Stopped, Claims, Next;
      ClaimsLast(Next(s, steps[0]), steps[1..], callers);
    }
  }

  /** With the lock, a thread gives it up in at most two steps. */
  lemma FreeLock(s: State, callers: set<nat>) returns (t: State)
    requires Stopped(s)
    ensures Leads(Next, s, t) && Stopped(t) && t.lock.None?
    ensures t.max == s.max && |t.workers| == |s.workers| && |t.producers| == |s.producers|
    ensures |t.accepted| + Room(t) == |s.accepted| + Room(s)
    ensures |t.accepted| + Claims(t, callers) == |s.accepted| + Claims(s, callers)
    ensures s.accepted <= t.accepted
    decreases if s.lock.None? then 0 else if PlaceOf(s, s.lock.value) == Deciding then 1 else 2
  {
    LeadsToSelf(Next, s);
    if s.lock.None? {
      t := s;
    } else {
      var step := HolderStep(s);
      HolderGivesUp(s);
      StoppedStays(s, step);
      RoomStep(s, step);
      ClaimsStep(s, step, callers);
      NextKeepsShape(s, step);
      LeadsByStep(Next, s, s, step);
      hide Stopped, Room, Claims, Next, HolderStep, Leads;
      t := FreeLock(Next(s, step), callers);
      LeadsOn(Next, s, Next(s, step), t);
    }
  }

  function HolderStep(s: State): Step
    requires s.lock.Some? && Exists(s, s.lock.value)
  {
    match s.lock.value
    case Worker(w) => WorkerCheck(w, SomeWaiting(s.producers))
    case Producer(p) =>
      if s.producers[p] == Deciding then Block(Producer(p))
      else ProducerCheck(p, Entry(0, 0), SomeWaiting(s.workers))
  }

  lemma HolderGivesUp(s: State)
    requires Stopped(s) && s.lock.Some?
    ensures Exists(s, s.lock.value) && ByHolder(HolderStep(s)) && Enabled(s, HolderStep(s))
    ensures var t := Next(s, HolderStep(s));
      t.lock.None? || (t.lock == s.lock && PlaceOf(s, s.lock.value) != Deciding && PlaceOf(t, t.lock.value) == Deciding)
  {
    assert HasLock(PlaceOf(s, s.lock.value));
    hide Attended, Fifo, ProducersCall, TasksCall, Notify;
  }

  /** With the lock free and room, a caller gets its entry queued. */
  lemma PushBy(s: State, p: nat) returns (t: State)
    requires Stopped(s) && s.lock.None? && !IsFull(s) && p < |s.producers|
    requires s.producers[p] == Outside ==> |s.workers| <= p && s.workers != []
    ensures Leads(Next, s, t) && Stopped(t)
    ensures t == s.(queue := s.queue + [Entry(0, 0)], accepted := s.accepted + [Entry(0, 0)],
                    producers := s.producers[p := Outside])
    decreases s.producers[p] == Outside, s.producers[p] == Waiting
  {
    LeadsToSelf(Next, s);
    assert HasLock(s.producers[p]) <==> s.lock == Some(Producer(p));
    if s.producers[p] in {Outside, Waiting} {
      var step := if s.producers[p] == Outside then Arrive(p) else WakeUp(Producer(p));
      StoppedStays(s, step);
      LeadsByStep(Next, s, s, step);
      hide Leads, Stopped, Next;
      t := PushBy(Next(s, step), p);
      LeadsOn(Next, s, Next(s, step), t);
    } else {
      assert s.producers[p] in {Entering, Notified};
      var u := Next(s, Acquire(Producer(p)));
      StoppedStays(s, Acquire(Producer(p)));
      LeadsByStep(Next, s, s, Acquire(Producer(p)));
      assert u == s.(producers := s.producers[p := Holding], lock := Some(Producer(p)));
      hide Leads;
      t := PushHolding(s, u, p);
      assert s.producers[p := Holding][p := Outside] == s.producers[p := Outside];
    }
  }

  lemma PushHolding(start: State, s: State, p: nat) returns (t: State)
    requires Leads(Next, start, s) && Stopped(s) && !IsFull(s) && p < |s.producers| && s.producers[p] == Holding
    ensures Leads(Next, start, t) && Stopped(t)
    ensures t == s.(queue := s.queue + [Entry(0, 0)], accepted := s.accepted + [Entry(0, 0)],
                    producers := s.producers[p := Outside], lock := None)
  {
    var step := ProducerCheck(p, Entry(0, 0), SomeWaiting(s.workers));
    t := Next(s, step);
    StoppedStays(s, step);
    LeadsByStep(Next, start, s, step);
  }

  /** With the lock free, a worker on its way into Take takes an entry out. */
  lemma PopBy(s: State, w: nat) returns (t: State)
    requires Stopped(s) && s.lock.None? && s.queue != [] && w in Takers(s.workers)
    ensures Leads(Next, s, t) && Stopped(t) && t.lock.None?
    ensures t.workers == s.workers[w := Busy(s.queue[0])] && t.queue == s.queue[1..]
    ensures t.max == s.max && t.accepted == s.accepted && |t.producers| == |s.producers|
    ensures forall callers :: Inside(t.producers, callers) == Inside(s.producers, callers)
  {
    assert HasLock(s.workers[w]) <==> s.lock == Some(Worker(w));
    LeadsToSelf(Next, s);
    var u := Next(s, Acquire(Worker(w)));
    StoppedStays(s, Acquire(Worker(w)));
    LeadsByStep(Next, s, s, Acquire(Worker(w)));
    assert u == s.(workers := s.workers[w := Holding], lock := Some(Worker(w)));
    hide Leads, Stopped;
    var chosen := SomeWaiting(s.producers);
    t := Next(u, WorkerCheck(w, chosen));
    StoppedStays(u, WorkerCheck(w, chosen));
    LeadsByStep(Next, s, u, WorkerCheck(w, chosen));
    forall callers
      ensures Inside(t.producers, callers) == Inside(s.producers, callers)
    {
      InsideAfterNotify(s.producers, callers, chosen);
    }
  }

  /** With the lock free, callers without more claims than there is room get through. */
  lemma ServeFree(s: State, callers: set<nat>) returns (t: State)
    requires Stopped(s) && s.lock.None? && (s.max == 0 || Claims(s, callers) <= Room(s))
    ensures Leads(Next, s, t) && Stopped(t) && t.lock.None? && Inside(t.producers, callers) == {}
    ensures |t.workers| == |s.workers|
    decreases |Inside(s.producers, callers)|, |Takers(s.workers)|
  {
    LeadsToSelf(Next, s);
    hide Leads, Stopped;
    if Inside(s.producers, callers) == {} {
      t := s;
    } else {
      var p :| p in Inside(s.producers, callers);
      var u;
      if !IsFull(s) {
        u := PushBy(s, p);
        InsideAfterMove(s.producers, callers, p, Outside);
      } else {
        u := PopTaker(s);
        assert Inside(u.producers, callers) == Inside(s.producers, callers);
      }
      hide Inside, Takers;
      t := ServeFree(u, callers);
      LeadsOn(Next, s, u, t);
    }
  }

  /** In a full queue the room is what workers will make. */
  lemma PopTaker(s: State) returns (t: State)
    requires Stopped(s) && s.lock.None? && IsFull(s) && Room(s) > 0
    ensures Leads(Next, s, t) && Stopped(t) && t.lock.None? && !IsFull(t) && |t.workers| == |s.workers|
    ensures t.max == s.max && t.accepted == s.accepted && |t.producers| == |s.producers|
    ensures Room(t) == Room(s) && |Takers(t.workers)| < |Takers(s.workers)|
    ensures forall callers :: Inside(t.producers, callers) == Inside(s.producers, callers)
  {
    assert |Takers(s.workers)| > 0;
    var w :| w in Takers(s.workers);
    t := PopBy(s, w);
    TakersAfterMove(s.workers, w, Busy(s.queue[0]));
    assert |s.queue| <= s.max;
  }

  /** With the lock free, a caller that is not a worker gets as many entries queued. */
  lemma FillFree(s: State, p: nat, more: nat) returns (t: State)
    requires Stopped(s) && s.lock.None? && 0 < |s.workers| <= p < |s.producers|
    requires s.max == 0 || more <= Room(s)
    ensures Leads(Next, s, t) && |t.accepted| == |s.accepted| + more
    decreases more, |Takers(s.workers)|
  {
    LeadsToSelf(Next, s);
    hide Leads, Stopped, Takers;
    if more == 0 {
      t := s;
    } else if IsFull(s) {
      var u := PopTaker(s);
      t := FillFree(u, p, more);
      LeadsOn(Next, s, u, t);
    } else {
      var u := PushBy(s, p);
      t := FillFree(u, p, more - 1);
      LeadsOn(Next, s, u, t);
    }
  }

  /** Some continuation queues that many entries more. */
  ghost predicate CanQueue(s: State, more: nat) {
    exists steps :: |From(s, steps).accepted| >= |s.accepted| + more
  }

  /** After the broadcast, calls of Run get exactly as many entries queued as there is room
      for, however many are made. */
  lemma QueuesExactlyWhen(s: State, more: nat)
    requires Stopped(s) && 0 < |s.workers| < |s.producers|
    ensures CanQueue(s, more) <==> s.max == 0 || more <= Room(s)
  {
    if s.max == 0 || more <= Room(s) {
      var t := FreeLock(s, {});
      var already := |t.accepted| - |s.accepted|;
      var u := FillFree(t, |s.workers|, if already <= more then more - already else 0);
      LeadsOn(Next, s, t, u);
      var steps :| After(Next, s, steps) == u;
      assert From(s, steps) == u;
    } else {
      forall steps
        ensures |From(s, steps).accepted| < |s.accepted| + more
      {
        AcceptedAtMostRoom(s, steps);
      }
    }
  }

  /** One more entry can be queued exactly when there is a slot, or a worker is on its way
      to make one. */
  lemma AcceptsExactlyWhen(s: State)
    requires Stopped(s) && 0 < |s.workers| < |s.producers|
    ensures CanQueue(s, 1) <==> !IsFull(s) || Takers(s.workers) != {}
  {
    QueuesExactlyWhen(s, 1);
    if s.lock.Some? && s.lock.value.Worker? {
      assert HasLock(s.workers[s.lock.value.w]);
      assert s.lock.value.w in Takers(s.workers);
    }
  }

  /** Some continuation gets all of the callers out of Run. */
  ghost predicate CanServe(s: State, callers: set<nat>) {
    exists steps :: Inside(From(s, steps).producers, callers) == {}
  }

  /** After the broadcast, any set of callers, workers in nested calls among them, can get
      out of Run exactly when the queue is unbounded or they claim no more than the room. */
  lemma ServesExactlyWhen(s: State, callers: set<nat>)
    requires Stopped(s)
    ensures CanServe(s, callers) <==> s.max == 0 || Claims(s, callers) <= Room(s)
  {
    if s.max == 0 || Claims(s, callers) <= Room(s) {
      var t := FreeLock(s, callers);
      var u := ServeFree(t, callers);
      LeadsOn(Next, s, t, u);
      var steps :| After(Next, s, steps) == u;
      assert From(s, steps) == u;
    } else {
      forall steps
        ensures Inside(From(s, steps).producers, callers) != {}
      {
        SomeStayInside(s, steps, callers);
      }
    }
  }

  /** In every state of every continuation at least as many are inside Run as exceed the
      room. */
  lemma SomeStayInside(s: State, steps: seq<Step>, callers: set<nat>)
    requires Stopped(s) && s.max > 0
    ensures |Inside(From(s, steps).producers, callers)| >= Claims(s, callers) - Room(s)
  {
    AcceptedAtMostRoom(s, steps);
    ClaimsLast(s, steps, callers);
    EveryRunStaysStopped(s, steps);
    RoomIsLeft(From(s, steps), callers);
  }

  /** After the broadcast, with the queue full and no worker on its way into Take, no call
      of Run gets its entry queued any more. */
  lemma FullForGood(s: State, steps: seq<Step>)
    requires Stopped(s) && IsFull(s) && Takers(s.workers) == {}
    ensures From(s, steps).accepted == s.accepted
  {
    AcceptedAtMostRoom(s, steps);
    EveryRunStaysStopped(s, steps);
  }

  predicate AllExited(s: State) {
    forall w :: 0 <= w < |s.workers| ==> s.workers[w] == Exited
  }

  /** Some continuation ends all workers, for which Stop waits. */
  ghost predicate CanJoin(s: State) {
    exists steps :: AllExited(From(s, steps))
  }

  /** The numbers of the workers, and so of their nested calls. */
  function Tasks(s: State): set<nat> {
    Below(|s.workers|)
  }

  function Below(n: nat): (numbers: set<nat>)
    ensures forall i: nat :: i in numbers <==> i < n
  {
    if n == 0 then {} else Below(n - 1) + {n - 1}
  }

  /** With no task inside Run, the workers finish. */
  lemma FinishAll(s: State) returns (t: State)
    requires Stopped(s) && Inside(s.producers, Tasks(s)) == {}
    ensures Leads(Next, s, t) && AllExited(t)
    decreases RankSum(s.workers),
      if s.lock.None? || s.lock.value.Worker? then 0 else if PlaceOf(s, s.lock.value) == Deciding then 1 else 2
  {
    LeadsToSelf(Next, s);
    if AllExited(s) {
      t := s;
    } else {
      var step := TowardsExit(s);
      StoppedStays(s, step);
      ReleasedWorkersAdvance(s, step);
      LeadsByStep(Next, s, s, step);
      hide Leads, Stopped, Next;
      t := FinishAll(Next(s, step));
      LeadsOn(Next, s, Next(s, step), t);
    }
  }

  lemma TowardsExit(s: State) returns (step: Step)
    requires Stopped(s) && Inside(s.producers, Tasks(s)) == {} && !AllExited(s)
    ensures Enabled(s, step) && Inside(Next(s, step).producers, Tasks(Next(s, step))) == {}
    ensures ByWorker(step) || (
      && s.lock.Some? && s.lock.value.Producer?
      && (Next(s, step).lock.None?
          || (Next(s, step).lock == s.lock && PlaceOf(s, s.lock.value) != Deciding
              && PlaceOf(Next(s, step), s.lock.value) == Deciding)))
  {
    var w :| 0 <= w < |s.workers| && s.workers[w] != Exited;
    assert w !in Inside(s.producers, Tasks(s)) && w in Tasks(s);
    if s.lock.Some? {
      HolderGivesUp(s);
      step := HolderStep(s);
    } else {
      assert !HasLock(s.workers[w]);
      step := if s.workers[w] == Outside then Begin(w) else if s.workers[w].Busy? then Finish(w) else Acquire(Worker(w));
    }
    NotInsideStays(s, step);
  }

  lemma NotInsideStays(s: State, step: Step)
    requires Valid(s) && Inside(s.producers, Tasks(s)) == {} && !step.Call?
    ensures Inside(Next(s, step).producers, Tasks(Next(s, step))) == {}
  {
    NextKeepsShape(s, step);
    forall w: nat | w < |s.workers|
      ensures Next(s, step).producers[w] == Outside
    {
      assert w !in Inside(s.producers, Tasks(s)) && w in Tasks(s);
      OutsideStays(s, step, w);
    }
    hide Valid, Next;
  }

  /** After the broadcast the joins of Stop can return exactly when the queue is unbounded
      or the tasks that are inside Run themselves claim no more than the room. */
  lemma JoinsExactlyWhen(s: State)
    requires Stopped(s)
    ensures CanJoin(s) <==> s.max == 0 || Claims(s, Tasks(s)) <= Room(s)
  {
    if s.max == 0 || Claims(s, Tasks(s)) <= Room(s) {
      var t := FreeLock(s, Tasks(s));
      var u := ServeFree(t, Tasks(s));
      var v := FinishAll(u);
      LeadsOn(Next, s, t, u);
      LeadsOn(Next, s, u, v);
      var steps :| After(Next, s, steps) == v;
      assert From(s, steps) == v;
    } else {
      forall steps
        ensures !AllExited(From(s, steps))
      {
        var t := From(s, steps);
        EveryRunStaysStopped(s, steps);
        SomeStayInside(s, steps, Tasks(s));
        var w :| w in Inside(t.producers, Tasks(s));
        assert t.workers[w].Busy?;
      }
    }
  }

  /** Without nested calls they always can. */
  lemma JoinsWithoutNestedCalls(s: State)
    requires Stopped(s) && forall w :: 0 <= w < |s.workers| ==> s.producers[w] == Outside
    ensures CanJoin(s)
  {
    assert Inside(s.producers, Tasks(s)) == {};
    if s.max > 0 {
      RoomIsLeft(s, Tasks(s));
    }
    JoinsExactlyWhen(s);
  }

  /** What workers will not get to: none of them takes more than one entry. */
  function Unrun(s: State): nat {
    if |s.queue| > |Takers(s.workers)| then |s.queue| - |Takers(s.workers)| else 0
  }

  lemma UnrunStep(s: State, step: Step)
    requires Stopped(s)
    ensures var t := Next(s, step);
      && |t.queue| - |Takers(t.workers)| - |t.accepted| >= |s.queue| - |Takers(s.workers)| - |s.accepted|
      && (t.accepted == s.accepted ==> Unrun(t) == Unrun(s))
  {
    TakersStep(s, step);
    if Enabled(s, step) && step.WorkerCheck? {
      assert step.w in Takers(s.workers);
    }
    hide Takers, Attended, Locked, ProducersCall, TasksCall, Fifo, Notify, NotifyAll;
  }

  lemma {:induction false} UnrunStays(s: State, steps: seq<Step>)
    requires Stopped(s)
    ensures var t := From(s, steps);
      && |t.queue| - |Takers(t.workers)| - |t.accepted| >= |s.queue| - |Takers(s.workers)| - |s.accepted|
      && (t.accepted == s.accepted ==> Unrun(t) == Unrun(s))
    decreases |steps|
  {
    if steps != [] {
      var u := Next(s, steps[0]);
      StoppedStays(s, steps[0]);
      UnrunStep(s, steps[0]);
      EveryRunStaysStopped(u, steps[1..]);
      hide Stopped, Unrun, Takers, Next;
      UnrunStays(u, steps[1..]);
    }
  }

  /** When the workers have ended, the queue keeps at least what was queued beyond one
      entry for each worker on its way at the broadcast, and if nothing was queued after
      it, exactly that; it is the end of what was accepted, and never runs. */
  lemma StopLeaves(s: State, steps: seq<Step>)
    requires Stopped(s) && AllExited(From(s, steps))
    ensures var t := From(s, steps);
      && |t.queue| >= |s.queue| + (|t.accepted| - |s.accepted|) - |Takers(s.workers)|
      && (t.accepted == s.accepted ==>
            |t.queue| == if |s.queue| > |Takers(s.workers)| then |s.queue| - |Takers(s.workers)| else 0)
      && t.taken + t.queue == t.accepted
  {
    UnrunStays(s, steps);
    EveryRunStaysStopped(s, steps);
    assert Takers(From(s, steps).workers) == {};
  }

  lemma CallerGetsLock(start: State, s: State, p: nat) returns (t: State)
    requires Leads(Next, start, s) && Valid(s) && s.lock.None?
    requires s.workers != [] && p < |s.producers| && s.producers[p] == Outside
    requires p < |s.workers| ==> s.workers[p].Busy?
    ensures Leads(Next, start, t) && Valid(t)
    ensures t == s.(producers := s.producers[p := Holding], lock := Some(Producer(p)))
  {
    hide Valid, Leads;
    var a := OneMore(start, s, if p < |s.workers| then Call(p) else Arrive(p));
    assert a == s.(producers := s.producers[p := Entering]);
    t := OneMore(start, a, Acquire(Producer(p)));
    assert s.producers[p := Entering][p := Holding] == s.producers[p := Holding];
  }

  /** A call of Run up to its check of the queue. */
  lemma CallerChecks(start: State, s: State, p: nat, entry: Entry) returns (t: State)
    requires Leads(Next, start, s) && Valid(s) && s.lock.None? && Waiting !in s.workers
    requires s.workers != [] && p < |s.producers| && s.producers[p] == Outside
    requires p < |s.workers| ==> s.workers[p].Busy?
    ensures Leads(Next, start, t) && Valid(t)
    ensures t == if IsFull(s) then s.(producers := s.producers[p := Deciding], lock := Some(Producer(p)))
                 else s.(queue := s.queue + [entry], accepted := s.accepted + [entry])
  {
    hide Valid, Leads;
    var a := CallerGetsLock(start, s, p);
    t := OneMore(start, a, ProducerCheck(p, entry, 0));
    assert s.producers[p := Holding][p := Outside] == s.producers;
    assert s.producers[p := Holding][p := Deciding] == s.producers[p := Deciding];
  }

  /** A turn of a worker's loop up to the entry it takes. */
  lemma WorkerTakes(start: State, s: State, w: nat) returns (t: State)
    requires Leads(Next, start, s) && Valid(s) && s.lock.None? && Waiting !in s.producers
    requires s.running && s.queue != [] && w < |s.workers| && s.workers[w] == Outside
    ensures Leads(Next, start, t) && Valid(t)
    ensures t == s.(workers := s.workers[w := Busy(s.queue[0])], queue := s.queue[1..],
                    taken := s.taken + [s.queue[0]])
  {
    hide Valid, Leads;
    var a := OneMore(start, s, Begin(w));
    assert a == s.(workers := s.workers[w := Entering]);
    var b := OneMore(start, a, Acquire(Worker(w)));
    assert b == s.(workers := s.workers[w := Entering][w := Holding], lock := Some(Worker(w)));
    t := OneMore(start, b, WorkerCheck(w, 0));
    assert s.workers[w := Entering][w := Holding][w := Busy(s.queue[0])] == s.workers[w := Busy(s.queue[0])];
  }

  /** Stop while a caller is about to wait, up to the broadcast. */
  lemma CallerWaitsAtStop(start: State, s: State, p: nat) returns (t: State)
    requires Leads(Next, start, s) && Valid(s) && s.running && Waiting !in s.workers
    requires p < |s.producers| && s.producers[p] == Deciding
    ensures Leads(Next, start, t) && Valid(t)
    ensures t == s.(running := false, released := true, producers := s.producers[p := Waiting], lock := None)
  {
    hide Valid, Leads;
    var a := OneMore(start, s, Block(Producer(p)));
    var b := OneMore(start, a, SetStop);
    assert NotifyAll(s.workers) == s.workers;
    t := OneMore(start, b, Broadcast);
  }

  /** One worker, which leaves before it takes the entry, a queue of one, and a second call. */
  lemma WorkerLeavesFirst(e: Entry) returns (s: State)
    ensures Leads(Next, Start(1, 1, 1), s) && Valid(s)
    ensures s == State(false, 1, [e], None, [Exited], [Outside, Waiting], true, [e], [], [])
  {
    var start := Start(1, 1, 1);
    assert start == State(true, 1, [], None, [Outside], [Outside, Outside], false, [], [], []);
    StartIsValid(1, 1, 1);
    LeadsToSelf(Next, start);
    hide Valid, Leads, Start;
    var filled := CallerChecks(start, start, 1, e);
    var full := CallerChecks(start, filled, 1, e);
    var stopped := CallerWaitsAtStop(start, full, 1);
    s := OneMore(start, stopped, Begin(0));
    assert s == stopped.(workers := [Outside][0 := Exited]);
  }

  /** Stop can leave a caller of Run waiting for good. */
  lemma StopCanStrandAProducer() returns (s: State)
    ensures Leads(Next, Start(1, 1, 1), s) && Stopped(s)
    ensures s.workers == [Exited] && IsFull(s) && s.producers == [Outside, Waiting]
    ensures forall steps :: From(s, steps).accepted == s.accepted && Inside(From(s, steps).producers, {1}) == {1}
  {
    s := WorkerLeavesFirst(Entry(0, 7));
    hide Valid, Leads, Next;
    assert Takers(s.workers) == {} && Inside(s.producers, {1}) == {1};
    forall steps
      ensures From(s, steps).accepted == s.accepted && Inside(From(s, steps).producers, {1}) == {1}
    {
      FullForGood(s, steps);
      SomeStayInside(s, steps, {1});
      OnlyOne(Inside(From(s, steps).producers, {1}), 1);
    }
  }

  lemma OnlyOne(numbers: set<nat>, n: nat)
    requires numbers <= {n} && |numbers| > 0
    ensures numbers == {n}
  {
    var i :| i in numbers;
  }

  /** One worker and a queue of one: the worker's task calls Run while the queue is full. */
  lemma TaskCallsWhenFull(e: Entry) returns (s: State)
    ensures Leads(Next, Start(1, 1, 1), s) && Valid(s)
    ensures s == State(true, 1, [e], Some(Producer(0)), [Busy(e)], [Deciding, Outside], false, [e, e], [e], [])
  {
    var start := Start(1, 1, 1);
    assert start == State(true, 1, [], None, [Outside], [Outside, Outside], false, [], [], []);
    StartIsValid(1, 1, 1);
    LeadsToSelf(Next, start);
    hide Valid, Leads, Start, Next;
    var filled := CallerChecks(start, start, 1, e);
    var taken := WorkerTakes(start, filled, 0);
    assert taken == State(true, 1, [], None, [Busy(e)], [Outside, Outside], false, [e], [e], []);
    var again := CallerChecks(start, taken, 1, e);
    assert again == State(true, 1, [e], None, [Busy(e)], [Outside, Outside], false, [e, e], [e], []);
    s := CallerChecks(start, again, 0, e);
  }

  /** And Stop itself can wait for good, for that task. */
  lemma StopCanWaitForGood() returns (s: State)
    ensures Leads(Next, Start(1, 1, 1), s) && Stopped(s)
    ensures s.workers == [Busy(Entry(0, 7))] && IsFull(s) && s.producers == [Waiting, Outside]
    ensures !CanJoin(s)
  {
    var e := Entry(0, 7);
    var full := TaskCallsWhenFull(e);
    s := CallerWaitsAtStop(Start(1, 1, 1), full, 0);
    hide Valid, Leads, Start;
    assert s == State(false, 1, [e], None, [Busy(e)], [Waiting, Outside], true, [e, e], [e], []);
    assert Takers(s.workers) == {};
    assert 0 in Inside(s.producers, Tasks(s));
    JoinsExactlyWhen(s);
  }

  lemma OneMore(start: State, s: State, step: Step) returns (t: State)
    requires Leads(Next, start, s) && Valid(s)
    ensures t == Next(s, step) && Leads(Next, start, t) && Valid(t)
  {
    t := Next(s, step);
    LeadsByStep(Next, start, s, step);
    NextIsValid(s, step);
  }

  // ---------------------------------------------------------------------
  // The pool
  // ---------------------------------------------------------------------

  /** A step that another thread makes, or a spurious wakeup. */
  predicate OfOthers(step: Step, t: Thread) {
    match step
    case Begin(w) => t != Worker(w)
    case Arrive(p) => t != Producer(p)
    case RunInline(p, _) => t != Producer(p)
    case Acquire(u) => t != u
    case WorkerCheck(w, _) => t != Worker(w)
    case ProducerCheck(p, _, _) => t != Producer(p)
    case Block(u) => t != u
    case Call(w) => t != Worker(w) && t != Producer(w)
    case Finish(w) => t != Worker(w)
    case WakeUp(_) => true
    case SetStop => true
    case Broadcast => true
  }

  predicate AllOfOthers(steps: seq<Step>, t: Thread) {
    forall step :: step in steps ==> OfOthers(step, t)
  }

  lemma OthersOnlyNotify(s: State, step: Step, t: Thread)
    requires Exists(s, t) && OfOthers(step, t)
    ensures Exists(Next(s, step), t)
    ensures PlaceOf(Next(s, step), t) == PlaceOf(s, t)
         || (PlaceOf(s, t) == Waiting && PlaceOf(Next(s, step), t) == Notified)
  {
  }

  lemma {:induction false} OthersOnlyNotifyRun(s: State, steps: seq<Step>, t: Thread)
    requires Exists(s, t) && AllOfOthers(steps, t)
    ensures Exists(From(s, steps), t)
    ensures PlaceOf(From(s, steps), t) == PlaceOf(s, t)
         || (PlaceOf(s, t) == Waiting && PlaceOf(From(s, steps), t) == Notified)
    decreases |steps|
  {
    if steps != [] {
      assert steps[0] in steps;
      OthersOnlyNotify(s, steps[0], t);
      hide Next, Exists, PlaceOf, OfOthers;
      OthersOnlyNotifyRun(Next(s, steps[0]), steps[1..], t);
    }
  }

  function Others(t: Thread): Step -> bool {
    step => OfOthers(step, t)
  }

  predicate IsNotStop(step: Step) {
    !step.SetStop? && !step.Broadcast?
  }

  /** A run of the machine in which just that was made by others. */
  ghost predicate Makes(others: Step -> bool, s: State, t: State, made: seq<Step>) {
    LeadsWith(Next, others, s, t, made)
  }

  lemma MakesNothing(others: Step -> bool, s: State)
    ensures Makes(others, s, s, [])
  {
    LeadsWithNothing(Next, others, s);
  }

  lemma MakesStep(others: Step -> bool, s: State, t: State, made: seq<Step>, step: Step)
    requires Makes(others, s, t, made) && Valid(t) && !others(step)
    ensures Makes(others, s, Next(t, step), made) && Valid(Next(t, step))
  {
    LeadsWithStep(Next, others, s, t, made, step);
    NextIsValid(t, step);
  }

  lemma MakesRun(others: Step -> bool, s: State, t: State, made: seq<Step>, steps: seq<Step>)
    requires Makes(others, s, t, made) && Valid(t)
    ensures Makes(others, s, From(t, steps), made + OfKind(others, steps)) && Valid(From(t, steps))
  {
    LeadsWithRun(Next, others, s, t, made, steps);
    EveryRunIsValid(t, steps);
  }

  /** What others make in the first n turns. */
  function Made(others: Step -> bool, schedule: seq<seq<Step>>, n: nat): seq<Step> {
    OfKind(others, Joined(schedule, n))
  }

  lemma MadeInTurn(others: Step -> bool, schedule: seq<seq<Step>>, n: nat)
    requires n < |schedule|
    ensures Made(others, schedule, n + 1) == Made(others, schedule, n) + OfKind(others, schedule[n])
  {
    OfKindInNext(others, schedule, n);
  }

  class ThreadPool {
    const max: nat
    var running: bool
    var queue: seq<Entry>
    var lock: Option<Thread>
    var workers: seq<Place>
    var producers: seq<Place>
    var released: bool
    ghost var accepted: seq<Entry>
    ghost var taken: seq<Entry>
    var inline: seq<Entry>

    ghost function Contents(): State
      reads this
    {
      State(running, max, queue, lock, workers, producers, released, accepted, taken, inline)
    }

    constructor (max: nat, numWorkers: nat, numCallers: nat)
      ensures Contents() == Start(max, numWorkers, numCallers)
    {
      this.max := max;
      running, queue, lock, released := true, [], None, false;
      workers, producers := seq(numWorkers, _ => Outside), seq(numWorkers + numCallers, _ => Outside);
      accepted, taken, inline := [], [], [];
    }

    method Move(t: Thread, place: Place)
      requires Exists(Contents(), t)
      modifies this`workers, this`producers
      ensures Contents() == Moved(old(Contents()), t, place)
    {
      match t
      case Worker(w) => workers := workers[w := place];
      case Producer(p) => producers := producers[p := place];
    }

    method AcquireLock(t: Thread)
      requires Enabled(Contents(), Acquire(t))
      modifies this`workers, this`producers, this`lock
      ensures Contents() == Next(old(Contents()), Acquire(t))
    {
      Move(t, Holding);
      lock := Some(t);
    }

    /** Condition::Wait gives the lock up. */
    method Wait(t: Thread)
      requires Enabled(Contents(), Block(t))
      modifies this`workers, this`producers, this`lock
      ensures Contents() == Next(old(Contents()), Block(t))
    {
      Move(t, Waiting);
      lock := None;
    }

    /** Take with the lock held: wait, leave with an entry, or leave without one. */
    method CheckQueue(w: nat, chosen: nat) returns (wait: bool, entry: Option<Entry>)
      requires Enabled(Contents(), WorkerCheck(w, chosen))
      modifies this`workers, this`producers, this`queue, this`lock, this`taken
      ensures Contents() == Next(old(Contents()), WorkerCheck(w, chosen))
      ensures wait <==> old(queue) == [] && running
      ensures entry == if old(queue) == [] then None else Some(old(queue)[0])
    {
      wait, entry := false, None;
      if queue == [] && running {
        workers := workers[w := Deciding];
        wait := true;
      } else {
        workers := workers[w := Outside];
        if queue != [] {
          entry := Some(queue[0]);
          taken := taken + [queue[0]];
          workers := workers[w := Busy(queue[0])];
          queue := queue[1..];
          if max > 0 {
            producers := Notify(producers, chosen);
          }
        }
        lock := None;
      }
    }

    /** Run with the lock held: wait, or push the entry. */
    method CheckRoom(p: nat, entry: Entry, chosen: nat) returns (wait: bool)
      requires Enabled(Contents(), ProducerCheck(p, entry, chosen))
      modifies this`workers, this`producers, this`queue, this`lock, this`accepted
      ensures Contents() == Next(old(Contents()), ProducerCheck(p, entry, chosen))
      ensures wait <==> max > 0 && old(|queue|) >= max
      ensures !wait ==> queue == old(queue) + [entry]
    {
      wait := max > 0 && |queue| >= max;
      if wait {
        producers := producers[p := Deciding];
      } else {
        queue := queue + [entry];
        accepted := accepted + [entry];
        workers := Notify(workers, chosen);
        producers := producers[p := Outside];
        lock := None;
      }
    }

    method ClearRunning()
      requires running
      modifies this`running
      ensures Contents() == Next(old(Contents()), SetStop)
    {
      running := false;
    }

    method NotifyWorkers()
      requires Enabled(Contents(), Broadcast)
      modifies this`workers, this`released
      ensures Contents() == Next(old(Contents()), Broadcast)
    {
      workers := NotifyAll(workers);
      released := true;
    }

    /** Whatever other threads do for a while. */
    method Interfere(script: seq<Step>)
      modifies this
      ensures Contents() == From(old(Contents()), script)
    {
      hide Next;
      ghost var before := Contents();
      var i := 0;
      assert script[0..] == script;
      while i < |script|
        invariant 0 <= i <= |script|
        invariant From(Contents(), script[i..]) == From(before, script)
        decreases |script| - i
      {
        assert script[i..][0] == script[i] && script[i..][1..] == script[i + 1..];
        Act(script[i]);
        i := i + 1;
      }
      assert script[i..] == [];
    }

    method Act(step: Step)
      modifies this
      ensures Contents() == Next(old(Contents()), step)
    {
      if !IsPossible(step) {
        return;
      }
      match step
      case Begin(w) => workers := workers[w := if running then Entering else Exited];
      case Arrive(p) => producers := producers[p := Entering];
      case RunInline(p, entry) => inline := inline + [entry];
      case Acquire(t) => AcquireLock(t);
      case WorkerCheck(w, chosen) => var wait, entry := CheckQueue(w, chosen);
      case ProducerCheck(p, entry, chosen) => var wait := CheckRoom(p, entry, chosen);
      case Block(t) => Wait(t);
      case Call(w) => producers := producers[w := Entering];
      case Finish(w) => workers := workers[w := Outside];
      case WakeUp(t) => Move(t, Notified);
      case SetStop => ClearRunning();
      case Broadcast => NotifyWorkers();
    }

    predicate IsPossible(step: Step)
      reads this
      ensures IsPossible(step) == Enabled(Contents(), step)
    {
      Enabled(State(running, max, queue, lock, workers, producers, released, [], [], inline), step)
    }

    /** Take, for as long as the schedule lasts; each turn is what others do before the
        worker gets the lock, if it does. A result is the entry the worker then runs, or
        none only once the pool was stopped. Without one it is asleep, or another thread has
        the lock. */
    method Take(w: nat, schedule: seq<seq<Step>>) returns (done: bool, entry: Option<Entry>, turns: nat)
      requires Valid(Contents()) && w < |workers| && workers[w] == Entering
      requires forall script :: script in schedule ==> AllOfOthers(script, Worker(w))
      modifies this
      ensures turns <= |schedule| && (!done ==> turns == |schedule|)
      ensures Makes(Others(Worker(w)), old(Contents()), Contents(), Made(Others(Worker(w)), schedule, turns))
      ensures Valid(Contents()) && w < |workers|
      ensures done && entry.Some? ==> workers[w] == Busy(entry.value) && taken != [] && taken[|taken| - 1] == entry.value
      ensures done && entry.None? ==> workers[w] == Outside && !running && queue == []
      ensures !done && schedule != [] ==> workers[w] == Waiting || (workers[w] in {Entering, Notified} && lock.Some?)
    {
      ghost var before, others := Contents(), Others(Worker(w));
      MakesNothing(others, before);
      assert Made(others, schedule, 0) == [];
      hide Valid, Makes, Made, AllOfOthers, Others;
      done, entry, turns := false, None, 0;
      while turns < |schedule| && !done
        invariant turns <= |schedule| && w < |workers|
        invariant Makes(others, before, Contents(), Made(others, schedule, turns)) && Valid(Contents())
        invariant done && entry.Some? ==> workers[w] == Busy(entry.value) && taken != [] && taken[|taken| - 1] == entry.value
        invariant done && entry.None? ==> workers[w] == Outside && !running && queue == []
        invariant !done ==> workers[w] in {Entering, Waiting, Notified}
        invariant !done && turns > 0 ==> lock.Some? || workers[w] == Waiting
        decreases |schedule| - turns
      {
        assert schedule[turns] in schedule;
        MadeInTurn(others, schedule, turns);
        done, entry := TakeTurn(before, Made(others, schedule, turns), w, schedule[turns]);
        turns := turns + 1;
      }
    }

    method TakeTurn(ghost before: State, ghost made: seq<Step>, w: nat, script: seq<Step>)
      returns (done: bool, entry: Option<Entry>)
      requires Makes(Others(Worker(w)), before, Contents(), made) && Valid(Contents())
      requires w < |workers| && workers[w] in {Entering, Waiting, Notified}
      requires AllOfOthers(script, Worker(w))
      modifies this
      ensures Makes(Others(Worker(w)), before, Contents(), made + OfKind(Others(Worker(w)), script))
      ensures Valid(Contents()) && w < |workers|
      ensures done && entry.Some? ==> workers[w] == Busy(entry.value) && taken != [] && taken[|taken| - 1] == entry.value
      ensures done && entry.None? ==> workers[w] == Outside && !running && queue == []
      ensures !done ==> workers[w] == Waiting || (workers[w] in {Entering, Notified} && lock.Some?)
    {
      hide Valid, Makes, OfKind;
      done, entry := false, None;
      MakesRun(Others(Worker(w)), before, Contents(), made, script);
      OthersOnlyNotifyRun(Contents(), script, Worker(w));
      Interfere(script);
      if lock.None? && workers[w] in {Entering, Notified} {
        GetLock(before, made + OfKind(Others(Worker(w)), script), Worker(w));
        var wait;
        wait, entry := CheckQueueStep(before, made + OfKind(Others(Worker(w)), script), w);
        done := !wait;
      }
    }

    method GetLock(ghost before: State, ghost made: seq<Step>, t: Thread)
      requires Enabled(Contents(), Acquire(t)) && Makes(Others(t), before, Contents(), made) && Valid(Contents())
      modifies this`workers, this`producers, this`lock
      ensures Contents() == Moved(old(Contents()), t, Holding).(lock := Some(t))
      ensures Makes(Others(t), before, Contents(), made) && Valid(Contents())
    {
      hide Valid, Makes;
      MakesStep(Others(t), before, Contents(), made, Acquire(t));
      AcquireLock(t);
    }

    method CheckQueueStep(ghost before: State, ghost made: seq<Step>, w: nat) returns (wait: bool, entry: Option<Entry>)
      requires Makes(Others(Worker(w)), before, Contents(), made) && Valid(Contents())
      requires w < |workers| && workers[w] == Holding
      modifies this
      ensures Makes(Others(Worker(w)), before, Contents(), made) && Valid(Contents()) && |workers| == old(|workers|)
      ensures wait <==> old(queue) == [] && old(running)
      ensures wait ==> workers[w] == Waiting
      ensures !wait && entry.Some? ==> workers[w] == Busy(entry.value) && taken != [] && taken[|taken| - 1] == entry.value
      ensures !wait && entry.None? ==> workers[w] == Outside && !running && queue == []
    {
      hide Valid, Makes;
      var chosen := SomeWaiting(producers);
      MakesStep(Others(Worker(w)), before, Contents(), made, WorkerCheck(w, chosen));
      wait, entry := CheckQueue(w, chosen);
      if wait {
        MakesStep(Others(Worker(w)), before, Contents(), made, Block(Worker(w)));
        Wait(Worker(w));
      }
    }

    /** Run, for as long as the schedule lasts: without workers the caller runs the task,
        else it has returned when the entry is queued; until then it is asleep, or another
        thread has the lock. */
    method Run(p: nat, entry: Entry, schedule: seq<seq<Step>>) returns (done: bool, turns: nat)
      requires Valid(Contents()) && p < |producers| && producers[p] == Outside
      requires p < |workers| ==> workers[p].Busy?
      requires forall script :: script in schedule ==> AllOfOthers(script, Producer(p))
      modifies this
      ensures turns <= |schedule| && (!done ==> turns == |schedule|)
      ensures Makes(Others(Producer(p)), old(Contents()), Contents(), Made(Others(Producer(p)), schedule, turns))
      ensures Valid(Contents()) && p < |producers|
      ensures old(workers) == [] ==>
        done && turns == 0 && Contents() == old(Contents()).(inline := old(inline) + [entry])
      ensures old(workers) != [] && done ==>
        producers[p] == Outside && accepted != [] && accepted[|accepted| - 1] == entry
      ensures !done ==> producers[p] in {Entering, Waiting, Notified}
      ensures !done && schedule != [] ==> producers[p] == Waiting || lock.Some?
    {
      ghost var before, others := Contents(), Others(Producer(p));
      MakesNothing(others, before);
      assert Made(others, schedule, 0) == [];
      hide Valid, Makes, Made, AllOfOthers;
      if workers == [] {
        MakesStep(others, before, Contents(), [], RunInline(p, entry));
        inline := inline + [entry];
        return true, 0;
      }
      MakesStep(others, before, Contents(), [], if p < |workers| then Call(p) else Arrive(p));
      EnterRun(p);
      hide Next;
      done, turns := QueueEntry(before, p, entry, schedule);
    }

    method EnterRun(p: nat)
      requires p < |producers| && producers[p] == Outside && workers != [] && (p < |workers| ==> workers[p].Busy?)
      modifies this`producers
      ensures Contents() == Next(old(Contents()), if p < |workers| then Call(p) else Arrive(p))
      ensures producers == old(producers)[p := Entering]
    {
      producers := producers[p := Entering];
    }

    method QueueEntry(ghost before: State, p: nat, entry: Entry, schedule: seq<seq<Step>>)
      returns (done: bool, turns: nat)
      requires Makes(Others(Producer(p)), before, Contents(), Made(Others(Producer(p)), schedule, 0)) && Valid(Contents())
      requires p < |producers| && producers[p] == Entering
      requires forall script :: script in schedule ==> AllOfOthers(script, Producer(p))
      modifies this
      ensures turns <= |schedule| && (!done ==> turns == |schedule|)
      ensures Makes(Others(Producer(p)), before, Contents(), Made(Others(Producer(p)), schedule, turns))
      ensures Valid(Contents()) && p < |producers|
      ensures done ==> producers[p] == Outside && accepted != [] && accepted[|accepted| - 1] == entry
      ensures !done ==> producers[p] in {Entering, Waiting, Notified}
      ensures !done && schedule != [] ==> producers[p] == Waiting || lock.Some?
    {
      hide Valid, Makes, Made, AllOfOthers, Others;
      done, turns := false, 0;
      while turns < |schedule| && !done
        invariant turns <= |schedule| && p < |producers| && Valid(Contents())
        invariant Makes(Others(Producer(p)), before, Contents(), Made(Others(Producer(p)), schedule, turns))
        invariant done ==> producers[p] == Outside && accepted != [] && accepted[|accepted| - 1] == entry
        invariant !done ==> producers[p] in {Entering, Waiting, Notified}
        invariant !done && turns > 0 ==> lock.Some? || producers[p] == Waiting
        decreases |schedule| - turns
      {
        assert schedule[turns] in schedule;
        MadeInTurn(Others(Producer(p)), schedule, turns);
        done := RunTurn(before, Made(Others(Producer(p)), schedule, turns), p, entry, schedule[turns]);
        turns := turns + 1;
      }
    }

    method RunTurn(ghost before: State, ghost made: seq<Step>, p: nat, entry: Entry, script: seq<Step>)
      returns (done: bool)
      requires Makes(Others(Producer(p)), before, Contents(), made) && Valid(Contents())
      requires p < |producers| && producers[p] in {Entering, Waiting, Notified}
      requires AllOfOthers(script, Producer(p))
      modifies this
      ensures Makes(Others(Producer(p)), before, Contents(), made + OfKind(Others(Producer(p)), script))
      ensures Valid(Contents()) && p < |producers|
      ensures done ==> producers[p] == Outside && accepted != [] && accepted[|accepted| - 1] == entry
      ensures !done ==> producers[p] == Waiting || (producers[p] in {Entering, Notified} && lock.Some?)
    {
      hide Valid, Makes, OfKind;
      done := false;
      MakesRun(Others(Producer(p)), before, Contents(), made, script);
      OthersOnlyNotifyRun(Contents(), script, Producer(p));
      Interfere(script);
      if lock.None? && producers[p] in {Entering, Notified} {
        GetLock(before, made + OfKind(Others(Producer(p)), script), Producer(p));
        var wait := CheckRoomStep(before, made + OfKind(Others(Producer(p)), script), p, entry);
        done := !wait;
      }
    }

    method CheckRoomStep(ghost before: State, ghost made: seq<Step>, p: nat, entry: Entry) returns (wait: bool)
      requires Makes(Others(Producer(p)), before, Contents(), made) && Valid(Contents())
      requires p < |producers| && producers[p] == Holding
      modifies this
      ensures Makes(Others(Producer(p)), before, Contents(), made) && Valid(Contents()) && |producers| == old(|producers|)
      ensures wait <==> max > 0 && old(|queue|) >= max
      ensures wait ==> producers[p] == Waiting
      ensures !wait ==> producers[p] == Outside && accepted == old(accepted) + [entry]
    {
      hide Valid, Makes;
      var chosen := SomeWaiting(workers);
      MakesStep(Others(Producer(p)), before, Contents(), made, ProducerCheck(p, entry, chosen));
      wait := CheckRoom(p, entry, chosen);
      if wait {
        MakesStep(Others(Producer(p)), before, Contents(), made, Block(Producer(p)));
        Wait(Producer(p));
      }
    }

    /** Stop up to the joins: the flag first, then, once it gets the lock, the broadcast. */
    method Stop(schedule: seq<seq<Step>>) returns (done: bool, turns: nat)
      requires Valid(Contents())
      modifies this
      ensures turns <= |schedule| && (!done ==> turns == |schedule|)
      ensures Makes(IsNotStop, old(Contents()), Contents(), Made(IsNotStop, schedule, turns)) && Valid(Contents())
      ensures old(running) ==> !running
      ensures !old(running) ==> done && Contents() == old(Contents())
      ensures done && old(running) ==> released && Waiting !in workers
      ensures !done && schedule != [] ==> lock.Some?
    {
      ghost var before := Contents();
      MakesNothing(IsNotStop, before);
      assert Made(IsNotStop, schedule, 0) == [];
      done, turns := !running, 0;
      if running {
        hide Valid, Makes, Made, Next;
        MakesStep(IsNotStop, before, Contents(), [], SetStop);
        ClearRunning();
        done, turns := WakeWorkers(before, schedule);
      }
    }

    method WakeWorkers(ghost before: State, schedule: seq<seq<Step>>) returns (done: bool, turns: nat)
      requires Makes(IsNotStop, before, Contents(), Made(IsNotStop, schedule, 0)) && Valid(Contents()) && !running
      modifies this
      ensures turns <= |schedule| && (!done ==> turns == |schedule|)
      ensures Makes(IsNotStop, before, Contents(), Made(IsNotStop, schedule, turns)) && Valid(Contents())
      ensures !running && (done ==> released && Waiting !in workers) && (!done && schedule != [] ==> lock.Some?)
    {
      hide Makes, Made, Next, Locked, Attended, Fifo, ProducersCall, TasksCall;
      done, turns := false, 0;
      while turns < |schedule| && !done
        invariant turns <= |schedule| && !running
        invariant Makes(IsNotStop, before, Contents(), Made(IsNotStop, schedule, turns)) && Valid(Contents())
        invariant done ==> released
        invariant !done && turns > 0 ==> lock.Some?
        decreases |schedule| - turns
      {
        MadeInTurn(IsNotStop, schedule, turns);
        done := StopTurn(before, Made(IsNotStop, schedule, turns), schedule[turns]);
        turns := turns + 1;
      }
    }

    method StopTurn(ghost before: State, ghost made: seq<Step>, script: seq<Step>) returns (done: bool)
      requires Makes(IsNotStop, before, Contents(), made) && Valid(Contents()) && !running
      modifies this
      ensures Makes(IsNotStop, before, Contents(), made + OfKind(IsNotStop, script)) && Valid(Contents())
      ensures !running && (done ==> released) && (!done ==> lock.Some?)
    {
      hide Valid, Makes, OfKind;
      MakesRun(IsNotStop, before, Contents(), made, script);
      StaysStopped(Contents(), script);
      Interfere(script);
      done := lock.None?;
      if done {
        MakesStep(IsNotStop, before, Contents(), made + OfKind(IsNotStop, script), Step.Broadcast);
        NotifyWorkers();
      }
    }
  }

  lemma {:induction false} StaysStopped(s: State, steps: seq<Step>)
    requires !s.running
    ensures !From(s, steps).running
    decreases |steps|
  {
    if steps != [] {
      assert !Next(s, steps[0]).running;
      StaysStopped(Next(s, steps[0]), steps[1..]);
    }
  }
}
