// events/TimeoutQueue.{h,cc}: what each operation does to the two views of the
// pending timeouts and to the timer descriptor, as a step machine.
module TimeoutQueues {
  import opened Base
  import opened Runs

  const INT64_MAX: int := TWO63 - 1
  const MICROS_PER_SECOND := 1_000_000
  const LEAST_DELAY := 100

  /** The callback is known by the event's id; a negative interval does not repeat. */
  datatype Event = Event(id: int, expiration: int, interval: int)

  /** The instant the timer descriptor was last armed at and the one it fires at, in
      microseconds. */
  datatype Timer = Timer(armedAt: int, deadline: int)

  /** What another thread leaves to the loop to do. */
  datatype Request = Insert(event: Event) | Erase(id: int)

  /** Both views of the timeouts, the next id, the timer, and the requests that wait
      for the loop. */
  datatype State = State(
    byId: map<int, Event>,
    byExpiration: seq<Event>,
    next: int,
    timer: Option<Timer>,
    posted: seq<Request>)

  const START := State(map[], [], 1, None, [])

  datatype TimeSpec = TimeSpec(sec: int, nsec: int)

  // ---------------------------------------------------------------------
  // Operations
  // ---------------------------------------------------------------------

  function HowMuchTimeFromNow(when: int, now: int): (ts: TimeSpec)
    ensures ts.sec * 1_000_000_000 + ts.nsec == 1000 * (if when - now < 100 then 100 else when - now)
    ensures 0 <= ts.sec && 0 <= ts.nsec < 1_000_000_000
    // a zero interval would disarm the timer
    ensures !(ts.sec == 0 && ts.nsec == 0)
  {
    var delta := if when - now < LEAST_DELAY then LEAST_DELAY else when - now;
    TimeSpec(delta / MICROS_PER_SECOND, (delta % MICROS_PER_SECOND) * 1000)
  }

  /** ResetTimerfd: the kernel adds the interval to the time of the call. */
  function Reset(s: State, when: int, clock: int): State {
    var ts := HowMuchTimeFromNow(when, clock);
    s.(timer := Some(Timer(clock, clock + ts.sec * MICROS_PER_SECOND + ts.nsec / 1000)))
  }

  function NextExpiration(s: State): int {
    if s.byExpiration == [] then INT64_MAX else s.byExpiration[0].expiration
  }

  /** How many leading events expire no later than the given time. */
  function UpperBound(events: seq<Event>, time: int): (k: nat)
    ensures k <= |events|
    ensures forall i :: 0 <= i < k ==> events[i].expiration <= time
    ensures k < |events| ==> time < events[k].expiration
  {
    if events == [] || time < events[0].expiration then 0 else 1 + UpperBound(events[1..], time)
  }

  /** Events that expire together stay in the order of insertion; the id is unique. */
  function Inserted(s: State, e: Event): State {
    if e.id in s.byId then s
    else
      var k := UpperBound(s.byExpiration, e.expiration);
      s.(byId := s.byId[e.id := e], byExpiration := InsertedAt(s.byExpiration, k, e))
  }

  function InsertedAt(events: seq<Event>, k: nat, e: Event): seq<Event>
    requires k <= |events|
  {
    events[..k] + [e] + events[k..]
  }

  function RemovedAt(events: seq<Event>, k: nat): seq<Event>
    requires k < |events|
  {
    events[..k] + events[k + 1..]
  }

  function IndexOf(events: seq<Event>, id: int): (k: nat)
    ensures k <= |events|
    ensures k < |events| ==> events[k].id == id
    ensures forall i :: 0 <= i < k ==> events[i].id != id
  {
    if events == [] || events[0].id == id then 0 else 1 + IndexOf(events[1..], id)
  }

  function Erased(s: State, id: int): State {
    var k := IndexOf(s.byExpiration, id);
    if id in s.byId && k < |s.byExpiration| then
      s.(byId := s.byId - {id}, byExpiration := RemovedAt(s.byExpiration, k))
    else s
  }

  function AddedInLoop(s: State, e: Event, clock: int): State {
    var t := Inserted(s, e);
    if e.expiration < NextExpiration(s) then Reset(t, NextExpiration(t), clock) else t
  }

  function Carried(s: State, r: Request, clock: int): State {
    match r
    case Insert(e) => AddedInLoop(s, e, clock)
    case Erase(id) => Erased(s, id)
  }

  datatype Call = Add(expiration: int) | AddRepeating(now: int, interval: int) | Cancel(id: int)

  /** A call of the public interface from the loop's own thread or from another one,
      and what the clock shows if the timer is set. */
  datatype Op = Op(call: Call, inLoop: bool, clock: int)

  function RequestOf(call: Call, next: int): Request {
    match call
    case Add(expiration) => Insert(Event(next, expiration, -1))
    case AddRepeating(now, interval) => Insert(Event(next, now + interval, interval))
    case Cancel(id) => Erase(id)
  }

  function Performed(s: State, op: Op): State {
    var r := RequestOf(op.call, s.next);
    var t := if r.Insert? then s.(next := s.next + 1) else s;
    if op.inLoop then Carried(t, r, op.clock) else t.(posted := t.posted + [r])
  }

  function PerformedAll(s: State, ops: seq<Op>): State {
    if ops == [] then s else Performed(PerformedAll(s, ops[..|ops| - 1]), ops[|ops| - 1])
  }

  function Taken(s: State, k: nat): State
    requires k <= |s.byExpiration|
  {
    s.(byId := map id | id in s.byId && id !in IdsOf(s.byExpiration[..k]) :: s.byId[id],
       byExpiration := s.byExpiration[k..])
  }

  function IdsOf(events: seq<Event>): set<int> {
    set e | e in events :: e.id
  }

  function Rescheduled(e: Event, now: int): Event {
    e.(expiration := now + e.interval)
  }

  function Reinserted(s: State, expired: seq<Event>, now: int): State {
    if expired == [] then s
    else
      var t := Reinserted(s, expired[..|expired| - 1], now);
      var e := expired[|expired| - 1];
      if e.interval >= 0 then Inserted(t, Rescheduled(e, now)) else t
  }

  /** Any behaviour of n callbacks: the calls each makes, and those other threads make
      meanwhile. */
  function CalledBack(s: State, n: nat, scripts: seq<seq<Op>>): State {
    if n == 0 then s
    else
      var t := CalledBack(s, n - 1, scripts);
      if n <= |scripts| then PerformedAll(t, scripts[n - 1]) else t
  }

  /** The events Run calls back. */
  function Due(s: State, now: int): seq<Event> {
    s.byExpiration[..UpperBound(s.byExpiration, now)]
  }

  function BeforeCallbacks(s: State, now: int): State {
    Reinserted(Taken(s, |Due(s, now)|), Due(s, now), now)
  }

  function Ran(s: State, now: int, scripts: seq<seq<Op>>): State {
    CalledBack(BeforeCallbacks(s, now), |Due(s, now)|, scripts)
  }

  function TimerFired(s: State, now: int, scripts: seq<seq<Op>>, clock: int): State {
    var t := Ran(s, now, scripts);
    Reset(t, NextExpiration(t), clock)
  }

  /** The loop runs the oldest request left by another thread. */
  function Delivered(s: State, clock: int): State {
    if s.posted == [] then s else Carried(s.(posted := s.posted[1..]), s.posted[0], clock)
  }

  datatype Step = Perform(op: Op) | Deliver(clock: int) | Fire(now: int, scripts: seq<seq<Op>>, clock: int)

  function Next(s: State, step: Step): State {
    match step
    case Perform(op) => Performed(s, op)
    case Deliver(clock) => Delivered(s, clock)
    case Fire(now, scripts, clock) => TimerFired(s, now, scripts, clock)
  }

  /** The state after the steps, and the ids called back on the way. */
  function From(s: State, steps: seq<Step>): State {
    After(Next, s, steps)
  }

  function Firings(s: State, steps: seq<Step>): seq<int>
    decreases |steps|
  {
    if steps == [] then [] else FiredBy(s, steps[0]) + Firings(Next(s, steps[0]), steps[1..])
  }

  function FiredBy(s: State, step: Step): seq<int> {
    match step
    case Perform(_) => []
    case Deliver(_) => []
    case Fire(now, _, _) => Ids(Due(s, now))
  }

  function Ids(events: seq<Event>): (ids: seq<int>)
    ensures |ids| == |events| && forall i :: 0 <= i < |ids| ==> ids[i] == events[i].id
  {
    seq(|events|, i requires 0 <= i < |events| => events[i].id)
  }

  // ---------------------------------------------------------------------
  // What every operation keeps
  // ---------------------------------------------------------------------

  predicate Sorted(events: seq<Event>) {
    forall i, j :: 0 <= i < j < |events| ==> events[i].expiration <= events[j].expiration
  }

  predicate Distinct(events: seq<Event>) {
    forall i, j :: 0 <= i < j < |events| ==> events[i].id != events[j].id
  }

  /** The two views hold the same events. */
  predicate SameEvents(byId: map<int, Event>, events: seq<Event>) {
    && (forall e :: e in events ==> e.id in byId && byId[e.id] == e)
    && (forall id :: id in byId ==> byId[id] in events && byId[id].id == id)
  }

  /** No event of that id waits to be inserted. */
  predicate Unposted(s: State, id: int) {
    forall i :: 0 <= i < |s.posted| && s.posted[i].Insert? ==> s.posted[i].event.id != id
  }

  predicate PostedOnce(s: State) {
    && (forall i :: 0 <= i < |s.posted| && s.posted[i].Insert? ==>
          s.posted[i].event.id < s.next && s.posted[i].event.id !in s.byId)
    && (forall i, j :: 0 <= i < j < |s.posted| && s.posted[i].Insert? && s.posted[j].Insert? ==>
          s.posted[i].event.id != s.posted[j].event.id)
  }

  predicate Valid(s: State) {
    && Sorted(s.byExpiration) && Distinct(s.byExpiration) && SameEvents(s.byId, s.byExpiration)
    && (forall id :: id in s.byId ==> id < s.next)
    && PostedOnce(s)
  }

  lemma InsertedAtHolds(events: seq<Event>, k: nat, e: Event)
    requires k <= |events|
    ensures forall i {:trigger InsertedAt(events, k, e)[i]} :: 0 <= i <= |events| ==>
      InsertedAt(events, k, e)[i] == if i < k then events[i] else if i == k then e else events[i - 1]
    ensures forall x :: x in InsertedAt(events, k, e) <==> x in events || x == e
  {
    forall x
      ensures x in InsertedAt(events, k, e) <==> x in events || x == e
    {
      assert events == events[..k] + events[k..];
    }
  }

  lemma InsertedAtOrders(events: seq<Event>, e: Event)
    requires Sorted(events) && Distinct(events)
    requires forall x :: x in events ==> x.id != e.id
    ensures Sorted(InsertedAt(events, UpperBound(events, e.expiration), e))
    ensures Distinct(InsertedAt(events, UpperBound(events, e.expiration), e))
  {
    var k := UpperBound(events, e.expiration);
    InsertedAtHolds(events, k, e);
    var after := InsertedAt(events, k, e);
    hide InsertedAt, UpperBound;
    forall i, j | 0 <= i < j <= |events|
      ensures after[i].expiration <= after[j].expiration && after[i].id != after[j].id
    {
      if i == k {
        assert after[j] == events[j - 1] && events[j - 1] in events;
      } else if j == k {
        assert after[i] == events[i] && events[i] in events;
      } else {
        assert after[i] == events[if i < k then i else i - 1] && after[j] == events[if j < k then j else j - 1];
      }
    }
  }

  lemma RemovedAtIndex(events: seq<Event>, k: nat)
    requires k < |events|
    ensures |RemovedAt(events, k)| == |events| - 1
    ensures forall i {:trigger RemovedAt(events, k)[i]} :: 0 <= i < |events| - 1 ==>
      RemovedAt(events, k)[i] == events[if i < k then i else i + 1]
  {
  }

  lemma RemovedAtHolds(events: seq<Event>, k: nat)
    requires k < |events| && Distinct(events)
    ensures Distinct(RemovedAt(events, k)) && (Sorted(events) ==> Sorted(RemovedAt(events, k)))
    ensures forall x :: x in RemovedAt(events, k) <==> x in events && x.id != events[k].id
  {
    RemovedAtIndex(events, k);
    var after := RemovedAt(events, k);
    hide RemovedAt;
    forall x | x in events && x.id != events[k].id
      ensures x in after
    {
      var i :| 0 <= i < |events| && events[i] == x;
      assert after[if i < k then i else i - 1] == x;
    }
    forall x | x in after
      ensures x in events && x.id != events[k].id
    {
      var i :| 0 <= i < |after| && after[i] == x;
      assert x == events[if i < k then i else i + 1];
    }
  }

  lemma InsertedIsValid(s: State, e: Event)
    requires Valid(s) && e.id !in s.byId && e.id < s.next
    requires Unposted(s, e.id)
    ensures Valid(Inserted(s, e))
    ensures forall x :: x in Inserted(s, e).byExpiration <==> x in s.byExpiration || x == e
  {
    InsertedAtOrders(s.byExpiration, e);
    InsertedAtHolds(s.byExpiration, UpperBound(s.byExpiration, e.expiration), e);
    hide InsertedAt, UpperBound, Sorted, Distinct;
  }

  lemma ErasedIsValid(s: State, id: int)
    requires Valid(s)
    ensures Valid(Erased(s, id))
    ensures id !in Erased(s, id).byId
    ensures forall x :: x in Erased(s, id).byExpiration <==> x in s.byExpiration && x.id != id
  {
    var events := s.byExpiration;
    var k := IndexOf(events, id);
    if k < |events| {
      assert events[k] in events;
      RemovedAtHolds(events, k);
      hide RemovedAt, IndexOf;
    } else {
      assert forall x :: x in events ==> x.id != id;
    }
  }

  lemma CarriedIsValid(s: State, r: Request, clock: int)
    requires Valid(s)
    requires r.Insert? ==> r.event.id < s.next && r.event.id !in s.byId && Unposted(s, r.event.id)
    ensures Valid(Carried(s, r, clock))
  {
    match r
    case Insert(e) => InsertedIsValid(s, e);
    case Erase(id) => ErasedIsValid(s, id);
  }

  /** The state and the request a call leads to, once its id is given out. */
  function Asked(s: State, call: Call): State {
    if RequestOf(call, s.next).Insert? then s.(next := s.next + 1) else s
  }

  lemma AskedIsNew(s: State, call: Call)
    requires Valid(s)
    ensures Valid(Asked(s, call))
    ensures var r := RequestOf(call, s.next);
      r.Insert? ==> r.event.id == s.next && s.next !in s.byId && Unposted(s, s.next)
  {
    hide Sorted, Distinct, SameEvents;
  }

  lemma PerformedIsValid(s: State, op: Op)
    requires Valid(s)
    ensures Valid(Performed(s, op)) && s.next <= Performed(s, op).next
  {
    var r := RequestOf(op.call, s.next);
    AskedIsNew(s, op.call);
    hide Sorted, Distinct, SameEvents, Carried;
    if op.inLoop {
      CarriedIsValid(Asked(s, op.call), r, op.clock);
      CarriedKeepsNext(Asked(s, op.call), r, op.clock);
      hide Valid;
    } else {
      OneMoreIsValid(Asked(s, op.call), r);
    }
  }

  lemma CarriedKeepsNext(s: State, r: Request, clock: int)
    ensures Carried(s, r, clock).next == s.next
  {
  }

  lemma OneMoreIsValid(s: State, r: Request)
    requires Valid(s)
    requires r.Insert? ==> r.event.id < s.next && r.event.id !in s.byId && Unposted(s, r.event.id)
    ensures Valid(s.(posted := s.posted + [r]))
  {
    hide Sorted, Distinct, SameEvents;
  }

  lemma {:induction false} PerformedAllIsValid(s: State, ops: seq<Op>)
    requires Valid(s)
    ensures Valid(PerformedAll(s, ops))
  {
    if ops != [] {
      PerformedAllIsValid(s, ops[..|ops| - 1]);
      PerformedIsValid(PerformedAll(s, ops[..|ops| - 1]), ops[|ops| - 1]);
    }
  }

  lemma {:induction false} CalledBackIsValid(s: State, n: nat, scripts: seq<seq<Op>>)
    requires Valid(s)
    ensures Valid(CalledBack(s, n, scripts))
  {
    if n > 0 {
      CalledBackIsValid(s, n - 1, scripts);
      if n <= |scripts| {
        PerformedAllIsValid(CalledBack(s, n - 1, scripts), scripts[n - 1]);
      }
    }
  }

  /** The id was given out and its event, if there still is one, has reached the loop. */
  predicate Settled(s: State, id: int) {
    id < s.next && Unposted(s, id)
  }

  /** The id was given out and its event is no longer held. */
  predicate Gone(s: State, id: int) {
    Settled(s, id) && id !in s.byId
  }

  lemma TakenIsValid(s: State, k: nat)
    requires Valid(s) && k <= |s.byExpiration|
    ensures Valid(Taken(s, k))
    ensures forall e :: e in s.byExpiration[..k] ==> Gone(Taken(s, k), e.id)
    ensures forall id :: id in s.byId && id !in IdsOf(s.byExpiration[..k]) ==> id in Taken(s, k).byId
  {
    var events := s.byExpiration;
    var t := Taken(s, k);
    forall e | e in t.byExpiration
      ensures e in events && e.id !in IdsOf(events[..k])
    {
      var i :| k <= i < |events| && events[i] == e;
    }
    forall id | id in t.byId
      ensures t.byId[id] in t.byExpiration
    {
      var i :| 0 <= i < |events| && events[i] == s.byId[id];
      assert forall j :: 0 <= j < k ==> events[j] in events[..k];
      assert t.byExpiration[i - k] == events[i];
    }
    forall e | e in events[..k]
      ensures Gone(t, e.id)
    {
      assert e in events;
    }
  }

  /** The repeating ones among the expired events are held again, at one interval from
      now, and no other. */
  lemma {:induction false} ReinsertedIsValid(s: State, expired: seq<Event>, now: int)
    requires Valid(s) && Distinct(expired)
    requires forall e :: e in expired ==> Gone(s, e.id)
    ensures var t := Reinserted(s, expired, now);
      && Valid(t) && t.next == s.next && t.posted == s.posted && t.timer == s.timer
      && (forall x :: x in t.byExpiration <==>
            x in s.byExpiration || exists e :: e in expired && e.interval >= 0 && x == Rescheduled(e, now))
  {
    if expired != [] {
      var before, e := expired[..|expired| - 1], expired[|expired| - 1];
      ReinsertedIsValid(s, before, now);
      var t := Reinserted(s, before, now);
      assert forall x :: x in expired <==> x in before || x == e by {
        assert expired == before + [e];
      }
      if e.interval >= 0 {
        forall x | x in t.byExpiration
          ensures x.id != e.id
        {
          if x !in s.byExpiration {
            var d :| d in before && d.interval >= 0 && x == Rescheduled(d, now);
          }
        }
        InsertedIsValid(t, Rescheduled(e, now));
      }
    }
  }

  lemma BeforeCallbacksIsValid(s: State, now: int)
    requires Valid(s)
    ensures var t := BeforeCallbacks(s, now);
      && Valid(t) && t.next == s.next && t.posted == s.posted && t.timer == s.timer
      && (forall x :: x in t.byExpiration <==>
            (x in s.byExpiration && x.expiration > now)
            || exists e :: e in Due(s, now) && e.interval >= 0 && x == Rescheduled(e, now))
  {
    var k := |Due(s, now)|;
    assert Due(s, now) == s.byExpiration[..k] && k <= |s.byExpiration|;
    TakenIsValid(s, k);
    DueExactly(s, now);
    assert Taken(s, k).byExpiration == s.byExpiration[k..] && Taken(s, k).next == s.next;
    hide Due, Valid, Reinserted, Taken;
    ReinsertedIsValid(Taken(s, k), Due(s, now), now);
  }

  /** A batch is the events that expire no later than now, each once, in the order of
      their expiration; those beyond now stay. */
  lemma DueExactly(s: State, now: int)
    requires Valid(s)
    ensures forall e :: e in Due(s, now) <==> e in s.byExpiration && e.expiration <= now
    ensures Sorted(Due(s, now)) && Distinct(Due(s, now))
    ensures forall e :: e in s.byExpiration[|Due(s, now)|..] <==> e in s.byExpiration && e.expiration > now
  {
    UpperBoundSplits(s.byExpiration, now);
    hide SameEvents, PostedOnce, UpperBound;
  }

  lemma UpperBoundSplits(events: seq<Event>, now: int)
    requires Sorted(events)
    ensures var k := UpperBound(events, now);
      && (forall e :: e in events[..k] <==> e in events && e.expiration <= now)
      && (forall e :: e in events[k..] <==> e in events && e.expiration > now)
  {
    var k := UpperBound(events, now);
    var due, later := events[..k], events[k..];
    assert forall i :: 0 <= i < |due| ==> due[i].expiration <= now;
    assert forall i :: 0 <= i < |later| ==> later[i].expiration > now;
    hide Sorted, UpperBound;
    forall e | e in events
      ensures e in due || e in later
    {
      var i :| 0 <= i < |events| && events[i] == e;
      assert if i < k then due[i] == e else later[i - k] == e;
    }
    forall e | e in due
      ensures e in events && e.expiration <= now
    {
      var i :| 0 <= i < |due| && due[i] == e;
    }
    forall e | e in later
      ensures e in events && e.expiration > now
    {
      var i :| 0 <= i < |later| && later[i] == e;
    }
  }

  lemma NextIsValid(s: State, step: Step)
    requires Valid(s)
    ensures Valid(Next(s, step))
  {
    match step
    case Perform(op) => PerformedIsValid(s, op);
    case Deliver(clock) =>
      if s.posted != [] {
        var t := s.(posted := s.posted[1..]);
        OneDelivered(s);
        CarriedIsValid(t, s.posted[0], clock);
      }
    case Fire(now, scripts, clock) =>
      BeforeCallbacksIsValid(s, now);
      CalledBackIsValid(BeforeCallbacks(s, now), |Due(s, now)|, scripts);
  }

  lemma OneDelivered(s: State)
    requires Valid(s) && s.posted != []
    ensures Valid(s.(posted := s.posted[1..]))
    ensures s.posted[0].Insert? ==>
      var id := s.posted[0].event.id;
      id < s.next && id !in s.byId && Unposted(s.(posted := s.posted[1..]), id)
  {
    hide Sorted, Distinct, SameEvents;
  }

  /** The two views always hold the same events, ordered by expiration and with distinct
      ids that were all given out, and no posted event has an id in use. */
  lemma {:induction false} EveryRunIsValid(s: State, steps: seq<Step>)
    requires Valid(s)
    ensures Valid(From(s, steps))
    decreases |steps|
  {
    if steps != [] {
      NextIsValid(s, steps[0]);
      EveryRunIsValid(Next(s, steps[0]), steps[1..]);
    }
  }

  lemma EveryReachableStateIsValid(steps: seq<Step>)
    ensures Valid(From(START, steps))
  {
    EveryRunIsValid(START, steps);
  }

  /** The time returned by Run is the least expiration held. */
  lemma NextExpirationIsLeast(s: State)
    requires Valid(s)
    ensures forall e :: e in s.byExpiration ==> NextExpiration(s) <= e.expiration
    ensures s.byExpiration != [] ==> exists e :: e in s.byExpiration && e.expiration == NextExpiration(s)
    ensures s.byExpiration == [] ==> NextExpiration(s) == INT64_MAX
  {
    if s.byExpiration != [] {
      assert s.byExpiration[0] in s.byExpiration;
    }
  }

  // ---------------------------------------------------------------------
  // What is gone never fires again
  // ---------------------------------------------------------------------

  lemma KnownStaysCarried(s: State, r: Request, clock: int, id: int)
    requires Valid(s) && id < s.next && (r.Insert? ==> r.event.id != id)
    ensures id < Carried(s, r, clock).next && Carried(s, r, clock).posted == s.posted
    ensures id !in s.byId || r == Erase(id) ==> id !in Carried(s, r, clock).byId
  {
    if r.Erase? {
      ErasedIsValid(s, r.id);
    }
  }

  /** A call changes nothing about whether an id that was given out waits to be inserted,
      and an event that is not held, or is cancelled, is not held after it. */
  lemma KnownStaysPerformed(s: State, op: Op, id: int)
    requires Valid(s) && id < s.next
    ensures id < Performed(s, op).next && (Unposted(Performed(s, op), id) <==> Unposted(s, id))
    ensures id !in s.byId || (op.inLoop && op.call == Cancel(id)) ==> id !in Performed(s, op).byId
  {
    AskedIsNew(s, op.call);
    hide Valid, Carried;
    if op.inLoop {
      KnownStaysCarried(Asked(s, op.call), RequestOf(op.call, s.next), op.clock, id);
    } else {
      OneMorePosted(s, RequestOf(op.call, s.next), id);
    }
  }

  lemma OneMorePosted(s: State, r: Request, id: int)
    requires r.Insert? ==> r.event.id != id
    ensures Unposted(s.(posted := s.posted + [r]), id) <==> Unposted(s, id)
  {
    assert forall i :: 0 <= i < |s.posted| ==> (s.posted + [r])[i] == s.posted[i];
  }

  /** From call k on. */
  lemma {:induction false} KnownStaysPerformedAll(s: State, ops: seq<Op>, k: nat, id: int)
    requires Valid(s) && k <= |ops| && id < PerformedAll(s, ops[..k]).next
    ensures var u, t := PerformedAll(s, ops[..k]), PerformedAll(s, ops);
      && id < t.next && (Unposted(t, id) <==> Unposted(u, id))
      && (id !in u.byId ==> id !in t.byId)
    decreases |ops|
  {
    if k == |ops| {
      assert ops[..k] == ops;
    } else {
      var before := ops[..|ops| - 1];
      assert before[..k] == ops[..k];
      KnownStaysPerformedAll(s, before, k, id);
      PerformedAllIsValid(s, before);
      KnownStaysPerformed(PerformedAll(s, before), ops[|ops| - 1], id);
    }
  }

  /** From callback i on. */
  lemma {:induction false} KnownStaysCalledBack(s: State, i: nat, n: nat, scripts: seq<seq<Op>>, id: int)
    requires Valid(s) && i <= n && id < CalledBack(s, i, scripts).next
    ensures var u, t := CalledBack(s, i, scripts), CalledBack(s, n, scripts);
      && id < t.next && (Unposted(t, id) <==> Unposted(u, id))
      && (id !in u.byId ==> id !in t.byId)
    decreases n
  {
    if i < n {
      KnownStaysCalledBack(s, i, n - 1, scripts, id);
      CalledBackIsValid(s, n - 1, scripts);
      if n <= |scripts| {
        var t := CalledBack(s, n - 1, scripts);
        assert scripts[n - 1][..0] == [];
        KnownStaysPerformedAll(t, scripts[n - 1], 0, id);
      }
    }
  }

  lemma GoneStays(s: State, step: Step, id: int)
    requires Valid(s) && Gone(s, id)
    ensures Gone(Next(s, step), id) && id !in FiredBy(s, step)
  {
    match step
    case Perform(op) => KnownStaysPerformed(s, op, id);
    case Deliver(clock) =>
      if s.posted != [] {
        OneDelivered(s);
        KnownStaysCarried(s.(posted := s.posted[1..]), s.posted[0], clock, id);
      }
    case Fire(now, scripts, clock) =>
      GoneBeforeCallbacks(s, now, id);
      KnownStaysCalledBack(BeforeCallbacks(s, now), 0, |Due(s, now)|, scripts, id);
  }

  lemma GoneBeforeCallbacks(s: State, now: int, id: int)
    requires Valid(s) && Settled(s, id)
    ensures Valid(BeforeCallbacks(s, now)) && Settled(BeforeCallbacks(s, now), id)
    ensures id !in s.byId ==>
      id !in BeforeCallbacks(s, now).byId && forall e :: e in Due(s, now) ==> e.id != id
  {
    var t := BeforeCallbacks(s, now);
    BeforeCallbacksIsValid(s, now);
    DueExactly(s, now);
    hide BeforeCallbacks, Due;
    if id !in s.byId {
      forall x | x in t.byExpiration
        ensures x.id != id
      {
      }
    }
  }

  lemma {:induction false} GoneNeverFires(s: State, steps: seq<Step>, id: int)
    requires Valid(s) && Gone(s, id)
    ensures Gone(From(s, steps), id) && id !in Firings(s, steps)
    decreases |steps|
  {
    if steps != [] {
      GoneStays(s, steps[0], id);
      NextIsValid(s, steps[0]);
      GoneNeverFires(Next(s, steps[0]), steps[1..], id);
    }
  }

  /** Some continuation calls the id back. */
  ghost predicate CanFire(s: State, id: int) {
    exists steps :: id in Firings(s, steps)
  }

  lemma CanFireLater(s: State, step: Step, id: int)
    requires CanFire(Next(s, step), id)
    ensures CanFire(s, id)
  {
    var steps :| id in Firings(Next(s, step), steps);
    assert ([step] + steps)[1..] == steps;
    assert id in Firings(s, [step] + steps);
  }

  lemma HeldCanFire(s: State, e: Event)
    requires Valid(s) && e in s.byExpiration
    ensures CanFire(s, e.id)
  {
    var step := Fire(e.expiration, [], 0);
    DueExactly(s, e.expiration);
    var i :| 0 <= i < |Due(s, e.expiration)| && Due(s, e.expiration)[i] == e;
    assert FiredBy(s, step)[i] == e.id;
    assert Firings(s, [step]) == FiredBy(s, step) + Firings(Next(s, step), []);
    assert e.id in Firings(s, [step]);
  }

  /** An event that waits to be inserted fires once the loop has run what waits before it. */
  lemma {:induction false} PostedCanFire(s: State, i: nat)
    requires Valid(s) && i < |s.posted| && s.posted[i].Insert?
    ensures CanFire(s, s.posted[i].event.id)
    decreases i
  {
    var t := Next(s, Deliver(0));
    var e := s.posted[i].event;
    NextIsValid(s, Deliver(0));
    OneDelivered(s);
    if i == 0 {
      InsertedIsValid(s.(posted := s.posted[1..]), e);
      HeldCanFire(t, e);
    } else {
      assert t.posted == s.posted[1..];
      PostedCanFire(t, i - 1);
    }
    CanFireLater(s, Deliver(0), e.id);
  }

  /** An id still to be given out fires after as many additions as it takes. */
  lemma {:induction false} UngivenCanFire(s: State, id: int)
    requires Valid(s) && id >= s.next
    ensures CanFire(s, id)
    decreases id - s.next
  {
    var step := Perform(Op(Add(0), true, 0));
    AskedIsNew(s, Add(0));
    NextIsValid(s, step);
    if id == s.next {
      InsertedIsValid(Asked(s, Add(0)), Event(id, 0, -1));
      HeldCanFire(Next(s, step), Event(id, 0, -1));
    } else {
      UngivenCanFire(Next(s, step), id);
    }
    CanFireLater(s, step, id);
  }

  /** What CancelInLoop leaves, called from the loop or run for another thread, can fire
      exactly when the id is not given out yet or its event still waits to be inserted. */
  lemma CancelledFiresExactlyWhen(s: State, id: int)
    requires Valid(s)
    ensures CanFire(Erased(s, id), id) <==> id >= s.next || !Unposted(s, id)
  {
    var t := Erased(s, id);
    ErasedIsValid(s, id);
    GoneOrCanFire(t, id);
  }

  lemma GoneOrCanFire(s: State, id: int)
    requires Valid(s) && id !in s.byId
    ensures CanFire(s, id) <==> id >= s.next || !Unposted(s, id)
  {
    if id >= s.next {
      UngivenCanFire(s, id);
    } else if !Unposted(s, id) {
      var i :| 0 <= i < |s.posted| && s.posted[i].Insert? && s.posted[i].event.id == id;
      PostedCanFire(s, i);
    } else {
      forall steps
        ensures id !in Firings(s, steps)
      {
        GoneNeverFires(s, steps, id);
      }
    }
  }

  /** The state in which callback i of a batch makes its call k. */
  function AtCall(s: State, now: int, scripts: seq<seq<Op>>, i: nat, k: nat): State
    requires i < |scripts| && k <= |scripts[i]|
  {
    PerformedAll(CalledBack(BeforeCallbacks(s, now), i, scripts), scripts[i][..k])
  }

  /** After the callback that cancels it the id is not held, and waits to be inserted if
      it did at the call. */
  lemma CancelledInCallback(start: State, scripts: seq<seq<Op>>, i: nat, k: nat, id: int)
    requires Valid(start) && i < |scripts| && k < |scripts[i]|
    requires scripts[i][k].inLoop && scripts[i][k].call == Cancel(id)
    requires id < PerformedAll(CalledBack(start, i, scripts), scripts[i][..k]).next
    ensures var u, t := PerformedAll(CalledBack(start, i, scripts), scripts[i][..k]), CalledBack(start, i + 1, scripts);
      id < t.next && (Unposted(t, id) <==> Unposted(u, id)) && id !in t.byId
  {
    var ops, s := scripts[i], CalledBack(start, i, scripts);
    CalledBackIsValid(start, i, scripts);
    PerformedAllIsValid(s, ops[..k]);
    hide Valid, Unposted, Performed;
    KnownStaysPerformed(PerformedAll(s, ops[..k]), ops[k], id);
    assert ops[..k + 1][..k] == ops[..k];
    assert PerformedAll(s, ops[..k + 1]) == Performed(PerformedAll(s, ops[..k]), ops[k]);
    KnownStaysPerformedAll(s, ops, k + 1, id);
    assert CalledBack(start, i + 1, scripts) == PerformedAll(s, ops);
  }

  /** Cancelling in a callback stops all firings after the batch, also of a repeating
      timeout of the batch itself, exactly when the event does not wait to be inserted. */
  lemma CancelledInBatchFiresExactlyWhen(s: State, now: int, scripts: seq<seq<Op>>, clock: int,
                                         i: nat, k: nat, id: int)
    requires Valid(s) && i < |Due(s, now)| && i < |scripts| && k < |scripts[i]|
    requires scripts[i][k].inLoop && scripts[i][k].call == Cancel(id)
    requires id < AtCall(s, now, scripts, i, k).next
    ensures CanFire(TimerFired(s, now, scripts, clock), id) <==> !Unposted(AtCall(s, now, scripts, i, k), id)
  {
    var start, n := BeforeCallbacks(s, now), |Due(s, now)|;
    BeforeCallbacksIsValid(s, now);
    hide Valid, Unposted, BeforeCallbacks;
    CancelledInCallback(start, scripts, i, k, id);
    KnownStaysCalledBack(start, i + 1, n, scripts, id);
    NextIsValid(s, Fire(now, scripts, clock));
    GoneOrCanFire(TimerFired(s, now, scripts, clock), id);
  }

  /** Another thread adds a timeout; the loop cancels it before it has run the insertion;
      the timeout fires. */
  lemma EarlyCancelIsLost()
    ensures var s := From(START, [Perform(Op(Add(5), false, 0)), Perform(Op(Cancel(1), true, 0))]);
      Firings(s, [Deliver(0), Fire(5, [], 5)]) == [1]
  {
    var add, cancel := Perform(Op(Add(5), false, 0)), Perform(Op(Cancel(1), true, 0));
    var e := Event(1, 5, -1);
    var s := START.(next := 2, posted := [Insert(e)]);
    assert Next(START, add) == s && Next(s, cancel) == s;
    assert [add, cancel][1..] == [cancel] && [cancel][1..] == [];
    assert From(START, [add, cancel]) == From(s, [cancel]);
    assert From(s, [cancel]) == From(s, []);
    var t := Next(s, Deliver(0));
    assert t.byExpiration == [e];
    assert UpperBound([e], 5) == 1;
    assert Due(t, 5) == [e] && Ids(Due(t, 5)) == [1];
    assert Firings(s, [Deliver(0), Fire(5, [], 5)]) == [] + Firings(t, [Fire(5, [], 5)]);
    assert Firings(t, [Fire(5, [], 5)]) == [1] + Firings(Next(t, Fire(5, [], 5)), []);
  }

  // ---------------------------------------------------------------------
  // A one-time timeout fires exactly once unless cancelled
  // ---------------------------------------------------------------------

  /** The event is held, or waits for the loop to insert it. */
  predicate Pending(s: State, e: Event) {
    e in s.byExpiration || Insert(e) in s.posted
  }

  predicate SparesAll(ops: seq<Op>, id: int) {
    forall op :: op in ops ==> op.call != Cancel(id)
  }

  predicate Spares(step: Step, id: int) {
    match step
    case Perform(op) => op.call != Cancel(id)
    case Deliver(_) => true
    case Fire(_, scripts, _) => forall ops :: ops in scripts ==> SparesAll(ops, id)
  }

  lemma PendingStaysCarried(s: State, r: Request, clock: int, e: Event)
    requires Valid(s) && Pending(s, e)
    requires r.Insert? ==> r.event.id < s.next && r.event.id !in s.byId && Unposted(s, r.event.id)
    ensures var t := Carried(s, r, clock);
      if r == Erase(e.id) then Pending(t, e) || Gone(t, e.id) else Pending(t, e)
    ensures Carried(s, r, clock).posted == s.posted
  {
    match r
    case Insert(x) => InsertedIsValid(s, x);
    case Erase(id) => ErasedIsValid(s, id);
  }

  lemma PendingStaysPerformed(s: State, op: Op, e: Event)
    requires Valid(s) && Pending(s, e)
    ensures Pending(Performed(s, op), e) || Gone(Performed(s, op), e.id)
    ensures op.call != Cancel(e.id) && Erase(e.id) !in s.posted
            ==> Pending(Performed(s, op), e) && Erase(e.id) !in Performed(s, op).posted
  {
    AskedIsNew(s, op.call);
    hide Valid, Carried, Gone;
    if op.inLoop {
      PendingStaysCarried(Asked(s, op.call), RequestOf(op.call, s.next), op.clock, e);
    }
  }

  lemma {:induction false} PendingStaysPerformedAll(s: State, ops: seq<Op>, e: Event)
    requires Valid(s) && Pending(s, e)
    ensures Pending(PerformedAll(s, ops), e) || Gone(PerformedAll(s, ops), e.id)
    ensures SparesAll(ops, e.id) && Erase(e.id) !in s.posted
            ==> Pending(PerformedAll(s, ops), e) && Erase(e.id) !in PerformedAll(s, ops).posted
  {
    if ops != [] {
      var before, op := ops[..|ops| - 1], ops[|ops| - 1];
      assert ops == before + [op];
      PendingStaysPerformedAll(s, before, e);
      PerformedAllIsValid(s, before);
      var t := PerformedAll(s, before);
      hide Valid, Pending, Performed;
      if Pending(t, e) {
        PendingStaysPerformed(t, op, e);
      } else {
        KnownStaysPerformed(t, op, e.id);
      }
    }
  }

  lemma {:induction false} PendingStaysCalledBack(s: State, n: nat, scripts: seq<seq<Op>>, e: Event)
    requires Valid(s) && Pending(s, e)
    ensures Pending(CalledBack(s, n, scripts), e) || Gone(CalledBack(s, n, scripts), e.id)
    ensures (forall ops :: ops in scripts ==> SparesAll(ops, e.id)) && Erase(e.id) !in s.posted
            ==> Pending(CalledBack(s, n, scripts), e) && Erase(e.id) !in CalledBack(s, n, scripts).posted
  {
    if n > 0 {
      PendingStaysCalledBack(s, n - 1, scripts, e);
      CalledBackIsValid(s, n - 1, scripts);
      var t := CalledBack(s, n - 1, scripts);
      hide Valid, Pending, PerformedAll, SparesAll;
      if n <= |scripts| {
        if Pending(t, e) {
          PendingStaysPerformedAll(t, scripts[n - 1], e);
        } else {
          assert scripts[n - 1][..0] == [];
          KnownStaysPerformedAll(t, scripts[n - 1], 0, e.id);
        }
      }
    }
  }

  function Times(ids: seq<int>, id: int): nat {
    multiset(ids)[id]
  }

  /** A batch with the event in it calls it back once and keeps nothing of it. */
  lemma OneShotFires(s: State, now: int, e: Event)
    requires Valid(s) && e in s.byExpiration && e.interval < 0 && e.expiration <= now
    ensures Times(Ids(Due(s, now)), e.id) == 1
    ensures Gone(BeforeCallbacks(s, now), e.id)
  {
    DueExactly(s, now);
    BeforeCallbacksIsValid(s, now);
    OnceAmongDistinct(Due(s, now), e);
    var t := BeforeCallbacks(s, now);
    forall x | x in t.byExpiration
      ensures x.id != e.id
    {
      if x in s.byExpiration && x.expiration > now {
        assert s.byId[x.id] == x && s.byId[e.id] == e;
      } else {
        var d :| d in Due(s, now) && d.interval >= 0 && x == Rescheduled(d, now);
        assert s.byId[d.id] == d && s.byId[e.id] == e;
      }
    }
  }

  lemma {:induction false} OnceAmongDistinct(events: seq<Event>, e: Event)
    requires Distinct(events) && e in events
    ensures Times(Ids(events), e.id) == 1
  {
    var before, last := events[..|events| - 1], events[|events| - 1];
    assert events == before + [last];
    assert Ids(events) == Ids(before) + [last.id];
    if e in before {
      OnceAmongDistinct(before, e);
    } else {
      NotAmong(before, e.id);
    }
  }

  lemma NotAmong(events: seq<Event>, id: int)
    requires forall x :: x in events ==> x.id != id
    ensures Times(Ids(events), id) == 0
  {
    assert forall i :: 0 <= i < |events| ==> events[i] in events;
    assert id !in Ids(events);
  }

  lemma DeliveredOneShot(s: State, clock: int, e: Event)
    requires Valid(s) && Pending(s, e) && s.posted != []
    ensures Pending(Delivered(s, clock), e) || Gone(Delivered(s, clock), e.id)
    ensures Erase(e.id) !in s.posted ==>
      Pending(Delivered(s, clock), e) && Erase(e.id) !in Delivered(s, clock).posted
  {
    OneDelivered(s);
    var t := s.(posted := s.posted[1..]);
    assert s.posted == [s.posted[0]] + t.posted;
    if s.posted[0] == Insert(e) {
      InsertedIsValid(t, e);
    } else {
      PendingStaysCarried(t, s.posted[0], clock, e);
    }
  }

  lemma FiredOneShot(s: State, now: int, scripts: seq<seq<Op>>, clock: int, e: Event)
    requires Valid(s) && Pending(s, e) && e.interval < 0
    ensures var t, n := TimerFired(s, now, scripts, clock), Times(Ids(Due(s, now)), e.id);
      if e in s.byExpiration && e.expiration <= now then n == 1 && Gone(t, e.id)
      else
        && n == 0 && (Pending(t, e) || Gone(t, e.id))
        && ((forall ops :: ops in scripts ==> SparesAll(ops, e.id)) && Erase(e.id) !in s.posted ==>
              Pending(t, e) && Erase(e.id) !in t.posted)
  {
    DueExactly(s, now);
    BeforeCallbacksIsValid(s, now);
    var t, n := BeforeCallbacks(s, now), |Due(s, now)|;
    if e in s.byExpiration && e.expiration <= now {
      OneShotFires(s, now, e);
      KnownStaysCalledBack(t, 0, n, scripts, e.id);
    } else {
      forall x | x in Due(s, now)
        ensures x.id != e.id
      {
        assert s.byId[x.id] == x;
      }
      NotAmong(Due(s, now), e.id);
      assert Pending(t, e);
      PendingStaysCalledBack(t, n, scripts, e);
    }
  }

  /** One step with a one-time event pending: it stays pending, or it is gone after at
      most one firing; without a cancellation it is gone exactly when it was fired. */
  lemma OneShotStep(s: State, step: Step, e: Event)
    requires Valid(s) && Pending(s, e) && e.interval < 0
    ensures var t, n := Next(s, step), Times(FiredBy(s, step), e.id);
      || (n == 0 && Pending(t, e))
      || (n <= 1 && Gone(t, e.id))
    ensures Spares(step, e.id) && Erase(e.id) !in s.posted ==>
      var t, n := Next(s, step), Times(FiredBy(s, step), e.id);
      || (n == 0 && Pending(t, e) && Erase(e.id) !in t.posted)
      || (n == 1 && Gone(t, e.id))
  {
    hide Valid, Pending, Gone;
    match step
    case Perform(op) => PendingStaysPerformed(s, op, e);
    case Deliver(clock) =>
      if s.posted != [] {
        DeliveredOneShot(s, clock, e);
      }
    case Fire(now, scripts, clock) => FiredOneShot(s, now, scripts, clock, e);
  }

  lemma GoneIsNotPending(s: State, e: Event)
    requires Valid(s) && Gone(s, e.id)
    ensures !Pending(s, e)
  {
  }

  /** Over any run a one-time event is fired at most once, and if nobody cancels it, it
      is either still pending or has been fired exactly once. */
  lemma {:induction false} OneShotFiresOnce(s: State, steps: seq<Step>, e: Event)
    requires Valid(s) && Pending(s, e) && e.interval < 0
    ensures Times(Firings(s, steps), e.id) <= 1
    ensures (forall step :: step in steps ==> Spares(step, e.id)) && Erase(e.id) !in s.posted ==>
      Times(Firings(s, steps), e.id) == if Pending(From(s, steps), e) then 0 else 1
    decreases |steps|
  {
    if steps != [] {
      var t, rest := Next(s, steps[0]), steps[1..];
      assert steps == [steps[0]] + rest;
      OneShotStep(s, steps[0], e);
      NextIsValid(s, steps[0]);
      hide Valid, Pending, Gone, Next, FiredBy;
      if Pending(t, e) {
        OneShotFiresOnce(t, rest, e);
      } else {
        GoneNeverFires(t, rest, e.id);
        EveryRunIsValid(t, rest);
        GoneIsNotPending(From(t, rest), e);
      }
    }
  }

  // ---------------------------------------------------------------------
  // A repeating timeout goes on until cancelled
  // ---------------------------------------------------------------------

  lemma UnpostedStays(s: State, step: Step, id: int)
    requires Valid(s) && Settled(s, id)
    ensures Settled(Next(s, step), id)
  {
    match step
    case Perform(op) => KnownStaysPerformed(s, op, id);
    case Deliver(clock) =>
      if s.posted != [] {
        OneDelivered(s);
        KnownStaysCarried(s.(posted := s.posted[1..]), s.posted[0], clock, id);
      }
    case Fire(now, scripts, clock) =>
      GoneBeforeCallbacks(s, now, id);
      KnownStaysCalledBack(BeforeCallbacks(s, now), 0, |Due(s, now)|, scripts, id);
  }

  /** The event is in the batch of the step. */
  predicate IsDue(s: State, step: Step, e: Event) {
    step.Fire? && e in s.byExpiration && e.expiration <= step.now
  }

  lemma FiredRepeating(s: State, now: int, scripts: seq<seq<Op>>, clock: int, e: Event)
    requires Valid(s) && Pending(s, e) && e.interval >= 0 && Erase(e.id) !in s.posted
    requires Spares(Fire(now, scripts, clock), e.id)
    ensures var t, due := TimerFired(s, now, scripts, clock), e in s.byExpiration && e.expiration <= now;
      && Pending(t, if due then Rescheduled(e, now) else e) && Erase(e.id) !in t.posted
      && Times(Ids(Due(s, now)), e.id) == if due then 1 else 0
  {
    DueExactly(s, now);
    BeforeCallbacksIsValid(s, now);
    var t, n := BeforeCallbacks(s, now), |Due(s, now)|;
    if e in s.byExpiration && e.expiration <= now {
      OnceAmongDistinct(Due(s, now), e);
      PendingStaysCalledBack(t, n, scripts, Rescheduled(e, now));
    } else {
      forall x | x in Due(s, now)
        ensures x.id != e.id
      {
        assert s.byId[x.id] == x;
      }
      NotAmong(Due(s, now), e.id);
      PendingStaysCalledBack(t, n, scripts, e);
    }
  }

  /** A step that does not cancel a repeating event calls it back once if it is due, and
      then holds it one interval from now, and else leaves it as it is. */
  lemma RepeatingStep(s: State, step: Step, e: Event)
    requires Valid(s) && Pending(s, e) && e.interval >= 0
    requires Spares(step, e.id) && Erase(e.id) !in s.posted
    ensures var t := Next(s, step);
      && Pending(t, if IsDue(s, step, e) then Rescheduled(e, step.now) else e) && Erase(e.id) !in t.posted
      && Times(FiredBy(s, step), e.id) == if IsDue(s, step, e) then 1 else 0
  {
    hide Valid, Pending;
    match step
    case Perform(op) => PendingStaysPerformed(s, op, e);
    case Deliver(clock) =>
      if s.posted != [] {
        DeliveredOneShot(s, clock, e);
      }
    case Fire(now, scripts, clock) => FiredRepeating(s, now, scripts, clock, e);
  }

  lemma HeldIsSettled(s: State, e: Event)
    requires Valid(s) && e in s.byExpiration
    ensures Settled(s, e.id)
  {
  }

  /** The step calls the event back, once, exactly if it is a batch run at or after the
      expiration of an event that is held; then it is pending again, one interval after
      that, and else as it was. */
  ghost predicate CalledBackWhenDue(s: State, step: Step, e: Event) {
    var due := step.Fire? && e in s.byExpiration && e.expiration <= step.now;
    && Times(FiredBy(s, step), e.id) == (if due then 1 else 0)
    && Pending(Next(s, step), if due then Event(e.id, step.now + e.interval, e.interval) else e)
  }

  ghost predicate GoesOn(s: State, e: Event) {
    forall step :: Spares(step, e.id) ==> CalledBackWhenDue(s, step, e)
  }

  /** Over any run without a cancellation a repeating event stays pending, and held once it
      is held; it is the same event until it fires, and whenever it is held the next batch
      run at or after its expiration calls it back, once, and holds it again. */
  lemma {:induction false} RepeatingGoesOn(s: State, steps: seq<Step>, e: Event) returns (d: Event)
    requires Valid(s) && Pending(s, e) && e.interval >= 0 && Erase(e.id) !in s.posted
    requires forall step :: step in steps ==> Spares(step, e.id)
    ensures d.id == e.id && d.interval == e.interval
    ensures Pending(From(s, steps), d) && (e in s.byExpiration ==> d in From(s, steps).byExpiration)
    ensures Times(Firings(s, steps), e.id) == 0 ==> d == e
    ensures GoesOn(From(s, steps), d)
    decreases |steps|
  {
    if steps == [] {
      d := e;
      forall step | Spares(step, e.id)
        ensures CalledBackWhenDue(s, step, d)
      {
        RepeatingStep(s, step, e);
      }
    } else {
      var t, rest := Next(s, steps[0]), steps[1..];
      var next := if IsDue(s, steps[0], e) then Rescheduled(e, steps[0].now) else e;
      assert steps == [steps[0]] + rest;
      NextIsValid(s, steps[0]);
      RepeatingStep(s, steps[0], e);
      if e in s.byExpiration {
        HeldIsSettled(s, e);
        UnpostedStays(s, steps[0], e.id);
      }
      hide Valid, Next, FiredBy, IsDue, Spares;
      d := RepeatingGoesOn(t, rest, next);
    }
  }

  /** A repeating event that is held is called back by every batch, if each is run one
      interval or more after the one before. */
  lemma {:induction false} RepeatingFiresEveryTime(s: State, steps: seq<Step>, e: Event)
    requires Valid(s) && e in s.byExpiration && e.interval >= 0 && Erase(e.id) !in s.posted
    requires forall step :: step in steps ==> step.Fire? && Spares(step, e.id)
    requires steps != [] ==> steps[0].now >= e.expiration
    requires forall i :: 0 < i < |steps| ==> steps[i].now >= steps[i - 1].now + e.interval
    ensures Times(Firings(s, steps), e.id) == |steps|
    decreases |steps|
  {
    if steps != [] {
      var t, rest, next := Next(s, steps[0]), steps[1..], Rescheduled(e, steps[0].now);
      assert steps == [steps[0]] + rest;
      NextIsValid(s, steps[0]);
      RepeatingStep(s, steps[0], e);
      HeldIsSettled(s, e);
      UnpostedStays(s, steps[0], e.id);
      hide Valid, Next, FiredBy, Spares;
      RepeatingFiresEveryTime(t, rest, next);
    }
  }

  // ---------------------------------------------------------------------
  // What the calls promise
  // ---------------------------------------------------------------------

  /** Add and AddRepeating make an event with an id nobody has had, that expires at the given
      time, or one interval from now, and repeats in the second case only. It is held at once
      if the loop's thread calls, and on its way to the loop if another does. */
  lemma AddedIsPending(s: State, call: Call, inLoop: bool, clock: int) returns (e: Event)
    requires Valid(s) && !call.Cancel?
    ensures call.Add? ==> e == Event(s.next, call.expiration, -1)
    ensures call.AddRepeating? ==> e == Event(s.next, call.now + call.interval, call.interval)
    ensures var t := Performed(s, Op(call, inLoop, clock));
      && Valid(t) && t.next == s.next + 1 && s.next !in s.byId && Pending(t, e)
      && (inLoop ==> e in t.byExpiration && t.posted == s.posted)
      && (!inLoop ==> e !in t.byExpiration && t.posted == s.posted + [Insert(e)])
  {
    e := RequestOf(call, s.next).event;
    AskedIsNew(s, call);
    PerformedIsValid(s, Op(call, inLoop, clock));
    if inLoop {
      InsertedIsValid(Asked(s, call), e);
    }
  }

  /** After Add, by any thread, the timeout fires at most once over any run, and if nobody
      cancels it, it is either still pending or has fired exactly once. */
  lemma AddFiresOnce(s: State, expiration: int, inLoop: bool, clock: int, steps: seq<Step>)
    requires Valid(s)
    ensures var t := Performed(s, Op(Add(expiration), inLoop, clock));
      && Times(Firings(t, steps), s.next) <= 1
      && ((forall step :: step in steps ==> Spares(step, s.next)) && Erase(s.next) !in s.posted ==>
            Times(Firings(t, steps), s.next)
            == if Pending(From(t, steps), Event(s.next, expiration, -1)) then 0 else 1)
  {
    var e := AddedIsPending(s, Add(expiration), inLoop, clock);
    OneShotFiresOnce(Performed(s, Op(Add(expiration), inLoop, clock)), steps, e);
  }

  /** After AddRepeating, by any thread, an uncancelled timeout is pending in every state of
      every run, first for one interval from now, and is called back by whatever batch
      is run when it is held and due, to be pending again one interval later. */
  lemma AddRepeatingGoesOn(s: State, now: int, interval: int, inLoop: bool, clock: int, steps: seq<Step>)
    returns (d: Event)
    requires Valid(s) && interval >= 0 && Erase(s.next) !in s.posted
    requires forall step :: step in steps ==> Spares(step, s.next)
    ensures var u := Performed(s, Op(AddRepeating(now, interval), inLoop, clock));
      var t := From(u, steps);
      && d.id == s.next && d.interval == interval && Pending(t, d) && (inLoop ==> d in t.byExpiration)
      && (Times(Firings(u, steps), s.next) == 0 ==> d.expiration == now + interval)
      && GoesOn(t, d)
  {
    var e := AddedIsPending(s, AddRepeating(now, interval), inLoop, clock);
    var u := Performed(s, Op(AddRepeating(now, interval), inLoop, clock));
    assert Erase(s.next) !in u.posted;
    hide *;
    d := RepeatingGoesOn(u, steps, e);
  }

  /** Added in the loop, it is called back by every batch run one interval or more after the
      one before. */
  lemma AddRepeatingFiresEveryTime(s: State, now: int, interval: int, clock: int, steps: seq<Step>)
    requires Valid(s) && interval >= 0 && Erase(s.next) !in s.posted
    requires forall step :: step in steps ==> step.Fire? && Spares(step, s.next)
    requires steps != [] ==> steps[0].now >= now + interval
    requires forall i :: 0 < i < |steps| ==> steps[i].now >= steps[i - 1].now + interval
    ensures Times(Firings(Performed(s, Op(AddRepeating(now, interval), true, clock)), steps), s.next) == |steps|
  {
    var e := AddedIsPending(s, AddRepeating(now, interval), true, clock);
    hide Valid, Performed, Next, Spares, FiredBy, Firings;
    RepeatingFiresEveryTime(Performed(s, Op(AddRepeating(now, interval), true, clock)), steps, e);
  }

  /** The loop runs what other threads asked for in the order of their calls. */
  lemma DeliversOldestRequest(s: State, clock: int)
    requires Valid(s) && s.posted != []
    ensures var t := Delivered(s, clock);
      && t.posted == s.posted[1..]
      && (s.posted[0].Insert? ==> s.posted[0].event in t.byExpiration && t.byId.Keys == s.byId.Keys + {s.posted[0].event.id})
      && (s.posted[0].Erase? ==> t.byId.Keys == s.byId.Keys - {s.posted[0].id})
  {
    OneDelivered(s);
    var t := s.(posted := s.posted[1..]);
    match s.posted[0]
    case Insert(e) => InsertedIsValid(t, e);
    case Erase(id) =>
      ErasedIsValid(t, id);
      ErasedKeys(t, id);
  }

  lemma ErasedKeys(s: State, id: int)
    requires Valid(s)
    ensures Erased(s, id).byId.Keys == s.byId.Keys - {id}
  {
    if id in s.byId {
      assert s.byId[id] in s.byExpiration;
      assert IndexOf(s.byExpiration, id) < |s.byExpiration|;
    }
  }

  // ---------------------------------------------------------------------
  // The timer is never armed too late
  // ---------------------------------------------------------------------

  /** The descriptor fires at the given time, to the microsecond, but no sooner than 100 of
      them after it is set. */
  lemma DeadlineIsExact(s: State, when: int, clock: int)
    ensures Reset(s, when, clock)
         == s.(timer := Some(Timer(clock, if when - clock < 100 then clock + 100 else when)))
  {
    var ts := HowMuchTimeFromNow(when, clock);
    assert ts.nsec % 1000 == 0;
  }

  /** An added event stands behind those that expire no later, and sets the timer exactly
      when it expires before all of them, or before the last instant if there are none. */
  lemma AddedSetsTimerWhenEarliest(s: State, e: Event, clock: int) returns (k: nat)
    requires Valid(s) && e.id !in s.byId
    ensures k <= |s.byExpiration|
    ensures var t, events := AddedInLoop(s, e, clock), s.byExpiration;
      && t.byExpiration == events[..k] + [e] + events[k..] && t.byId == s.byId[e.id := e]
      && (forall i :: 0 <= i < k ==> events[i].expiration <= e.expiration)
      && (forall i :: k <= i < |events| ==> e.expiration < events[i].expiration)
      && t.timer == if k == 0 && (events == [] ==> e.expiration < 0x7FFF_FFFF_FFFF_FFFF)
                    then Some(Timer(clock, if e.expiration - clock < 100 then clock + 100 else e.expiration))
                    else s.timer
  {
    k := UpperBound(s.byExpiration, e.expiration);
    DeadlineIsExact(Inserted(s, e), e.expiration, clock);
  }

  /** The descriptor fires no later than the next expiration, or than the least delay
      after it was armed. */
  predicate Armed(s: State) {
    NextExpiration(s) < INT64_MAX ==>
      && s.timer.Some?
      && (s.timer.value.deadline <= NextExpiration(s) || s.timer.value.deadline == s.timer.value.armedAt + LEAST_DELAY)
  }

  lemma ResetArms(s: State, clock: int)
    ensures Armed(Reset(s, NextExpiration(s), clock))
    ensures Reset(s, NextExpiration(s), clock).timer.value.deadline >= clock + LEAST_DELAY
  {
  }

  lemma CarriedStaysArmed(s: State, r: Request, clock: int)
    requires Valid(s) && Armed(s)
    requires r.Insert? ==> r.event.id < s.next && r.event.id !in s.byId && Unposted(s, r.event.id)
    ensures Armed(Carried(s, r, clock))
  {
    match r
    case Insert(e) =>
      var t := Inserted(s, e);
      ResetArms(t, clock);
      InsertedIsValid(s, e);
      NextExpirationIsLeast(s);
      NextExpirationIsLeast(t);
      assert e in t.byExpiration;
    case Erase(id) =>
      ErasedIsValid(s, id);
      NextExpirationIsLeast(s);
      NextExpirationIsLeast(Erased(s, id));
  }

  lemma NextStaysArmed(s: State, step: Step)
    requires Valid(s) && Armed(s)
    ensures Armed(Next(s, step))
  {
    match step
    case Perform(op) =>
      AskedIsNew(s, op.call);
      if op.inLoop {
        CarriedStaysArmed(Asked(s, op.call), RequestOf(op.call, s.next), op.clock);
      }
    case Deliver(clock) =>
      if s.posted != [] {
        OneDelivered(s);
        CarriedStaysArmed(s.(posted := s.posted[1..]), s.posted[0], clock);
      }
    case Fire(now, scripts, clock) => ResetArms(Ran(s, now, scripts), clock);
  }

  /** Over every sequence of calls, deliveries and expiries, with any callbacks, the
      timer stays armed for the earliest timeout. */
  lemma {:induction false} EveryRunStaysArmed(s: State, steps: seq<Step>)
    requires Valid(s) && Armed(s)
    ensures Armed(From(s, steps))
    decreases |steps|
  {
    if steps != [] {
      NextIsValid(s, steps[0]);
      NextStaysArmed(s, steps[0]);
      EveryRunStaysArmed(Next(s, steps[0]), steps[1..]);
    }
  }

  /** Hence in every reachable state an event is called back by the first batch the timer
      starts once it is due and the least delay has passed, and the timer is ready then. */
  lemma DueEventIsFiredOnTime(steps: seq<Step>, e: Event, now: int)
    requires var s := From(START, steps);
      && e in s.byExpiration && e.expiration < INT64_MAX && e.expiration <= now
      && (s.timer.Some? ==> s.timer.value.armedAt + LEAST_DELAY <= now)
    ensures var s := From(START, steps);
      && s.timer.Some? && s.timer.value.deadline <= now
      && e in Due(s, now)
  {
    var s := From(START, steps);
    EveryReachableStateIsValid(steps);
    EveryRunStaysArmed(START, steps);
    NextExpirationIsLeast(s);
    DueExactly(s, now);
  }

  /** Added to an idle queue, an event starts the timer exactly when it does not expire
      at the last instant there is: a timeout at that instant alone is never fired. */
  lemma IdleQueueArmsExactlyWhen(s: State, e: Event, clock: int)
    requires Valid(s) && s.byExpiration == [] && s.timer == None
    ensures AddedInLoop(s, e, clock).timer.Some? <==> e.expiration < INT64_MAX
  {
    assert e.id !in s.byId;
  }

  lemma TimeoutAtTheLastInstantIsNotArmed()
    ensures var s := From(START, [Perform(Op(Add(INT64_MAX), true, 0))]);
      s.timer == None && s.byExpiration == [Event(1, INT64_MAX, -1)]
  {
    var op := Op(Add(INT64_MAX), true, 0);
    var s := Next(START, Perform(op));
    assert [Perform(op)][1..] == [] && From(START, [Perform(op)]) == From(s, []);
    assert s.timer == None && s.byExpiration == [Event(1, INT64_MAX, -1)];
  }

  // ---------------------------------------------------------------------
  // The queue
  // ---------------------------------------------------------------------

  class TimeoutQueue {
    var byId: map<int, Event>
    var byExpiration: seq<Event>
    var next: int
    var timer: Option<Timer>
    /** What the loop has been asked to run for this queue. */
    var posted: seq<Request>

    function Contents(): State
      reads this
    {
      State(byId, byExpiration, next, timer, posted)
    }

    constructor ()
      ensures Contents() == START
    {
      byId, byExpiration, next, timer, posted := map[], [], 1, None, [];
    }

    method ResetTimerfd(expiration: int, clock: int)
      modifies this`timer
      ensures Contents() == Reset(old(Contents()), expiration, clock)
    {
      var ts := HowMuchTimeFromNow(expiration, clock);
      timer := Some(Timer(clock, clock + ts.sec * MICROS_PER_SECOND + ts.nsec / 1000));
    }

    /** multi_index insert */
    method Insert(event: Event)
      modifies this`byId, this`byExpiration
      ensures Contents() == Inserted(old(Contents()), event)
    {
      if event.id !in byId {
        var at := UpperBound(byExpiration, event.expiration);
        byExpiration := byExpiration[..at] + [event] + byExpiration[at..];
        byId := byId[event.id := event];
      }
    }

    method AddInLoop(event: Event, clock: int)
      modifies this`byId, this`byExpiration, this`timer
      ensures Contents() == AddedInLoop(old(Contents()), event, clock)
    {
      hide Inserted, Reset;
      var reset := event.expiration < NextExpiration(Contents());
      Insert(event);
      if reset {
        ResetTimerfd(NextExpiration(Contents()), clock);
      }
    }

    method CancelInLoop(id: int)
      modifies this`byId, this`byExpiration
      ensures Contents() == Erased(old(Contents()), id)
    {
      if id in byId {
        var at := IndexOf(byExpiration, id);
        if at < |byExpiration| {
          byExpiration := byExpiration[..at] + byExpiration[at + 1..];
          byId := byId - {id};
        }
      }
    }

    /** EventLoop::Run: at once in the loop's thread, later from any other. */
    method Submit(request: Request, inLoop: bool, clock: int)
      modifies this`byId, this`byExpiration, this`timer, this`posted
      ensures inLoop ==> Contents() == Carried(old(Contents()), request, clock)
      ensures !inLoop ==> Contents() == old(Contents()).(posted := old(posted) + [request])
    {
      if inLoop {
        match request
        case Insert(event) => AddInLoop(event, clock);
        case Erase(id) => CancelInLoop(id);
      } else {
        posted := posted + [request];
      }
    }

    /** Add, AddRepeating or Cancel; an added event gets an id nobody had before. */
    method Perform(op: Op) returns (id: int)
      modifies this
      ensures Contents() == Performed(old(Contents()), op)
      ensures !op.call.Cancel? ==> id == old(next) && next == old(next) + 1
    {
      hide Carried;
      id := next;
      match op.call {
        case Add(expiration) =>
          next := next + 1;
          Submit(Request.Insert(Event(id, expiration, -1)), op.inLoop, op.clock);
        case AddRepeating(now, interval) =>
          next := next + 1;
          Submit(Request.Insert(Event(id, now + interval, interval)), op.inLoop, op.clock);
        case Cancel(which) =>
          Submit(Erase(which), op.inLoop, op.clock);
      }
    }

    /** One callback: any calls it makes, in order. */
    method Callback(script: seq<Op>)
      modifies this
      ensures Contents() == PerformedAll(old(Contents()), script)
    {
      hide Performed;
      var i := 0;
      while i < |script|
        invariant 0 <= i <= |script|
        invariant Contents() == PerformedAll(old(Contents()), script[..i])
      {
        var id := Perform(script[i]);
        assert script[..i + 1][..i] == script[..i];
        i := i + 1;
      }
      assert script[..i] == script;
    }

    /** Takes the due events out, holds the repeating ones again, and only then calls
        back every event taken, whatever the callbacks do. */
    method Run(now: int, scripts: seq<seq<Op>>) returns (fired: seq<int>, soonest: int)
      modifies this
      ensures Contents() == Ran(old(Contents()), now, scripts)
      ensures fired == Ids(Due(old(Contents()), now))
      ensures soonest == NextExpiration(Contents())
    {
      var expired := Take(now);
      ghost var taken := Contents();
      hide Inserted, CalledBack, Taken, UpperBound;
      var i := 0;
      while i < |expired|
        invariant 0 <= i <= |expired|
        invariant Contents() == Reinserted(taken, expired[..i], now)
      {
        var event := expired[i];
        assert expired[..i + 1][..i] == expired[..i];
        if event.interval >= 0 {
          Insert(event.(expiration := now + event.interval));
        }
        i := i + 1;
      }
      assert expired[..i] == expired;
      fired := CallBack(expired, scripts);
      soonest := NextExpiration(Contents());
    }

    /** Calls back every event taken, in order. */
    method CallBack(expired: seq<Event>, scripts: seq<seq<Op>>) returns (fired: seq<int>)
      modifies this
      ensures Contents() == CalledBack(old(Contents()), |expired|, scripts)
      ensures fired == Ids(expired)
    {
      hide PerformedAll;
      ghost var held := Contents();
      var i := 0;
      fired := [];
      while i < |expired|
        invariant 0 <= i <= |expired| && |fired| == i
        invariant forall k :: 0 <= k < i ==> fired[k] == expired[k].id
        invariant Contents() == CalledBack(held, i, scripts)
      {
        if i < |scripts| {
          Callback(scripts[i]);
        }
        fired := fired + [expired[i].id];
        i := i + 1;
      }
    }

    method Take(now: int) returns (expired: seq<Event>)
      modifies this`byId, this`byExpiration
      ensures expired == Due(old(Contents()), now)
      ensures Contents() == Taken(old(Contents()), |Due(old(Contents()), now)|)
    {
      var end := UpperBound(byExpiration, now);
      expired := byExpiration[..end];
      byId := map id | id in byId && id !in IdsOf(byExpiration[..end]) :: byId[id];
      byExpiration := byExpiration[end..];
    }

    method OnTimer(now: int, scripts: seq<seq<Op>>, clock: int) returns (fired: seq<int>)
      modifies this
      ensures Contents() == Next(old(Contents()), Fire(now, scripts, clock))
      ensures fired == FiredBy(old(Contents()), Fire(now, scripts, clock))
    {
      hide Ran, Reset;
      var soonest;
      fired, soonest := Run(now, scripts);
      ResetTimerfd(soonest, clock);
    }

    /** The loop runs a request that another thread left. */
    method Deliver(clock: int)
      modifies this
      ensures Contents() == Next(old(Contents()), Step.Deliver(clock))
    {
      hide Carried;
      if posted != [] {
        var request := posted[0];
        posted := posted[1..];
        Submit(request, true, clock);
      }
    }
  }
}
