/**
 The discrete-event loop of a synthetic participant: events wait in a queue until a flush posts them in
 batches, and three timers (flush, heartbeat, activity) fire while simulated time advances.
 Times are nanoseconds.
 */
module Simulator {
  import opened Common
  import opened Random
  import opened Typing

  const BATCH: nat := 100

  datatype Field = Essay | Question | Chat | Unknown

  datatype Payload =
    | Keystroke(field: Field, key: Key)
    | Paste(field: Field, text: string)
    | Plain(field: Field, kind: string)

  /** An event that happened at a time and may be sent from another time on. */
  datatype Event = Event(ready: int, at: int, payload: Payload)

  datatype Kind = ActivityTimer | FlushTimer | HeartbeatTimer  // in the order in which ties are broken

  datatype Timers = Timers(flush: Option<int>, heartbeat: Option<int>, activity: Option<int>)

  // ---------------------------------------------------------------- requests

  datatype Endpoint = ToTelemetry | ToHeartbeat | ToActivity | ToApi

  /** The simulated clock and the requests made so far; request number i gets the server's i-th status. */
  datatype Wire = Wire(clock: int, asked: seq<Endpoint>)

  /** A status with which the simulation goes on: a refused batch is only counted, the answers to heartbeats and
      activity reports switch timers, and any other call must succeed. */
  predicate Fine(e: Endpoint, status: nat) {
    match e
    case ToTelemetry => status == 200 || status == 409
    case ToApi => status == 200
    case _ => true
  }

  ghost predicate AllFine(server: nat -> nat, asked: seq<Endpoint>, from: nat) {
    forall i :: from <= i < |asked| ==> Fine(asked[i], server(i))
  }

  /** Time does not go back, requests are only added, and the outcome is good exactly if the server's status was
      fine for each request added. */
  ghost predicate Served(server: nat -> nat, before: Wire, after: Wire, ok: bool) {
    && before.clock <= after.clock && before.asked <= after.asked
    && (ok <==> AllFine(server, after.asked, |before.asked|))
  }

  lemma ServedThen(server: nat -> nat, a: Wire, b: Wire, c: Wire, ok: bool)
    requires Served(server, a, b, true) && Served(server, b, c, ok)
    ensures Served(server, a, c, ok)
  {
    assert forall i :: |a.asked| <= i < |b.asked| ==> c.asked[i] == b.asked[i];
  }

  lemma ServedOne(server: nat -> nat, a: Wire, e: Endpoint, clock: int)
    requires clock >= a.clock
    ensures Served(server, a, Wire(clock, a.asked + [e]), Fine(e, server(|a.asked|)))
  {
    var asked := a.asked + [e];
    assert asked[|a.asked|] == e;
  }

  // ---------------------------------------------------------------- queue arithmetic

  function Ready(queue: seq<Event>, cutoff: int): seq<Event> {
    if queue == [] then []
    else (if queue[0].ready <= cutoff then [queue[0]] else []) + Ready(queue[1..], cutoff)
  }

  function Later(queue: seq<Event>, cutoff: int): seq<Event> {
    if queue == [] then []
    else (if queue[0].ready <= cutoff then [] else [queue[0]]) + Later(queue[1..], cutoff)
  }

  lemma {:induction false} ReadyOrLater(queue: seq<Event>, cutoff: int)
    ensures multiset(Ready(queue, cutoff)) + multiset(Later(queue, cutoff)) == multiset(queue)
    ensures forall e :: e in Ready(queue, cutoff) ==> e.ready <= cutoff
    ensures forall e :: e in Later(queue, cutoff) ==> e.ready > cutoff
  {
    if queue != [] {
      ReadyOrLater(queue[1..], cutoff);
      assert queue == [queue[0]] + queue[1..];
    }
  }

  /** Insertion behind everything that is not later: what a stable sort does. */
  function Insert(e: Event, sorted: seq<Event>): seq<Event> {
    if sorted == [] || sorted[|sorted| - 1].ready <= e.ready then sorted + [e]
    else Insert(e, sorted[..|sorted| - 1]) + [sorted[|sorted| - 1]]
  }

  /** `sorted(ready, key=...)`. */
  function ByReady(events: seq<Event>): seq<Event> {
    if events == [] then [] else Insert(events[|events| - 1], ByReady(events[..|events| - 1]))
  }

  ghost predicate Ordered(events: seq<Event>) {
    forall i, j :: 0 <= i < j < |events| ==> events[i].ready <= events[j].ready
  }

  lemma {:induction false} InsertAdds(e: Event, sorted: seq<Event>)
    ensures multiset(Insert(e, sorted)) == multiset(sorted) + multiset{e}
  {
    if sorted != [] && sorted[|sorted| - 1].ready > e.ready {
      var init, last := sorted[..|sorted| - 1], sorted[|sorted| - 1];
      InsertAdds(e, init);
      assert sorted == init + [last];
    }
  }

  lemma OrderedAppend(r: seq<Event>, last: Event)
    requires Ordered(r) && forall x :: x in r ==> x.ready <= last.ready
    ensures Ordered(r + [last])
  {
  }

  lemma {:induction false} InsertSorts(e: Event, sorted: seq<Event>)
    requires Ordered(sorted)
    ensures Ordered(Insert(e, sorted)) && multiset(Insert(e, sorted)) == multiset(sorted) + multiset{e}
  {
    InsertAdds(e, sorted);
    if sorted != [] && sorted[|sorted| - 1].ready > e.ready {
      var init, last := sorted[..|sorted| - 1], sorted[|sorted| - 1];
      InsertSorts(e, init);
      forall x | x in Insert(e, init)
        ensures x.ready <= last.ready
      {
        assert x in multiset(Insert(e, init));
        assert x == e || x in init;
      }
      OrderedAppend(Insert(e, init), last);
    } else {
      OrderedAppend(sorted, e);
    }
  }

  lemma {:induction false} ByReadySorts(events: seq<Event>)
    ensures Ordered(ByReady(events)) && multiset(ByReady(events)) == multiset(events)
  {
    if events != [] {
      var init, last := events[..|events| - 1], events[|events| - 1];
      assert multiset(events) == multiset(init) + multiset{last} by {
        assert events == init + [last];
      }
      ByReadySorts(init);
      InsertSorts(last, ByReady(init));
    }
  }

  function Earliest(queue: seq<Event>): (t: int)
    requires queue != []
    ensures forall e :: e in queue ==> t <= e.ready
    ensures exists e :: e in queue && e.ready == t
  {
    if |queue| == 1 then queue[0].ready else
      var rest := Earliest(queue[1..]);
      assert forall e :: e in queue ==> e == queue[0] || e in queue[1..];
      if queue[0].ready < rest then queue[0].ready else rest
  }

  function Flatten(batches: seq<seq<Event>>): seq<Event> {
    if batches == [] then [] else Flatten(batches[..|batches| - 1]) + batches[|batches| - 1]
  }

  /** The batches of one flush: full ones, then the rest. */
  ghost predicate Batched(batches: seq<seq<Event>>, events: seq<Event>) {
    && Flatten(batches) == events
    && (forall b :: b in batches ==> 0 < |b| <= BATCH)
    && (forall i :: 0 <= i < |batches| - 1 ==> |batches[i]| == BATCH)
  }

  lemma BatchedMore(batches: seq<seq<Event>>, batch: seq<Event>, events: seq<Event>, start: nat, end: nat)
    requires start < end <= |events| && end - start <= BATCH && batch == events[start..end]
    requires Batched(batches, events[..start]) && forall b :: b in batches ==> |b| == BATCH
    ensures Batched(batches + [batch], events[..end])
  {
    assert (batches + [batch])[..|batches|] == batches;
    assert events[..end] == events[..start] + batch;
  }

  // ---------------------------------------------------------------- timers

  predicate Due(timer: Option<int>, target: int) {
    timer.Some? && timer.value <= target
  }

  predicate AnyDue(timers: Timers, target: int) {
    Due(timers.flush, target) || Due(timers.heartbeat, target) || Due(timers.activity, target)
  }

  function TimerOf(timers: Timers, kind: Kind): Option<int> {
    match kind
    case ActivityTimer => timers.activity
    case FlushTimer => timers.flush
    case HeartbeatTimer => timers.heartbeat
  }

  /** `min(due)`: the earliest timer, ties in alphabetical order of the kinds. */
  function NextTimer(timers: Timers, target: int): (r: Kind)
    requires AnyDue(timers, target)
    ensures Due(TimerOf(timers, r), target)
    ensures forall k: Kind :: TimerOf(timers, k).Some? ==> TimerOf(timers, r).value <= TimerOf(timers, k).value
    ensures timers.activity == TimerOf(timers, r) ==> r.ActivityTimer?
    ensures timers.flush == TimerOf(timers, r) ==> !r.HeartbeatTimer?
  {
    var a, f, h := timers.activity, timers.flush, timers.heartbeat;
    if a.Some? && (f.Some? ==> a.value <= f.value) && (h.Some? ==> a.value <= h.value) then ActivityTimer
    else if f.Some? && (h.Some? ==> f.value <= h.value) then FlushTimer
    else HeartbeatTimer
  }

  /** Full seconds from a due timer to the target, rounded up; 0 if it is not due. */
  function Lag(timer: Option<int>, target: int): nat {
    if Due(timer, target) then (target - timer.value) / NS + 1 else 0
  }

  function TotalLag(timers: Timers, target: int): nat {
    Lag(timers.flush, target) + Lag(timers.heartbeat, target) + Lag(timers.activity, target)
  }

  /** The timer is off or more than a second after the given time. */
  predicate MovedPast(timer: Option<int>, when: int) {
    timer.Some? ==> timer.value > when + NS
  }

  lemma LagDecreases(before: Option<int>, after: Option<int>, target: int)
    requires Due(before, target) && MovedPast(after, before.value)
    ensures Lag(after, target) < Lag(before, target)
  {
  }

  // ---------------------------------------------------------------- what a flush does

  function Cutoff(when: int, force: bool): int {
    if force then when else when - 1000 * MS
  }

  /** The flush timer after a flush follows the first event left. */
  function FlushTimerAfter(queue: seq<Event>): Option<int> {
    if queue == [] then None else Some(Earliest(queue) + 2500 * MS)
  }

  /** The end of the outage that is going on at a time. */
  function OutageAt(offline: Option<(int, int)>, when: int): Option<int> {
    if offline.Some? && offline.value.0 <= when < offline.value.1 then Some(offline.value.1) else None
  }

  /** What a flush does: nothing during an outage, except that the timer moves up to half a minute behind it;
      otherwise it posts the ready events in order of readiness, keeps the others, and the timer follows the
      first of them. */
  predicate Flushed(outage: Option<int>, cutoff: int, before: seq<Event>, after: seq<Event>, timer: Option<int>, posted: seq<Event>)
  {
    match outage
    case Some(end) => posted == [] && after == before && timer.Some? && end + NS <= timer.value <= end + 30 * NS
    case None => posted == ByReady(Ready(before, cutoff)) && after == Later(before, cutoff) && timer == FlushTimerAfter(after)
  }

  /** Nothing is lost or posted twice, what is posted is in order, and while anything waits the timer is set, to
      more than a second ahead. */
  lemma FlushedKeepsEvents(offline: Option<(int, int)>, when: int, force: bool, before: seq<Event>, after: seq<Event>,
      timer: Option<int>, posted: seq<Event>)
    requires Flushed(OutageAt(offline, when), Cutoff(when, force), before, after, timer, posted)
    ensures multiset(posted) + multiset(after) == multiset(before) && Ordered(posted)
    ensures after != [] ==> timer.Some?
  {
    if OutageAt(offline, when).None? {
      ReadyOrLater(before, Cutoff(when, force));
      ByReadySorts(Ready(before, Cutoff(when, force)));
    }
  }

  /** What was ready by a time is posted, what was not is left, and the timer is set to two and a half seconds after
      the first event left. */
  ghost predicate SplitAt(time: int, left: seq<Event>, timer: Option<int>, posted: seq<Event>) {
    && (forall e :: e in left ==> e.ready > time) && (forall e :: e in posted ==> e.ready <= time)
    && (timer.None? <==> left == [])
    && (left != [] ==> exists e :: e in left && timer.value == e.ready + 2_500_000_000)
    && (forall e :: e in left ==> timer.value <= e.ready + 2_500_000_000)
  }

  /** A flush outside an outage leaves only events later than its time if it is forced, and only those later than a
      second before its time otherwise; the others are posted. */
  lemma FlushedExactly(offline: Option<(int, int)>, when: int, force: bool, before: seq<Event>, after: seq<Event>,
      timer: Option<int>, posted: seq<Event>)
    requires Flushed(OutageAt(offline, when), Cutoff(when, force), before, after, timer, posted)
    requires offline.None? || when < offline.value.0 || offline.value.1 <= when
    ensures SplitAt(if force then when else when - 1_000_000_000, after, timer, posted)
  {
    ReadyOrLater(before, Cutoff(when, force));
    ReadyOnly(before, Cutoff(when, force));
    TimerFollows(after);
  }

  lemma ReadyOnly(queue: seq<Event>, cutoff: int)
    ensures forall e :: e in ByReady(Ready(queue, cutoff)) ==> e.ready <= cutoff
  {
    var ready := Ready(queue, cutoff);
    ReadyOrLater(queue, cutoff);
    ByReadySorts(ready);
    assert forall e :: e in ByReady(ready) ==> e in multiset(ByReady(ready)) && e in multiset(ready);
  }

  lemma TimerFollows(queue: seq<Event>)
    ensures FlushTimerAfter(queue).None? <==> queue == []
    ensures queue != [] ==> exists e :: e in queue && FlushTimerAfter(queue).value == e.ready + 2_500_000_000
    ensures forall e :: e in queue ==> FlushTimerAfter(queue).value <= e.ready + 2_500_000_000
  {
    if queue != [] {
      var first := Earliest(queue);
      var e :| e in queue && e.ready == first;
      assert FlushTimerAfter(queue).value == e.ready + 2_500_000_000;
    }
  }

  lemma FlushedMovesPast(offline: Option<(int, int)>, when: int, force: bool, before: seq<Event>, after: seq<Event>,
      timer: Option<int>, posted: seq<Event>)
    requires Flushed(OutageAt(offline, when), Cutoff(when, force), before, after, timer, posted)
    ensures MovedPast(timer, when)
  {
    ReadyOrLater(before, Cutoff(when, force));
  }

  lemma NoneReady(cutoff: int, queue: seq<Event>)
    requires Ready(queue, cutoff) == []
    ensures Flushed(None, cutoff, queue, queue, FlushTimerAfter(queue), [])
  {
    NothingReady(queue, cutoff);
  }

  /** The batches of a flush that posts nothing. */
  lemma NoBatches()
    ensures Flatten([]) == [] && Batched([], [])
  {
  }

  lemma SentAndLeft(log: seq<Event>, sent: seq<Event>, before: seq<Event>, cutoff: int)
    requires multiset(log) == multiset(sent) + multiset(before)
    ensures multiset(log) == multiset(sent + ByReady(Ready(before, cutoff))) + multiset(Later(before, cutoff))
  {
    ReadyOrLater(before, cutoff);
    ByReadySorts(Ready(before, cutoff));
  }

  /** The full milliseconds between two times, between 0 and 30000. */
  function ActiveMs(since: int, when: int): (ms: int)
    ensures 0 <= ms <= 30000
  {
    var elapsed := (when - since) / MS;
    if elapsed < 0 then 0 else if elapsed > 30000 then 30000 else elapsed
  }

  predicate SameButFlush(a: Timers, b: Timers) {
    a.heartbeat == b.heartbeat && a.activity == b.activity
  }

  class Participant {
    const server: nat -> nat     // the status of each request, in the order in which they are made
    var t: int
    var queue: seq<Event>
    var timers: Timers
    var offline: Option<(int, int)>
    var extensionUntil: Option<int>
    var activeSince: Option<int>
    var away: bool
    var tracking: bool
    var wire: Wire
    ghost var log: seq<Event>    // every event taken into the queue
    ghost var sent: seq<Event>   // every event posted

    /** No event is lost or posted twice. */
    ghost predicate Conserved()
      reads this
    {
      multiset(log) == multiset(sent) + multiset(queue)
    }

    constructor (start: int, server: nat -> nat)
      ensures Conserved() && log == [] && t == start && this.server == server && !tracking
    {
      this.server := server;
      t, wire := start, Wire(start, []);
      queue, log, sent := [], [], [];
      timers := Timers(None, None, None);
      offline, extensionUntil, activeSince := None, None, None;
      away, tracking := false, false;
    }

    /** CLOCK.set: simulated time never goes back, and reaches the value. */
    method SetClock(value: int)
      modifies this`wire
      ensures wire.asked == old(wire).asked && wire.clock >= old(wire).clock && wire.clock >= value
      ensures wire.clock == value || wire == old(wire)
    {
      if value > wire.clock {
        wire := wire.(clock := value);
      }
    }

    /** request */
    method Request(e: Endpoint) returns (status: nat)
      modifies this`wire
      ensures wire == old(wire).(asked := old(wire).asked + [e]) && status == server(|old(wire).asked|)
      ensures Served(server, old(wire), wire, Fine(e, status))
    {
      ServedOne(server, wire, e, wire.clock);
      status := server(|wire.asked|);
      wire := wire.(asked := wire.asked + [e]);
    }

    /** event: taken only while tracking; the first one waiting sets the flush timer. */
    method Emit(ready: int, at: int, payload: Payload)
      requires Conserved()
      modifies this`queue, this`timers, this`log
      ensures Conserved()
      ensures if tracking then
          && log == old(log) + [Event(ready, at, payload)] && queue == old(queue) + [Event(ready, at, payload)]
          && timers.flush.Some? && timers.(flush := old(timers).flush) == old(timers)
          && (if old(timers).flush.Some? then timers == old(timers)
              else ready + 2505 * MS <= timers.flush.value <= ready + 2680 * MS)
        else log == old(log) && queue == old(queue) && timers == old(timers)
    {
      if !tracking {
        return;
      }
      var e := Event(ready, at, payload);
      queue, log := queue + [e], log + [e];
      if timers.flush.None? {
        var extra := RandInt(5, 180);
        timers := timers.(flush := Some(ready + 2500 * MS + extra * MS));
      }
    }

    /** One batch of a flush. */
    method PostBatch() returns (ok: bool)
      modifies this`wire
      ensures Served(server, old(wire), wire, ok)
      ensures wire.asked == old(wire).asked + [ToTelemetry]
      ensures ok <==> server(|old(wire).asked|) == 200 || server(|old(wire).asked|) == 409
    {
      ghost var before := wire;
      var status := Request(ToTelemetry);
      ok := status == 200 || status == 409;
      var pause := RandInt(4, 30);
      SetClock(wire.clock + pause * MS);
      ServedOne(server, before, ToTelemetry, wire.clock);
    }

    /** The loop over the batches of a flush: it goes on while the server's status is fine. */
    method Post(events: seq<Event>) returns (ok: bool, ghost batches: seq<seq<Event>>)
      modifies this`wire
      ensures Served(server, old(wire), wire, ok)
      ensures ok ==> Batched(batches, events) && |wire.asked| == |old(wire).asked| + |batches|
    {
      ghost var before := wire;
      ok, batches := true, [];
      var start := 0;
      while start < |events|
        invariant ok && Served(server, before, wire, true) && |wire.asked| == |before.asked| + |batches|
        invariant start == |batches| * BATCH || start == |events|
        invariant start <= |events| && Batched(batches, events[..start])
        invariant start < |events| ==> forall b :: b in batches ==> |b| == BATCH
        decreases |events| - start
      {
        var end := if start + BATCH < |events| then start + BATCH else |events|;
        ghost var batch := events[start..end];
        ghost var middle := wire;
        ok := PostBatch();
        ServedThen(server, before, middle, wire, ok);
        if !ok {
          return;
        }
        BatchedMore(batches, batch, events, start, end);
        batches := batches + [batch];
        start := end;
      }
      assert events[..|events|] == events;
    }

    /** flush: either the network is out, or everything old enough is posted. */
    method Flush(when: int, force: bool) returns (ok: bool, ghost batches: seq<seq<Event>>)
      requires Conserved()
      modifies this`queue, this`timers, this`wire, this`sent
      ensures SameButFlush(old(timers), timers) && Served(server, old(wire), wire, ok)
      ensures ok ==> Conserved() && sent == old(sent) + Flatten(batches) && Batched(batches, Flatten(batches))
      ensures ok ==> Flushed(OutageAt(offline, when), Cutoff(when, force), old(queue), queue, timers.flush, Flatten(batches))
      ensures offline.Some? && offline.value.0 <= when < offline.value.1 ==>
        && ok && batches == [] && queue == old(queue) && wire == old(wire) && timers.flush.Some?
        && offline.value.1 + 1_000_000_000 <= timers.flush.value <= offline.value.1 + 30_000_000_000
      ensures ok && (offline.None? || when < offline.value.0 || offline.value.1 <= when) ==>
        SplitAt(if force then when else when - 1_000_000_000, queue, timers.flush, Flatten(batches))
    {
      ghost var before := queue;
      if offline.Some? && offline.value.0 <= when < offline.value.1 {
        NoBatches();
        ok, batches := true, [];
        var extra := RandInt(1, 30);
        timers := timers.(flush := Some(offline.value.1 + extra * NS));
      } else {
        ok, batches := FlushOnline(Cutoff(when, force));
        if ok {
          FlushedExactly(offline, when, force, before, queue, timers.flush, Flatten(batches));
        }
      }
    }

    method FlushOnline(cutoff: int) returns (ok: bool, ghost batches: seq<seq<Event>>)
      requires Conserved()
      modifies this`queue, this`timers, this`wire, this`sent
      ensures SameButFlush(old(timers), timers) && Served(server, old(wire), wire, ok)
      ensures ok ==> Conserved() && sent == old(sent) + Flatten(batches) && Batched(batches, Flatten(batches))
      ensures ok ==> Flushed(None, cutoff, old(queue), queue, timers.flush, Flatten(batches))
    {
      if Ready(queue, cutoff) == [] {
        NoBatches();
        NoneReady(cutoff, queue);
        ok, batches := true, [];
        timers := timers.(flush := FlushTimerAfter(queue));
      } else {
        ok, batches := PostReady(cutoff);
      }
    }

    /** The rest of flush: something is old enough to be posted. */
    method PostReady(cutoff: int) returns (ok: bool, ghost batches: seq<seq<Event>>)
      requires Conserved()
      modifies this`queue, this`timers, this`wire, this`sent
      ensures SameButFlush(old(timers), timers) && Served(server, old(wire), wire, ok)
      ensures ok ==> Conserved() && sent == old(sent) + Flatten(batches) && Batched(batches, Flatten(batches))
      ensures ok ==> Flushed(None, cutoff, old(queue), queue, timers.flush, Flatten(batches))
    {
      ghost var before := queue;
      var events, rest := ByReady(Ready(queue, cutoff)), Later(queue, cutoff);
      queue := rest;
      timers := timers.(flush := None);
      ok, batches := Post(events);
      if ok {
        SentAndLeft(log, sent, before, cutoff);
        sent := sent + events;
        timers := timers.(flush := FlushTimerAfter(rest));
      }
    }

    /** heartbeat: the next one is due about twenty seconds later, unless the extension is gone or the
        server is no longer interested. */
    method Heartbeat(when: int)
      modifies this`timers, this`wire
      ensures timers.(heartbeat := old(timers).heartbeat) == old(timers) && Served(server, old(wire), wire, true)
      ensures timers.heartbeat.Some? ==> when + 20 * NS - 40 * MS <= timers.heartbeat.value <= when + 20 * NS + 40 * MS
      ensures
        var gone := extensionUntil.Some? && when > extensionUntil.value;
        && (timers.heartbeat.None? <==> gone || server(|old(wire).asked|) == 409)
        && wire.asked == old(wire).asked + if gone then [] else [ToHeartbeat]
    {
      var jitter := RandInt(-40, 40);
      timers := timers.(heartbeat := Some(when + 20 * NS + jitter * MS));
      if extensionUntil.Some? && when > extensionUntil.value {
        timers := timers.(heartbeat := None);
        return;
      }
      var status := Request(ToHeartbeat);
      if status == 409 {
        timers := timers.(heartbeat := None);
      }
    }

    /** activity: reports the active time since the last report, at most thirty seconds. */
    method Activity(when: int) returns (reported: int)
      modifies this`timers, this`activeSince, this`wire
      ensures timers.(activity := old(timers).activity) == old(timers) && Served(server, old(wire), wire, true)
      ensures timers.activity.Some? ==> when + 10 * NS <= timers.activity.value <= when + 10 * NS + 30 * MS
      ensures timers.activity.None? <==> reported > 0 && server(|old(wire).asked|) != 200
      ensures wire.asked == old(wire).asked + if reported > 0 then [ToActivity] else []
      ensures activeSince == if away || old(activeSince).None? then old(activeSince) else Some(when)
      ensures reported == if away || old(activeSince).None? then 0 else ActiveMs(old(activeSince).value, when)
    {
      reported := 0;
      var jitter := RandInt(0, 30);
      timers := timers.(activity := Some(when + 10 * NS + jitter * MS));
      if away || activeSince.None? {
        return;
      }
      var elapsed := (when - activeSince.value) / MS;
      if elapsed > 30000 {
        elapsed := 30000;
      }
      activeSince := Some(when);
      if elapsed > 0 {
        reported := elapsed;
        var status := Request(ToActivity);
        if status != 200 {
          timers := timers.(activity := None);
        }
      }
    }

    /** One turn of advance: runs the handler of the earliest timer. */
    method Fire(kind: Kind, when: int) returns (ok: bool)
      requires Conserved() && TimerOf(timers, kind) == Some(when)
      modifies this`queue, this`timers, this`wire, this`sent, this`activeSince
      ensures Served(server, old(wire), wire, ok)
      ensures ok ==> Conserved() && Moved(kind, when, old(timers), timers)
      ensures ok ==> PostsOld(old(sent), sent, when)
      ensures kind != FlushTimer ==> sent == old(sent) && queue == old(queue)
    {
      ok := true;
      ghost var start := wire;
      SetClock(when);
      ghost var middle := wire;
      match kind {
        case FlushTimer =>
          ghost var before, posted, batches := queue, sent, [];
          ok, batches := Flush(when, false);
          if ok {
            FlushedMovesPast(offline, when, false, before, queue, timers.flush, Flatten(batches));
            MorePosted(posted, Flatten(batches), when);
          }
        case HeartbeatTimer =>
          Heartbeat(when);
        case ActivityTimer =>
          var _ := Activity(when);
      }
      ServedThen(server, start, middle, wire, ok);
    }

    /** advance: fires the due timers, earliest first, until none is due; terminates because every handler
        moves its own timer more than a second on or switches it off. */
    method Advance(target: int) returns (ok: bool, ghost fired: seq<int>)
      requires Conserved()
      modifies this`queue, this`timers, this`wire, this`sent, this`activeSince
      ensures Served(server, old(wire), wire, ok)
      ensures ok ==> Conserved() && !AnyDue(timers, target) && wire.clock >= target
      ensures ok && timers.flush.Some? ==> timers.flush.value > target
      ensures ok && timers.heartbeat.Some? ==> timers.heartbeat.value > target
      ensures ok && timers.activity.Some? ==> timers.activity.value > target
      ensures InOrder(fired, target)
      ensures ok ==> PostsOld(old(sent), sent, target)
      ensures !AnyDue(old(timers), target) ==> ok && fired == []
    {
      ghost var start := wire;
      fired, ok := [], true;
      while AnyDue(timers, target)
        invariant ok && Conserved() && Served(server, start, wire, true)
        invariant InOrder(fired, target) && PostsOld(old(sent), sent, target)
        invariant fired != [] ==> AllFrom(timers, fired[|fired| - 1])
        invariant fired == [] ==> timers == old(timers)
        invariant AnyDue(old(timers), target) || fired == []
        decreases TotalLag(timers, target)
      {
        var kind := NextTimer(timers, target);
        var when := TimerOf(timers, kind).value;
        NextIsEarliest(timers, target, if fired == [] then when else fired[|fired| - 1]);
        ghost var before, middle, posted := timers, wire, sent;
        assert AnyDue(old(timers), target);
        ok := Fire(kind, when);
        ServedThen(server, start, middle, wire, ok);
        if !ok {
          return;
        }
        MovedLags(kind, when, before, timers, target);
        PostsOldThen(old(sent), posted, sent, when, target);
        fired := fired + [when];
      }
      ghost var middle := wire;
      SetClock(target);
      ServedThen(server, start, middle, wire, true);
    }
  }

  /** Times that do not go back, none after the limit. */
  ghost predicate InOrder(times: seq<int>, limit: int) {
    && (forall i :: 0 <= i < |times| ==> times[i] <= limit)
    && (forall i, j :: 0 <= i < j < |times| ==> times[i] <= times[j])
  }

  /** What has been posted since was ready at least a second before a time. */
  ghost predicate PostsOld(before: seq<Event>, after: seq<Event>, when: int) {
    before <= after && forall i :: |before| <= i < |after| ==> after[i].ready <= when - 1_000_000_000
  }

  lemma MorePosted(before: seq<Event>, posted: seq<Event>, when: int)
    requires forall e :: e in posted ==> e.ready <= when - 1_000_000_000
    ensures PostsOld(before, before + posted, when)
  {
  }

  lemma PostsOldThen(a: seq<Event>, b: seq<Event>, c: seq<Event>, when: int, target: int)
    requires PostsOld(a, b, target) && PostsOld(b, c, when) && when <= target
    ensures PostsOld(a, c, target)
  {
    assert forall i :: |a| <= i < |b| ==> c[i] == b[i];
  }

  /** Only one timer changed: it went more than a second past the given time, or off. */
  predicate Moved(kind: Kind, when: int, before: Timers, after: Timers) {
    match kind
    case FlushTimer => after.(flush := before.flush) == before && MovedPast(after.flush, when)
    case HeartbeatTimer => after.(heartbeat := before.heartbeat) == before && MovedPast(after.heartbeat, when)
    case ActivityTimer => after.(activity := before.activity) == before && MovedPast(after.activity, when)
  }

  lemma NextIsEarliest(timers: Timers, target: int, last: int)
    requires AnyDue(timers, target)
    ensures var when := TimerOf(timers, NextTimer(timers, target)).value;
      AllFrom(timers, when) && when <= target && (AllFrom(timers, last) ==> last <= when)
  {
  }

  lemma MovedLags(kind: Kind, when: int, before: Timers, after: Timers, target: int)
    requires Due(TimerOf(before, kind), target) && TimerOf(before, kind).value == when
    requires Moved(kind, when, before, after) && AllFrom(before, when)
    ensures TotalLag(after, target) < TotalLag(before, target) && AllFrom(after, when)
  {
    match kind
    case FlushTimer => LagDecreases(before.flush, after.flush, target);
    case HeartbeatTimer => LagDecreases(before.heartbeat, after.heartbeat, target);
    case ActivityTimer => LagDecreases(before.activity, after.activity, target);
  }

  /** No timer is set before the given time. */
  predicate AllFrom(timers: Timers, when: int) {
    && (timers.flush.Some? ==> when <= timers.flush.value)
    && (timers.heartbeat.Some? ==> when <= timers.heartbeat.value)
    && (timers.activity.Some? ==> when <= timers.activity.value)
  }

  lemma {:induction false} NothingReady(queue: seq<Event>, cutoff: int)
    requires Ready(queue, cutoff) == []
    ensures Later(queue, cutoff) == queue
  {
    if queue != [] {
      NothingReady(queue[1..], cutoff);
    }
  }
}
