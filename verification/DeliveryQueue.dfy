/**
 The persisted telemetry queue of the extension's service worker and the two loops that cut it:
 enforceQueueLimit (drop from the front) and makeBatch (send from the front).

 Sizes are UTF-8 byte counts of JSON texts.  An event's own size is given; everything around
 the events is counted here, including the commas between array elements (section 5 of RFC 8259).
 */
module DeliveryQueue {
  import opened Common

  const MAX_EVENTS: nat := 10000
  const MAX_QUEUE_BYTES: nat := 8 * 1024 * 1024
  const MAX_BATCH_BYTES: nat := 220 * 1024
  const MAX_BATCH_EVENTS: nat := 100

  /** A telemetry event: `loss` marks telemetry_loss, `browser` is its browser_session_id,
      `number` its sequence and `lost` its dropped_event_count. */
  datatype Event = Event(id: nat, loss: bool, browser: Option<nat>, number: Option<nat>, lost: nat, bytes: nat)

  datatype Queue = Queue(sessionId: Option<string>, events: seq<Event>, dropped: nat)

  /** What getQueue returns when nothing is stored. */
  const NO_QUEUE := Queue(None, [], 0)

  // ---------------------------------------------------------------- sizes

  function SumBytes(events: seq<Event>): nat {
    if events == [] then 0 else events[0].bytes + SumBytes(events[1..])
  }

  /** The JSON array of the events: brackets, elements, and one comma between neighbours. */
  function ArrayBytes(events: seq<Event>): nat {
    2 + SumBytes(events) + if events == [] then 0 else |events| - 1
  }

  function Digits(n: nat): nat {
    if n < 10 then 1 else 1 + Digits(n / 10)
  }

  function IdBytes(id: Option<string>): nat {
    match id
    case None => |"null"|
    case Some(text) => |text| + 2
  }

  /** The stored queue object: sessionId, events, dropped. */
  function QueueBytes(q: Queue): nat {
    |"{'sessionId':,'events':,'dropped':}"| + IdBytes(q.sessionId) + ArrayBytes(q.events) + Digits(q.dropped)
  }

  /** The request body: experiment_session_id, schema_version (one digit), events. */
  function BodyBytes(sessionId: string, events: seq<Event>): nat {
    |"{'experiment_session_id':,'schema_version':4,'events':}"| + IdBytes(Some(sessionId)) + ArrayBytes(events)
  }

  lemma {:induction false} SumBytesConcat(a: seq<Event>, b: seq<Event>)
    ensures SumBytes(a + b) == SumBytes(a) + SumBytes(b)
  {
    if a == [] {
      assert a + b == b;
    } else {
      Uncons(a, b);
      SumBytesConcat(a[1..], b);
    }
  }

  // ---------------------------------------------------------------- enforceQueueLimit

  /** The negation of the loop guard of enforceQueueLimit. */
  predicate Fits(q: Queue) {
    && |q.events| <= MAX_EVENTS
    && (q.events == [] || QueueBytes(q) <= MAX_QUEUE_BYTES)
  }

  /** How many events have to go from the front until the rest fits. */
  function TrimCount(q: Queue): (k: nat)
    ensures k <= |q.events|
    decreases |q.events|
  {
    if Fits(q) then 0 else 1 + TrimCount(q.(events := q.events[1..]))
  }

  /** Exactly the suffixes that leave out at least TrimCount events fit, so what enforceQueueLimit
      keeps is the longest suffix within both limits. */
  lemma {:induction false} TrimKeepsLongestSuffix(q: Queue, j: nat)
    requires j <= |q.events|
    ensures Fits(q.(events := q.events[j..])) <==> TrimCount(q) <= j
    decreases |q.events|
  {
    if j > 0 {
      var rest := q.(events := q.events[1..]);
      assert q.events[j..] == rest.events[j - 1..];
      TrimKeepsLongestSuffix(rest, j - 1);
      if Fits(q) {
        SumBytesConcat(q.events[..j], q.events[j..]);
        assert q.events[..j] + q.events[j..] == q.events;
      }
    } else {
      assert q.events[0..] == q.events;
    }
  }

  method EnforceQueueLimit(q: Queue) returns (r: Queue)
    ensures r == q.(events := q.events[TrimCount(q)..], dropped := q.dropped + TrimCount(q))
    ensures |r.events| <= MAX_EVENTS
  {
    var events := q.events;
    var dropped := 0;
    while !Fits(q.(events := events))
      invariant dropped <= |q.events| && events == q.events[dropped..]
      invariant TrimCount(q) == dropped + TrimCount(q.(events := events))
      decreases |events|
    {
      events := events[1..];
      dropped := dropped + 1;
    }
    r := q.(events := events, dropped := q.dropped + dropped);
  }

  // ---------------------------------------------------------------- makeBatch

  /** Size estimate of makeBatch: the body with no events, then each event and one more byte. */
  function EstimateBytes(sessionId: string, events: seq<Event>): nat {
    BodyBytes(sessionId, []) + SumBytes(events) + |events|
  }

  /** n is the number of events makeBatch takes: as many as the estimate allows, but at least one. */
  ghost predicate IsBatchSize(sessionId: string, events: seq<Event>, n: nat) {
    && n <= |events| && n <= MAX_BATCH_EVENTS
    && (events != [] ==> n > 0)
    && (n > 1 ==> EstimateBytes(sessionId, events[..n]) <= MAX_BATCH_BYTES)
    && (0 < n < |events| && n < MAX_BATCH_EVENTS ==> EstimateBytes(sessionId, events[..n + 1]) > MAX_BATCH_BYTES)
  }

  lemma EstimateGrows(sessionId: string, events: seq<Event>, m: nat, n: nat)
    requires m <= n <= |events|
    ensures EstimateBytes(sessionId, events[..m]) <= EstimateBytes(sessionId, events[..n])
  {
    assert events[..n] == events[..m] + events[m..n];
    SumBytesConcat(events[..m], events[m..n]);
  }

  /** The batch is determined: no other prefix length meets the description. */
  lemma BatchSizeUnique(sessionId: string, events: seq<Event>, m: nat, n: nat)
    requires IsBatchSize(sessionId, events, m) && IsBatchSize(sessionId, events, n)
    ensures m == n
  {
    if m < n {
      EstimateGrows(sessionId, events, m + 1, n);
    } else if n < m {
      EstimateGrows(sessionId, events, n + 1, m);
    }
  }

  /** The body that is really sent, array commas included, is within the limit unless it carries
      a single event; and the estimate overshoots the body by exactly one byte. */
  lemma BatchBodyWithinLimit(sessionId: string, events: seq<Event>, n: nat)
    requires IsBatchSize(sessionId, events, n)
    ensures n > 1 ==> BodyBytes(sessionId, events[..n]) <= MAX_BATCH_BYTES
    ensures n > 0 ==> EstimateBytes(sessionId, events[..n]) == BodyBytes(sessionId, events[..n]) + 1
    ensures events != [] ==> |events[n..]| < |events|
  {
  }

  method MakeBatch(q: Queue, sessionId: string) returns (batch: seq<Event>)
    ensures IsBatchSize(sessionId, q.events, |batch|)
    ensures batch == q.events[..|batch|]
  {
    batch := [];
    var bytes := BodyBytes(sessionId, []);
    var limit := if |q.events| < MAX_BATCH_EVENTS then |q.events| else MAX_BATCH_EVENTS;
    for i := 0 to limit
      invariant |batch| == i && batch == q.events[..i]
      invariant bytes == EstimateBytes(sessionId, batch)
      invariant i > 1 ==> bytes <= MAX_BATCH_BYTES
    {
      var event := q.events[i];
      var eventBytes := event.bytes + 1;
      assert q.events[..i + 1] == batch + [event];
      SumBytesConcat(batch, [event]);
      if batch != [] && bytes + eventBytes > MAX_BATCH_BYTES {
        break;
      }
      batch := batch + [event];
      bytes := bytes + eventBytes;
    }
  }
}
