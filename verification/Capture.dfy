/**
 The content script: key presses waiting for their release, the buffer of captured events and the
 messages that carry it to the service worker.  Each method is one uninterrupted piece of script.
 The decision when to track is the machine of module CaptureControl; every method says which of its
 moves it makes, so that what is proved of runs of moves holds of the script.
 */
module Capture {
  import opened Common
  import opened CaptureControl

  const SEND_AT: nat := 50
  const KEEP_AT_MOST: nat := 500
  const HOLDS_PER_KEY: nat := 10
  const MAX_HOLD_MS := 600000

  /** A captured event; keystrokes get their hold duration on release. */
  datatype Captured = Captured(id: nat, holdMs: Option<int>)

  /** A key press without its release; the signature is field context and key class. */
  datatype Hold = Hold(signature: string, event: Captured, startedAt: int)

  /** How a hold ended: passed to queue at a time, or forgotten when tracking was cut off. */
  datatype Departure = Handed(hold: Hold, at: int) | Cleared(hold: Hold)

  function Release(h: Hold, at: int): Captured {
    h.event.(holdMs := Some(if at - h.startedAt < MAX_HOLD_MS then at - h.startedAt else MAX_HOLD_MS))
  }

  /** The holds of one signature, in order. */
  function Of(holds: seq<Hold>, signature: string): seq<Hold> {
    if holds == [] then []
    else (if holds[0].signature == signature then [holds[0]] else []) + Of(holds[1..], signature)
  }

  lemma {:induction false} OfConcat(a: seq<Hold>, b: seq<Hold>, signature: string)
    ensures Of(a + b, signature) == Of(a, signature) + Of(b, signature)
  {
    if a == [] {
      assert a + b == b;
    } else {
      Uncons(a, b);
      OfConcat(a[1..], b, signature);
      Assoc(if a[0].signature == signature then [a[0]] else [], Of(a[1..], signature), Of(b, signature));
    }
  }

  lemma {:induction false} OfUniform(holds: seq<Hold>, signature: string, other: string)
    requires forall h :: h in holds ==> h.signature == signature
    ensures Of(holds, other) == if other == signature then holds else []
  {
    if holds != [] {
      OfUniform(holds[1..], signature, other);
    }
  }

  /** The holds that have departed. */
  function Left(departures: seq<Departure>): (r: seq<Hold>)
    ensures |r| == |departures|
  {
    seq(|departures|, i requires 0 <= i < |departures| => departures[i].hold)
  }

  // ---------------------------------------------------------------- held keys

  /** Presses not yet released, and the history of all presses and departures. */
  datatype Keys = Keys(holds: map<string, seq<Hold>>, pressed: seq<Hold>, departures: seq<Departure>)

  function Held(holds: map<string, seq<Hold>>, signature: string): seq<Hold> {
    if signature in holds then holds[signature] else []
  }

  /** Per signature, presses leave in the order they came, each once: departed + held = pressed. */
  ghost predicate Paired(k: Keys) {
    forall s: string :: Of(Left(k.departures), s) + Held(k.holds, s) == Of(k.pressed, s)
  }

  ghost predicate Tidy(k: Keys) {
    forall s :: s in k.holds ==>
                  0 < |k.holds[s]| <= HOLDS_PER_KEY && forall h :: h in k.holds[s] ==> h.signature == s
  }

  /** keydown: the press is held; when ten are held already, the oldest departs. */
  function Press(k: Keys, press: Hold): Keys {
    var holds := Held(k.holds, press.signature) + [press];
    if |holds| > HOLDS_PER_KEY
    then Keys(k.holds[press.signature := holds[1..]], k.pressed + [press], k.departures + [Handed(holds[0], press.startedAt)])
    else Keys(k.holds[press.signature := holds], k.pressed + [press], k.departures)
  }

  /** keyup: the oldest hold of the signature, if any, departs. */
  function Lift(k: Keys, signature: string, now: int): Keys {
    var holds := Held(k.holds, signature);
    if holds == [] then k
    else Keys(if |holds| == 1 then k.holds - {signature} else k.holds[signature := holds[1..]],
              k.pressed, k.departures + [Handed(holds[0], now)])
  }

  /** One signature's holds when one of them departs. */
  lemma DepartAt(departed: seq<Departure>, d: Departure, held: seq<Hold>, after: seq<Hold>, pressed: seq<Hold>, s: string)
    requires Of(Left(departed), s) + held == Of(pressed, s)
    requires held == if s == d.hold.signature then [d.hold] + after else after
    ensures Of(Left(departed + [d]), s) + after == Of(pressed, s)
  {
    assert Left(departed + [d]) == Left(departed) + [d.hold];
    OfConcat(Left(departed), [d.hold], s);
    OfUniform([d.hold], d.hold.signature, s);
    Assoc(Of(Left(departed), s), if s == d.hold.signature then [d.hold] else [], after);
    assert Of(Left(departed), s) + [] == Of(Left(departed), s);
  }

  lemma DepartOne(k: Keys, d: Departure, after: map<string, seq<Hold>>)
    requires Paired(k)
    requires Held(k.holds, d.hold.signature) == [d.hold] + Held(after, d.hold.signature)
    requires forall s :: s != d.hold.signature ==> Held(after, s) == Held(k.holds, s)
    ensures Paired(Keys(after, k.pressed, k.departures + [d]))
  {
    forall s: string
      ensures Of(Left(k.departures + [d]), s) + Held(after, s) == Of(k.pressed, s)
    {
      DepartAt(k.departures, d, Held(k.holds, s), Held(after, s), k.pressed, s);
    }
  }

  lemma PressAt(left: seq<Hold>, held: seq<Hold>, pressed: seq<Hold>, press: Hold, s: string)
    requires Of(left, s) + held == Of(pressed, s)
    ensures Of(left, s) + (if s == press.signature then held + [press] else held) == Of(pressed + [press], s)
  {
    OfConcat(pressed, [press], s);
    OfUniform([press], press.signature, s);
    Assoc(Of(left, s), held, [press]);
    assert Of(pressed, s) + [] == Of(pressed, s);
  }

  lemma PressOne(k: Keys, press: Hold)
    requires Paired(k)
    ensures Paired(Keys(k.holds[press.signature := Held(k.holds, press.signature) + [press]], k.pressed + [press], k.departures))
  {
    var after := k.holds[press.signature := Held(k.holds, press.signature) + [press]];
    forall s: string
      ensures Of(Left(k.departures), s) + Held(after, s) == Of(k.pressed + [press], s)
    {
      PressAt(Left(k.departures), Held(k.holds, s), k.pressed, press, s);
    }
  }

  lemma PressKeepsKeys(k: Keys, press: Hold)
    requires Paired(k) && Tidy(k)
    ensures Paired(Press(k, press)) && Tidy(Press(k, press))
  {
    var holds := Held(k.holds, press.signature) + [press];
    PressOne(k, press);
    if |holds| > HOLDS_PER_KEY {
      var full := Keys(k.holds[press.signature := holds], k.pressed + [press], k.departures);
      DepartOne(full, Handed(holds[0], press.startedAt), k.holds[press.signature := holds[1..]]);
    }
  }

  lemma LiftKeepsKeys(k: Keys, signature: string, now: int)
    requires Paired(k) && Tidy(k)
    ensures Paired(Lift(k, signature, now)) && Tidy(Lift(k, signature, now))
  {
    if signature in k.holds {
      DepartOne(k, Handed(k.holds[signature][0], now), Lift(k, signature, now).holds);
    }
  }

  // ---------------------------------------------------------------- the buffer

  /** Captured events on their way, and the history of all that were taken. */
  datatype Outbox = Outbox(
    pending: seq<Captured>,
    flights: seq<seq<Captured>>,      // messages not yet answered
    accepted: multiset<Captured>,     // taken by queue
    delivered: multiset<Captured>,    // in an answered message
    cut: multiset<Captured>,          // fell to the limit of 500
    wiped: multiset<Captured>         // pending at telemetry-stopped or dispose
  )

  /** How often an event is in the messages under way. */
  function InFlight(flights: seq<seq<Captured>>, e: Captured): nat {
    if flights == [] then 0 else multiset(flights[0])[e] + InFlight(flights[1..], e)
  }

  lemma {:induction false} InFlightConcat(a: seq<seq<Captured>>, b: seq<seq<Captured>>, e: Captured)
    ensures InFlight(a + b, e) == InFlight(a, e) + InFlight(b, e)
  {
    if a == [] {
      assert a + b == b;
    } else {
      Uncons(a, b);
      InFlightConcat(a[1..], b, e);
    }
  }

  lemma InFlightWithout(flights: seq<seq<Captured>>, i: nat, e: Captured)
    requires i < |flights|
    ensures InFlight(flights, e) == InFlight(flights[..i] + flights[i + 1..], e) + multiset(flights[i])[e]
  {
    var one := [flights[i]];
    assert flights == flights[..i] + (one + flights[i + 1..]);
    InFlightConcat(flights[..i], one + flights[i + 1..], e);
    InFlightConcat(one, flights[i + 1..], e);
    InFlightConcat(flights[..i], flights[i + 1..], e);
    assert one[1..] == [];
  }

  /** Event for event: accepted = delivered + under way + pending + cut + wiped. */
  ghost predicate Balanced(o: Outbox) {
    forall e: Captured ::
      o.accepted[e] == o.delivered[e] + InFlight(o.flights, e) + multiset(o.pending)[e] + o.cut[e] + o.wiped[e]
  }

  ghost predicate OutboxOk(o: Outbox) {
    Balanced(o) && |o.pending| <= KEEP_AT_MOST
  }

  /** sendPending up to its await: the buffer is swapped for an empty one. */
  function Swap(o: Outbox): Outbox {
    if o.pending == [] then o else o.(flights := o.flights + [o.pending], pending := [])
  }

  /** queue accepts an event; fifty pending ones are sent. */
  function Offer(o: Outbox, event: Captured): Outbox {
    var p := o.(pending := o.pending + [event], accepted := o.accepted + multiset{event});
    if |p.pending| >= SEND_AT then Swap(p) else p
  }

  /** The message was received. */
  function Resolve(o: Outbox, i: nat): Outbox
    requires i < |o.flights|
  {
    o.(flights := o.flights[..i] + o.flights[i + 1..], delivered := o.delivered + multiset(o.flights[i]))
  }

  /** The message failed: its events go back in front of the buffer, of which the last 500 are kept. */
  function Reject(o: Outbox, i: nat): Outbox
    requires i < |o.flights|
  {
    var all := o.flights[i] + o.pending;
    var first := if |all| > KEEP_AT_MOST then |all| - KEEP_AT_MOST else 0;
    o.(flights := o.flights[..i] + o.flights[i + 1..], pending := all[first..], cut := o.cut + multiset(all[..first]))
  }

  function Wipe(o: Outbox): Outbox {
    o.(pending := [], wiped := o.wiped + multiset(o.pending))
  }

  lemma SwapKeeps(o: Outbox)
    requires Balanced(o)
    ensures OutboxOk(Swap(o))
  {
    forall e: Captured
      ensures InFlight(o.flights + [o.pending], e) == InFlight(o.flights, e) + multiset(o.pending)[e]
    {
      InFlightConcat(o.flights, [o.pending], e);
      assert [o.pending][1..] == [];
    }
  }

  lemma OfferKeeps(o: Outbox, event: Captured)
    requires OutboxOk(o)
    ensures OutboxOk(Offer(o, event))
  {
    var p := o.(pending := o.pending + [event], accepted := o.accepted + multiset{event});
    assert multiset(p.pending) == multiset(o.pending) + multiset{event};
    assert Balanced(p);
    SwapKeeps(p);
  }

  lemma ResolveKeeps(o: Outbox, i: nat)
    requires OutboxOk(o) && i < |o.flights|
    ensures OutboxOk(Resolve(o, i))
  {
    forall e: Captured {
      InFlightWithout(o.flights, i, e);
    }
  }

  lemma RejectKeeps(o: Outbox, i: nat)
    requires OutboxOk(o) && i < |o.flights|
    ensures OutboxOk(Reject(o, i))
  {
    var all := o.flights[i] + o.pending;
    var first := if |all| > KEEP_AT_MOST then |all| - KEEP_AT_MOST else 0;
    var r := Reject(o, i);
    assert all == all[..first] + all[first..];
    forall e: Captured
      ensures r.accepted[e] == r.delivered[e] + InFlight(r.flights, e) + multiset(r.pending)[e] + r.cut[e] + r.wiped[e]
    {
      InFlightWithout(o.flights, i, e);
      assert multiset(all)[e] == multiset(all[..first])[e] + multiset(all[first..])[e];
      assert multiset(all)[e] == multiset(o.flights[i])[e] + multiset(o.pending)[e];
    }
  }

  lemma WipeKeeps(o: Outbox)
    requires OutboxOk(o)
    ensures OutboxOk(Wipe(o))
  {
  }

  // ---------------------------------------------------------------- queue

  /** queue takes events. */
  predicate Recording(c: Control) {
    c.enabled && Eligible(c) && HasToken(c)
  }

  function Take(recording: bool, o: Outbox, event: Captured): Outbox {
    if recording then Offer(o, event) else o
  }

  /** The buffer after these holds were handed to queue one by one, each with its duration. */
  function TakeAll(recording: bool, o: Outbox, departures: seq<Departure>): Outbox {
    if departures == [] then o else
      var before := TakeAll(recording, o, departures[..|departures| - 1]);
      var d := departures[|departures| - 1];
      if d.Handed? then Take(recording, before, Release(d.hold, d.at)) else before
  }

  lemma TakeOneMore(recording: bool, o: Outbox, departures: seq<Departure>, d: Departure)
    requires d.Handed?
    ensures TakeAll(recording, o, departures + [d])
         == Take(recording, TakeAll(recording, o, departures), Release(d.hold, d.at))
  {
  }

  lemma TakeKeeps(recording: bool, o: Outbox, event: Captured)
    requires OutboxOk(o)
    ensures OutboxOk(Take(recording, o, event))
  {
    OfferKeeps(o, event);
  }

  /** When queue takes events: tracking is on for an eligible page with a token. */
  ghost predicate Takes(c: Control) {
    && c.enabled && !c.disposed && c.pathAllowed && c.token.GetOr("") != ""
    && c.state in {None, Some(TopicRequired), Some(TaskRequired), Some(InProgress)}
  }

  lemma RecordingExactly(c: Control)
    ensures Recording(c) <==> Takes(c)
  {
    PhaseIsListed(c.state);
  }

  /** All events of a list of messages, in order. */
  ghost function Flat(flights: seq<seq<Captured>>): seq<Captured> {
    if flights == [] then [] else flights[0] + Flat(flights[1..])
  }

  lemma {:induction false} FlatMore(flights: seq<seq<Captured>>, last: seq<Captured>)
    ensures Flat(flights + [last]) == Flat(flights) + last
  {
    if flights == [] {
      assert flights + [last] == [last] && Flat([last]) == last + Flat([]);
    } else {
      Uncons(flights, [last]);
      FlatMore(flights[1..], last);
      Assoc(flights[0], Flat(flights[1..]), last);
    }
  }

  /** The events have joined the end of the line: they are under way behind all that was, or pending last. */
  ghost predicate Joined(o: Outbox, o': Outbox, events: seq<Captured>) {
    && Flat(o'.flights) + o'.pending == Flat(o.flights) + o.pending + events
    && o'.accepted == o.accepted + multiset(events)
    && o'.delivered == o.delivered && o'.cut == o.cut && o'.wiped == o.wiped
  }

  lemma JoinedMore(o: Outbox, m: Outbox, o': Outbox, events: seq<Captured>, event: Captured)
    requires Joined(o, m, events) && Joined(m, o', [event])
    ensures Joined(o, o', events + [event])
  {
    Assoc(Flat(o.flights) + o.pending, events, [event]);
    assert multiset(events + [event]) == multiset(events) + multiset([event]);
  }

  lemma SwapJoins(o: Outbox)
    ensures Joined(o, Swap(o), []) && Swap(o).pending == []
  {
    FlatMore(o.flights, o.pending);
    assert Flat(o.flights) + o.pending + [] == Flat(o.flights) + o.pending;
    assert Flat(o.flights) + o.pending + [] == Flat(o.flights + [o.pending]) + [];
  }

  lemma OfferJoins(o: Outbox, event: Captured)
    ensures Joined(o, Offer(o, event), [event])
    ensures if |o.pending| + 1 < 50 then Offer(o, event).flights == o.flights else Offer(o, event).pending == []
  {
    var p := o.(pending := o.pending + [event], accepted := o.accepted + multiset{event});
    Assoc(Flat(o.flights), o.pending, [event]);
    assert Joined(o, p, [event]);
    SwapJoins(p);
  }

  /** What the holds of these departures became: the event with its duration, at most ten minutes. */
  ghost function Ended(departures: seq<Departure>): (r: seq<Captured>)
    requires forall d :: d in departures ==> d.Handed?
    ensures |r| == |departures|
  {
    seq(|departures|, i requires 0 <= i < |departures| => EndedAt(departures[i].hold, departures[i].at))
  }

  ghost function EndedAt(h: Hold, at: int): Captured {
    Captured(h.event.id, Some(if at - h.startedAt <= 600000 then at - h.startedAt else 600000))
  }

  lemma {:induction false} TakeAllJoins(recording: bool, o: Outbox, departures: seq<Departure>)
    requires forall d :: d in departures ==> d.Handed?
    ensures if recording then Joined(o, TakeAll(recording, o, departures), Ended(departures))
            else TakeAll(recording, o, departures) == o
  {
    if departures == [] {
      assert Flat(o.flights) + o.pending + [] == Flat(o.flights) + o.pending;
    } else {
      var init, d := departures[..|departures| - 1], departures[|departures| - 1];
      TakeAllJoins(recording, o, init);
      if recording {
        var before := TakeAll(recording, o, init);
        OfferJoins(before, Release(d.hold, d.at));
        JoinedMore(o, before, Offer(before, Release(d.hold, d.at)), Ended(init), Release(d.hold, d.at));
        assert Ended(departures) == Ended(init) + [Release(d.hold, d.at)];
      }
    }
  }

  /** What queue does with an event: taken, it is last of all under way and pending, and fifty pending ones are sent;
      otherwise nothing changes. */
  ghost predicate Queued(c: Control, o: Outbox, o': Outbox, event: Captured) {
    if Takes(c) then
      && Joined(o, o', [event])
      && (if |o.pending| + 1 < 50 then o'.flights == o.flights && o'.pending == o.pending + [event]
          else o'.flights == o.flights + [o.pending + [event]] && o'.pending == [])
    else o' == o
  }

  lemma TakeQueues(c: Control, o: Outbox, o': Outbox, event: Captured)
    requires OutboxOk(o) && o' == Take(Recording(c), o, event)
    ensures Queued(c, o, o', event) && OutboxOk(o')
  {
    assert Queued(c, o, o', event) by {
      RecordingExactly(c);
      OfferJoins(o, event);
    }
    TakeKeeps(Recording(c), o, event);
  }

  /** Flush and stop leave nothing pending: what queue took of the holds is under way behind all that was. */
  lemma SettledJoins(c: Control, k: Keys, o: Outbox, k': Keys, o': Outbox, now: int)
    requires Settled(Recording(c), k, o, k', o', now)
    ensures o'.pending == []
    ensures Joined(o, o', if Takes(c) then Ended(k'.departures[|k.departures|..]) else [])
  {
    var ds := k'.departures[|k.departures|..];
    RecordingExactly(c);
    TakeAllJoins(Recording(c), o, ds);
    SwapJoins(TakeAll(Recording(c), o, ds));
    JoinedThenNone(o, TakeAll(Recording(c), o, ds), o', if Takes(c) then Ended(ds) else []);
  }

  lemma JoinedThenNone(o: Outbox, m: Outbox, o': Outbox, events: seq<Captured>)
    requires Joined(o, m, events) || (o == m && events == [])
    requires Joined(m, o', [])
    ensures Joined(o, o', events)
  {
    assert Flat(m.flights) + m.pending + [] == Flat(m.flights) + m.pending;
  }

  /** All holds of k have been handed to queue at the given time. */
  ghost predicate Drained(k: Keys, after: Keys, now: int) {
    && after.holds == map[] && after.pressed == k.pressed && k.departures <= after.departures
    && forall d :: d in after.departures[|k.departures|..] ==> d.Handed? && d.at == now
  }

  lemma {:induction false} TakeAllConcat(recording: bool, o: Outbox, a: seq<Departure>, b: seq<Departure>)
    ensures TakeAll(recording, o, a + b) == TakeAll(recording, TakeAll(recording, o, a), b)
    decreases |b|
  {
    if b == [] {
      assert a + b == a;
    } else {
      var init := b[..|b| - 1];
      assert (a + b)[..|a + b| - 1] == a + init;
      TakeAllConcat(recording, o, a, init);
    }
  }

  /** All holds depart at once, each signature's in order. */
  lemma DrainKeepsPaired(k: Keys, ds: seq<Departure>)
    requires Paired(k) && forall s: string :: Of(Left(ds), s) == Held(k.holds, s)
    ensures Paired(Keys(map[], k.pressed, k.departures + ds))
  {
    assert Left(k.departures + ds) == Left(k.departures) + Left(ds);
    forall s: string
      ensures Of(Left(k.departures + ds), s) + [] == Of(k.pressed, s)
    {
      OfConcat(Left(k.departures), Left(ds), s);
      assert Of(Left(k.departures), s) + Held(k.holds, s) == Of(k.pressed, s);
      assert Of(Left(ds), s) == Held(k.holds, s);
    }
  }

  lemma DrainedBy(k: Keys, ds: seq<Departure>, now: int)
    requires forall d :: d in ds ==> d.Handed? && d.at == now
    ensures Drained(k, Keys(map[], k.pressed, k.departures + ds), now)
    ensures (k.departures + ds)[|k.departures|..] == ds
  {
  }

  /** The inner loop of finalizePendingHolds. */
  method HandOver(recording: bool, o: Outbox, held: seq<Hold>, now: int) returns (r: Outbox, ghost ds: seq<Departure>)
    requires OutboxOk(o)
    ensures OutboxOk(r) && r == TakeAll(recording, o, ds)
    ensures Left(ds) == held && forall d :: d in ds ==> d.Handed? && d.at == now
  {
    r, ds := o, [];
    for i := 0 to |held|
      invariant OutboxOk(r) && r == TakeAll(recording, o, ds)
      invariant Left(ds) == held[..i] && forall d :: d in ds ==> d.Handed? && d.at == now
    {
      TakeKeeps(recording, r, Release(held[i], now));
      TakeOneMore(recording, o, ds, Handed(held[i], now));
      r := Take(recording, r, Release(held[i], now));
      ds := ds + [Handed(held[i], now)];
    }
  }

  /** The outer loop of finalizePendingHolds; the order of the signatures is left open. */
  method HandOverAll(recording: bool, o: Outbox, holds: map<string, seq<Hold>>, now: int)
    returns (r: Outbox, ghost ds: seq<Departure>)
    requires OutboxOk(o) && Tidy(Keys(holds, [], []))
    ensures OutboxOk(r) && r == TakeAll(recording, o, ds)
    ensures forall s: string :: Of(Left(ds), s) == Held(holds, s)
    ensures forall d :: d in ds ==> d.Handed? && d.at == now
  {
    r, ds := o, [];
    var todo := holds;
    while todo != map[]
      invariant OutboxOk(r) && r == TakeAll(recording, o, ds)
      invariant forall s :: s in todo ==> s in holds && todo[s] == holds[s]
      invariant HandedOver(ds, holds, todo)
      invariant forall d :: d in ds ==> d.Handed? && d.at == now
      decreases |todo|
    {
      var signature :| signature in todo;
      ghost var more;
      r, more := HandOver(recording, r, todo[signature], now);
      TakeAllConcat(recording, o, ds, more);
      HandOverStep(ds, more, holds, todo, signature);
      assert forall d :: d in ds + more ==> d in ds || d in more;
      ds := ds + more;
      todo := todo - {signature};
    }
    assert forall s: string :: Of(Left(ds), s) == Held(holds, s);
  }

  /** Exactly the signatures no longer to do have departed. */
  ghost predicate HandedOver(ds: seq<Departure>, holds: map<string, seq<Hold>>, todo: map<string, seq<Hold>>) {
    forall s: string :: Of(Left(ds), s) == if s in todo then [] else Held(holds, s)
  }

  lemma HandOverAt(ds: seq<Departure>, more: seq<Departure>, holds: map<string, seq<Hold>>,
                   todo: map<string, seq<Hold>>, signature: string, s: string)
    requires Of(Left(ds), s) == if s in todo then [] else Held(holds, s)
    requires signature in todo && signature in holds && Left(more) == holds[signature]
    requires forall h :: h in Left(more) ==> h.signature == signature
    ensures Of(Left(ds + more), s) == if s in todo && s != signature then [] else Held(holds, s)
  {
    var a, b := Of(Left(ds), s), Of(Left(more), s);
    assert Of(Left(ds + more), s) == a + b by {
      LeftConcat(ds, more);
      OfConcat(Left(ds), Left(more), s);
    }
    assert b == if s == signature then holds[signature] else [] by {
      OfUniform(Left(more), signature, s);
    }
    assert a + [] == a && [] + b == b;
  }

  lemma LeftConcat(ds: seq<Departure>, more: seq<Departure>)
    ensures Left(ds + more) == Left(ds) + Left(more)
  {
  }

  lemma HandOverStep(ds: seq<Departure>, more: seq<Departure>, holds: map<string, seq<Hold>>,
                     todo: map<string, seq<Hold>>, signature: string)
    requires HandedOver(ds, holds, todo) && signature in todo && signature in holds && Left(more) == holds[signature]
    requires forall h :: h in holds[signature] ==> h.signature == signature
    ensures HandedOver(ds + more, holds, todo - {signature})
  {
    forall s: string
      ensures Of(Left(ds + more), s) == if s in todo && s != signature then [] else Held(holds, s)
    {
      HandOverAt(ds, more, holds, todo, signature, s);
    }
  }

  /** ... and what queue took of them is on its way together with everything that was pending. */
  ghost predicate Settled(recording: bool, k: Keys, o: Outbox, k': Keys, o': Outbox, now: int) {
    Drained(k, k', now) && o' == Swap(TakeAll(recording, o, k'.departures[|k.departures|..]))
  }

  lemma StateEventIs(c: Control, d: Control, state: Phase, key: string)
    requires !c.disposed && c.stateKey != Some(key)
    requires d == c.(stateKey := Some(key), state := Some(state), revision := c.revision + 1)
    ensures Next(c, StateEvent(state, key)) == if !Eligible(d) && d.enabled then StopNow(d) else d
  {
  }

  /** Whether a piece of script stopped tracking (handing over all holds) or left the buffers alone. */
  ghost predicate StoppedOrUntouched(stopped: bool, c: Control, k: Keys, o: Outbox, k': Keys, o': Outbox, now: int) {
    if stopped then Settled(Recording(c), k, o, k', o', now) else k' == k && o' == o
  }

  /** All holds in some order, signature by signature. */
  ghost function Enumerate(holds: map<string, seq<Hold>>): seq<Hold>
    decreases |holds|
  {
    if holds == map[] then [] else
      var s :| s in holds;
      holds[s] + Enumerate(holds - {s})
  }

  lemma {:induction false} EnumerateOf(k: Keys, s: string)
    requires Tidy(k)
    ensures Of(Enumerate(k.holds), s) == Held(k.holds, s)
    decreases |k.holds|
  {
    if k.holds != map[] {
      var t: string :| t in k.holds && Enumerate(k.holds) == k.holds[t] + Enumerate(k.holds - {t});
      OfConcat(k.holds[t], Enumerate(k.holds - {t}), s);
      OfUniform(k.holds[t], t, s);
      EnumerateOf(Keys(k.holds - {t}, [], []), s);
    }
  }

  /** telemetry-stopped and dispose forget what is held. */
  ghost function Forget(k: Keys): (r: Keys)
    ensures r.holds == map[] && r.pressed == k.pressed
  {
    var held := Enumerate(k.holds);
    Keys(map[], k.pressed, k.departures + seq(|held|, i requires 0 <= i < |held| => Cleared(held[i])))
  }

  lemma ForgetKeepsKeys(k: Keys)
    requires Paired(k) && Tidy(k)
    ensures Paired(Forget(k)) && Tidy(Forget(k))
  {
    var held := Enumerate(k.holds);
    assert Left(Forget(k).departures) == Left(k.departures) + held;
    forall s: string
      ensures Of(Left(Forget(k).departures), s) + [] == Of(k.pressed, s)
    {
      EnumerateOf(k, s);
      OfConcat(Left(k.departures), held, s);
      assert Of(Left(k.departures), s) + Held(k.holds, s) == Of(k.pressed, s);
    }
  }

  // ---------------------------------------------------------------- the script

  class ContentScript {
    var control: Control
    var holds: map<string, seq<Hold>>  // pendingHolds
    var outbox: Outbox
    ghost var pressed: seq<Hold>
    ghost var departures: seq<Departure>

    ghost function TheKeys(): Keys
      reads this`holds, this`pressed, this`departures
    {
      Keys(holds, pressed, departures)
    }

    ghost predicate Buffered()
      reads this`holds, this`pressed, this`departures, this`outbox
    {
      Paired(TheKeys()) && Tidy(TheKeys()) && OutboxOk(outbox)
    }

    /** What every piece of script keeps; nothing is held while the listeners are off. */
    ghost predicate Valid()
      reads this
    {
      Consistent(control) && Buffered() && (control.attached == 0 ==> holds == map[])
    }

    constructor (token: Option<string>, pathAllowed: bool)
      ensures Valid() && Fresh(control)
      ensures TheKeys() == Keys(map[], [], []) && outbox.accepted == multiset{}
    {
      control := Control(token, pathAllowed, true, false, 0, false, None, None, 0, [], false);
      holds, pressed, departures := map[], [], [];
      outbox := Outbox([], [], multiset{}, multiset{}, multiset{}, multiset{});
    }

    /** The variables that decide when to track change; what is held and buffered does not. */
    method SetControl(c: Control)
      requires Buffered() && Consistent(c) && (c.attached == 0 ==> holds == map[])
      modifies this`control
      ensures Valid() && control == c
    {
      control := c;
    }

    /** One hold goes to queue. */
    method HandOne(hold: Hold, now: int)
      requires OutboxOk(outbox)
      modifies this`outbox, this`departures
      ensures OutboxOk(outbox) && Queued(control, old(outbox), outbox, EndedAt(hold, now))
      ensures departures == old(departures) + [Handed(hold, now)]
    {
      outbox := Take(Recording(control), outbox, Release(hold, now));
      TakeQueues(control, old(outbox), outbox, EndedAt(hold, now));
      departures := departures + [Handed(hold, now)];
    }

    // -------------------------------------------------------------- events of the page

    /** A keydown in a tracked field. */
    method KeyDown(signature: string, event: Captured, now: int)
      requires Valid() && control.attached > 0
      modifies this
      ensures Valid() && control == old(control)
      ensures TheKeys() == Press(old(TheKeys()), Hold(signature, event, now))
      ensures departures == old(departures) +
        if |Held(old(holds), signature)| < 10 then [] else [Handed(Held(old(holds), signature)[0], now)]
      ensures if |Held(old(holds), signature)| < 10 then outbox == old(outbox)
              else Queued(control, old(outbox), outbox, EndedAt(Held(old(holds), signature)[0], now))
    {
      var press := Hold(signature, event, now);
      var held := Held(holds, signature) + [press];
      ghost var k := TheKeys();
      PressKeepsKeys(k, press);
      pressed := pressed + [press];
      if |held| > HOLDS_PER_KEY {
        HandOne(held[0], now);
        held := held[1..];
      }
      holds := holds[signature := held];
      assert TheKeys() == Press(k, press);
    }

    /** A keyup: the oldest press held under the signature, if any, goes to queue. */
    method KeyUp(signature: string, now: int)
      requires Valid() && control.attached > 0
      modifies this
      ensures Valid() && control == old(control)
      ensures TheKeys() == Lift(old(TheKeys()), signature, now)
      ensures departures == old(departures) +
        if signature in old(holds) then [Handed(old(holds)[signature][0], now)] else []
      ensures if signature !in old(holds) then outbox == old(outbox)
              else Queued(control, old(outbox), outbox, EndedAt(old(holds)[signature][0], now))
    {
      ghost var k := TheKeys();
      LiftKeepsKeys(k, signature, now);
      if signature !in holds {
        return;
      }
      var held := holds[signature];
      HandOne(held[0], now);
      holds := if |held| == 1 then holds - {signature} else holds[signature := held[1..]];
      assert TheKeys() == Lift(k, signature, now);
    }

    /** Any other captured event: clipboard, answer, focus, visibility. */
    method OtherEvent(event: Captured)
      requires Valid()
      modifies this`outbox
      ensures Valid() && Queued(control, old(outbox), outbox, event)
      ensures
        var taken := control.enabled && !control.disposed && control.pathAllowed && control.token.GetOr("") != ""
          && control.state in {None, Some(TopicRequired), Some(TaskRequired), Some(InProgress)};
        if taken then outbox.accepted == old(outbox).accepted + multiset{event} else outbox == old(outbox)
    {
      outbox := Take(Recording(control), outbox, event);
      TakeQueues(control, old(outbox), outbox, event);
    }

    method FinalizePendingHolds(now: int)
      requires Buffered()
      modifies this
      ensures Buffered() && control == old(control)
      ensures Drained(old(TheKeys()), TheKeys(), now)
      ensures outbox == TakeAll(Recording(control), old(outbox), departures[|old(departures)|..])
      ensures if Takes(control) then Joined(old(outbox), outbox, Ended(departures[|old(departures)|..])) else outbox == old(outbox)
    {
      ghost var ds;
      ghost var k := TheKeys();
      outbox, ds := HandOverAll(Recording(control), outbox, holds, now);
      DrainKeepsPaired(k, ds);
      DrainedBy(k, ds, now);
      RecordingExactly(control);
      TakeAllJoins(Recording(control), old(outbox), ds);
      holds, departures := map[], departures + ds;
      assert TheKeys() == Keys(map[], k.pressed, k.departures + ds);
    }

    // -------------------------------------------------------------- messages

    /** sendPending up to its await. */
    method SendPending()
      requires Buffered()
      modifies this`outbox
      ensures OutboxOk(outbox) && outbox == Swap(old(outbox))
      ensures outbox.pending == []
      ensures outbox.flights == old(outbox).flights + if old(outbox).pending == [] then [] else [old(outbox).pending]
    {
      SwapKeeps(outbox);
      outbox := Swap(outbox);
    }

    method SendResolved(i: nat)
      requires Valid() && i < |outbox.flights|
      modifies this`outbox
      ensures OutboxOk(outbox) && outbox == Resolve(old(outbox), i)
      ensures outbox.pending == old(outbox).pending
      ensures outbox.delivered == old(outbox).delivered + multiset(old(outbox).flights[i])
    {
      ResolveKeeps(outbox, i);
      outbox := Resolve(outbox, i);
    }

    method SendRejected(i: nat)
      requires Valid() && i < |outbox.flights|
      modifies this`outbox
      ensures OutboxOk(outbox) && outbox == Reject(old(outbox), i)
      ensures
        var all := old(outbox).flights[i] + old(outbox).pending;
        && |outbox.pending| == (if |all| <= 500 then |all| else 500)
        && outbox.pending == all[|all| - |outbox.pending|..]
        && outbox.cut == old(outbox).cut + multiset(all[..|all| - |outbox.pending|])
    {
      RejectKeeps(outbox, i);
      outbox := Reject(outbox, i);
    }

    /** flush up to its first await: window blur, hidden page, page hide, and requests of the application. */
    method Flush(now: int)
      requires Valid()
      modifies this
      ensures Valid() && control == old(control)
      ensures Settled(Recording(control), old(TheKeys()), old(outbox), TheKeys(), outbox, now)
    {
      FinalizePendingHolds(now);
      SendPending();
    }

    // -------------------------------------------------------------- tracking on and off

    /** `if (enabled) detach()` */
    method Detach(now: int)
      requires Consistent(control) && Buffered() && (control.attached == 0 ==> holds == map[])
      modifies this
      ensures Buffered() && control == old(control).(attached := if old(control).enabled then 0 else old(control).attached)
      ensures Drained(old(TheKeys()), TheKeys(), now)
      ensures outbox == TakeAll(Recording(old(control)), old(outbox), departures[|old(departures)|..])
    {
      ghost var k := TheKeys();
      if control.enabled {
        control := control.(attached := 0);
        FinalizePendingHolds(now);
      } else {
        assert departures[|k.departures|..] == [];
      }
    }

    /** stop up to its first await. */
    method Stop(now: int)
      requires Consistent(control) && Buffered() && (control.attached == 0 ==> holds == map[])
      modifies this
      ensures Valid() && control == StopNow(old(control))
      ensures Settled(Recording(old(control)), old(TheKeys()), old(outbox), TheKeys(), outbox, now)
    {
      Detach(now);
      SetControl(control.(enabled := false));
      SendPending();
    }

    method DisposeScript()
      requires Valid()
      modifies this
      ensures Valid() && control == Dispose(old(control))
      ensures if old(control).disposed then TheKeys() == old(TheKeys()) && outbox == old(outbox)
              else TheKeys() == Forget(old(TheKeys())) && outbox == Wipe(old(outbox))
    {
      if control.disposed {
        return;
      }
      ForgetKeepsKeys(TheKeys());
      WipeKeeps(outbox);
      control := control.(disposed := true, attached := 0);
      departures := Forget(TheKeys()).departures;
      outbox := Wipe(outbox);
      holds := map[];
    }

    /** Whatever is pending is thrown away. */
    method WipeOutbox()
      requires OutboxOk(outbox)
      modifies this`outbox
      ensures OutboxOk(outbox) && outbox == Wipe(old(outbox))
      ensures outbox.pending == [] && outbox.wiped == old(outbox).wiped + multiset(old(outbox).pending)
    {
      WipeKeeps(outbox);
      outbox := Wipe(outbox);
    }

    /** The message telemetry-stopped: what detach hands to queue is thrown away with the buffer. */
    method OnTelemetryStopped(now: int)
      requires Valid()
      modifies this
      ensures Valid() && control == Next(old(control), TelemetryStopped)
      ensures Drained(old(TheKeys()), TheKeys(), now)
      ensures outbox == Wipe(TakeAll(Recording(old(control)), old(outbox), departures[|old(departures)|..]))
    {
      Detach(now);
      WipeOutbox();
      SetControl(control.(enabled := false));
    }

    /** stop on a page that is not eligible any more: queue takes nothing. */
    method StopIneligible(now: int)
      requires Valid() && !Eligible(control) && control.enabled
      modifies this
      ensures Valid() && control == StopNow(old(control))
      ensures Drained(old(TheKeys()), TheKeys(), now) && outbox == Swap(old(outbox))
    {
      Stop(now);
      TakeAllJoins(Recording(old(control)), old(outbox), departures[|old(departures)|..]);
    }

    method NoteState(state: Phase, key: string)
      requires Valid()
      modifies this`control
      ensures Valid() && control == old(control).(stateKey := Some(key), state := Some(state), revision := old(control).revision + 1)
    {
      control := control.(stateKey := Some(key), state := Some(state), revision := control.revision + 1);
    }

    /** The event open-webui-experiment-state. */
    method OnStateEvent(state: Phase, key: string, now: int)
      requires Valid()
      modifies this
      ensures Valid() && control == Next(old(control), StateEvent(state, key))
      ensures if old(control).enabled && !control.enabled
              then Drained(old(TheKeys()), TheKeys(), now) && outbox == Swap(old(outbox))
              else TheKeys() == old(TheKeys()) && outbox == old(outbox)
    {
      if control.disposed || control.stateKey == Some(key) {
        return;
      }
      ghost var c := control;
      NoteState(state, key);
      StateEventIs(c, control, state, key);
      if !Eligible(control) && control.enabled {
        StopIneligible(now);
      }
    }

    /** A storage event of another tab; ofToken: its key is the token, or everything was cleared. */
    method OnStorageEvent(ofToken: bool)
      requires Valid()
      modifies this`control
      ensures Valid() && control == Next(old(control), StorageEvent(ofToken))
    {
      if !control.disposed && ofToken {
        control := control.(revision := control.revision + 1);
      }
    }

    /** The token, the path or the extension runtime changes under the script. */
    method Environment(change: Move)
      requires Valid() && (change.TokenChanges? || change.PathChanges? || change.RuntimeGone?)
      modifies this`control
      ensures Valid() && control == Next(old(control), change)
      ensures change.TokenChanges? ==> control == old(control).(token := change.token)
      ensures change.PathChanges? ==> control == old(control).(pathAllowed := change.allowed)
      ensures change.RuntimeGone? ==> control == old(control).(runtime := false)
    {
      match change
      case TokenChanges(token) => control := control.(token := token);
      case PathChanges(allowed) => control := control.(pathAllowed := allowed);
      case RuntimeGone => control := control.(runtime := false);
    }

    // -------------------------------------------------------------- the status check

    /** checkStatus, up to the first await of performStatusCheck. */
    method Check(now: int)
      requires Valid()
      modifies this
      ensures Valid() && control == Next(old(control), CheckStatus)
      ensures control.disposed == old(control).disposed ==>
        StoppedOrUntouched(old(control).enabled && !control.enabled, old(control), old(TheKeys()), old(outbox), TheKeys(), outbox, now)
      ensures control.disposed != old(control).disposed ==> TheKeys() == Forget(old(TheKeys())) && outbox == Wipe(old(outbox))
    {
      if control.disposed || control.statusCheck {
        return;
      }
      if !HasToken(control) || !Eligible(control) {
        if control.enabled {
          Stop(now);
          SetControl(control.(running := control.running + [CaptureControl.Check(CaptureControl.Stop, "", control.revision, None, None)],
                              statusCheck := true));
        }
        return;
      }
      if !control.runtime {
        DisposeScript();
        return;
      }
      control := control.(running := control.running + [CaptureControl.Check(Presence, control.token.value, control.revision, None, None)],
                          statusCheck := true);
    }

    /** `await stop(...)` within a check. */
    method StopThenAwait(check: nat, now: int)
      requires Valid() && check < |control.running|
      modifies this
      ensures Valid() && control == Await(StopNow(old(control)), check, old(control).running[check].(at := CaptureControl.Stop))
      ensures Settled(Recording(old(control)), old(TheKeys()), old(outbox), TheKeys(), outbox, now)
    {
      Stop(now);
      var k := control.running[check].(at := CaptureControl.Stop);
      AwaitKeepsConsistent(control, check, k);
      SetControl(Await(control, check, k));
    }

    /** A check ends. */
    method EndCheck(check: nat)
      requires Valid() && check < |control.running|
      modifies this`control
      ensures Valid() && control == End(old(control), check)
    {
      EndKeepsConsistent(control, check);
      SetControl(End(control, check));
    }

    /** `if (enabled) await stop(...)`, and the end of the check otherwise. */
    method StopOrReturn(check: nat, now: int)
      requires Valid() && check < |control.running|
      modifies this
      ensures Valid() && control == StopOrEnd(old(control), check)
      ensures StoppedOrUntouched(old(control).enabled, old(control), old(TheKeys()), old(outbox), TheKeys(), outbox, now)
    {
      if control.enabled {
        StopThenAwait(check, now);
      } else {
        EndCheck(check);
      }
    }

    /** The heartbeat was answered. */
    method PresenceArrived(check: nat, presence: Option<PresenceReply>, now: int)
      requires Valid() && Possible(control, OnPresence(check, presence))
      modifies this
      ensures Valid() && control == Next(old(control), OnPresence(check, presence))
      ensures StoppedOrUntouched(old(control).enabled && !control.enabled, old(control), old(TheKeys()), old(outbox), TheKeys(), outbox, now)
    {
      if !Current(control, control.running[check]) {
        EndCheck(check);
        return;
      }
      if presence.None? || !presence.value.ready {
        StopOrReturn(check, now);
        return;
      }
      if presence.value.state != InProgress {
        StopOrReturn(check, now);
        return;
      }
      control := Await(control, check, control.running[check].(at := Status, presence := presence));
    }

    /** The status request was answered. */
    method StatusArrived(check: nat, status: Option<StatusReply>, now: int)
      requires Valid() && Possible(control, OnStatus(check, status))
      modifies this
      ensures Valid() && control == Next(old(control), OnStatus(check, status))
      ensures StoppedOrUntouched(old(control).enabled && !control.enabled, old(control), old(TheKeys()), old(outbox), TheKeys(), outbox, now)
    {
      if !Current(control, control.running[check]) {
        EndCheck(check);
        return;
      }
      if status.None? || !status.value.enabled || status.value.state != InProgress || status.value.sessionId == "" {
        StopOrReturn(check, now);
        return;
      }
      control := Await(control, check, control.running[check].(at := Start, status := status));
    }

    /** session-start was answered too late: whatever it started is stopped again. */
    method AbandonStart(check: nat, now: int)
      requires Valid() && Suspended(control, check, Start) && !Current(control, control.running[check])
      modifies this
      ensures Valid() && control == (if old(control).disposed then End(old(control), check)
                                     else Await(StopNow(old(control)), check, old(control).running[check].(at := CaptureControl.Stop)))
      ensures StoppedOrUntouched(!control.disposed, old(control), old(TheKeys()), old(outbox), TheKeys(), outbox, now)
    {
      if control.disposed {
        EndCheck(check);
      } else {
        StopThenAwait(check, now);
      }
    }

    /** The service worker answered session-start: the one place where tracking begins. */
    method StartAnswered(check: nat, ok: bool, now: int)
      requires Valid() && Possible(control, OnStarted(check, ok))
      modifies this
      ensures Valid() && control == Next(old(control), OnStarted(check, ok))
      ensures !old(control).enabled && control.enabled ==>
        var k := old(control).running[check];
        Eligible(control) && control.revision == k.revision && control.token == Some(k.token)
      ensures StoppedOrUntouched(!Current(old(control), old(control).running[check]) && !control.disposed,
                                 old(control), old(TheKeys()), old(outbox), TheKeys(), outbox, now)
    {
      if !Current(control, control.running[check]) {
        AbandonStart(check, now);
        return;
      }
      if ok && !control.enabled {
        control := control.(enabled := true, attached := control.attached + 1);
      }
      EndCheck(check);
    }

    /** One of the requests failed. */
    method RequestFailed(check: nat)
      requires Valid() && Possible(control, OnFailure(check))
      modifies this
      ensures Valid() && control == Next(old(control), OnFailure(check))
      ensures if control.disposed == old(control).disposed then TheKeys() == old(TheKeys()) && outbox == old(outbox)
              else TheKeys() == Forget(old(TheKeys())) && outbox == Wipe(old(outbox))
    {
      if !control.runtime {
        DisposeScript();
      }
      EndCheck(check);
    }

    /** stop has finished, and the check with it. */
    method StopFinished(check: nat)
      requires Valid() && Possible(control, OnStopDone(check))
      modifies this`control
      ensures Valid() && control == Next(old(control), OnStopDone(check))
    {
      EndCheck(check);
    }
  }
}
