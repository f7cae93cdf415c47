/**
 What every run of the delivery protocol keeps, whatever the server answers and whenever the worker
 dies: conservation and order of events, the balance of the drop ledger, the place of the loss event,
 and the uniqueness of sequence numbers.
 */
module DeliverySafety {
  import opened Common
  import opened DeliveryQueue
  import opened DeliveryMachine

  // ---------------------------------------------------------------- counting

  function NonLoss(events: seq<Event>): seq<Event> {
    if events == [] then []
    else (if events[0].loss then [] else [events[0]]) + NonLoss(events[1..])
  }

  lemma {:induction false} NonLossConcat(a: seq<Event>, b: seq<Event>)
    ensures NonLoss(a + b) == NonLoss(a) + NonLoss(b)
  {
    if a == [] {
      assert a + b == b;
    } else {
      Uncons(a, b);
      NonLossConcat(a[1..], b);
      Assoc(if a[0].loss then [] else [a[0]], NonLoss(a[1..]), NonLoss(b));
    }
  }

  function DropCount(exits: seq<Exit>): nat {
    if exits == [] then 0 else (if exits[0].fate.Dropped? then 1 else 0) + DropCount(exits[1..])
  }

  lemma {:induction false} DropCountConcat(a: seq<Exit>, b: seq<Exit>)
    ensures DropCount(a + b) == DropCount(a) + DropCount(b)
  {
    if a == [] {
      assert a + b == b;
    } else {
      Uncons(a, b);
      DropCountConcat(a[1..], b);
    }
  }

  lemma {:induction false} DropCountExits(events: seq<Event>, fate: Fate)
    ensures DropCount(Exits(events, fate)) == if fate.Dropped? then |events| else 0
  {
    if events != [] {
      assert Exits(events, fate)[1..] == Exits(events[1..], fate);
      DropCountExits(events[1..], fate);
    }
  }

  /** The drops that the accepted loss events report. */
  function Reported(events: seq<Event>): nat {
    if events == [] then 0 else (if events[0].loss then events[0].lost else 0) + Reported(events[1..])
  }

  lemma {:induction false} ReportedConcat(a: seq<Event>, b: seq<Event>)
    ensures Reported(a + b) == Reported(a) + Reported(b)
  {
    if a == [] {
      assert a + b == b;
    } else {
      Uncons(a, b);
      ReportedConcat(a[1..], b);
    }
  }

  lemma {:induction false} ReportedMember(events: seq<Event>, i: nat)
    requires i < |events| && events[i].loss
    ensures events[i].lost <= Reported(events)
  {
    if i > 0 {
      ReportedMember(events[1..], i - 1);
    }
  }

  lemma {:induction false} ReportedNone(events: seq<Event>)
    requires forall e :: e in events ==> !e.loss
    ensures Reported(events) == 0
  {
    if events != [] {
      ReportedNone(events[1..]);
    }
  }

  lemma {:induction false} MaxNumberIsUpperBound(events: seq<Event>, i: nat)
    requires i < |events|
    ensures events[i].number.GetOr(0) <= MaxNumber(events)
  {
    if i > 0 {
      MaxNumberIsUpperBound(events[1..], i - 1);
    }
  }

  /** ... and it is one of the numbers, or there is none. */
  lemma {:induction false} MaxNumberOccurs(events: seq<Event>)
    ensures MaxNumber(events) == 0 || exists i :: 0 <= i < |events| && events[i].number == Some(MaxNumber(events))
  {
    if events != [] {
      MaxNumberOccurs(events[1..]);
      if MaxNumber(events) != 0 && events[0].number != Some(MaxNumber(events)) {
        var i :| 0 <= i < |events[1..]| && events[1..][i].number == Some(MaxNumber(events));
        assert events[i + 1].number == Some(MaxNumber(events));
      }
    }
  }

  lemma {:induction false} FirstBrowserIsThere(events: seq<Event>)
    ensures FirstBrowser(events).None? ==> forall e :: e in events ==> e.browser.None?
    ensures FirstBrowser(events).Some? ==> exists e :: e in events && e.browser == FirstBrowser(events)
  {
    if events != [] && events[0].browser.None? {
      FirstBrowserIsThere(events[1..]);
    }
  }

  // ---------------------------------------------------------------- the invariant

  /** The stored queue belongs to the session, and what is in flight fits what is stored. */
  ghost predicate Linked(w: World) {
    && (w.session.Some? && w.local.Some? ==> w.local.value.sessionId == Some(w.session.value.sessionId))
    && (w.pc.Minted? ==>
          && Active(w)
          && w.pc.event.browser == Some(w.session.value.browser)
          && w.pc.event.number == Some(w.session.value.sequence)
          && w.session.value.sequence > 0
          && (w.pc.event.loss ==> OwnQueue(w) && w.pc.event.lost == Stored(w).dropped > 0))
    && (w.pc.Answered? ==>
          && w.local.Some?
          && 0 < w.pc.count <= |Stored(w).events|
          && (forall i :: 0 <= i < w.pc.count ==> Stored(w).events[i] in w.log.answered))
  }

  /** Every accepted event is exactly once among the departed and the queued, and the events
      that are not loss reports leave in the order in which they were accepted. */
  ghost predicate Conserved(gone: seq<Event>, queued: seq<Event>, accepted: seq<Event>) {
    && multiset(gone) + multiset(queued) == multiset(accepted)
    && NonLoss(gone) + NonLoss(queued) == NonLoss(accepted)
  }

  /** Nothing counts as delivered without an ok answer to a batch that contained it. */
  ghost predicate DeliveredWereAnswered(log: Log) {
    forall x :: x in log.exits && x.fate.Delivered? ==> x.event in log.answered
  }

  /** Drops ever made = drops not yet reported + drops reported by accepted loss events + drop counts
      thrown away together with a removed queue. */
  ghost predicate LedgerBalances(log: Log, dropped: nat) {
    DropCount(log.exits) == dropped + Reported(log.accepted) + log.forgotten
  }

  /** A loss event is only ever first in the queue, and only while no drop is unreported. */
  ghost predicate LossFirst(q: Queue) {
    && (forall i :: 0 < i < |q.events| ==> !q.events[i].loss)
    && (q.dropped > 0 && q.events != [] ==> !q.events[0].loss)
  }

  ghost predicate WellFormed(accepted: seq<Event>) {
    forall e :: e in accepted ==>
                  && (e.number.Some? <==> e.browser.Some?)
                  && (e.loss ==> e.lost > 0 && e.number.Some?)
  }

  /** No number accepted under the browser id for events of this kind is above the bound. */
  ghost predicate Covers(accepted: seq<Event>, loss: bool, browser: nat, bound: int) {
    forall e :: e in accepted && e.loss == loss && NumberedUnder(e, browser) ==> e.number.value <= bound
  }

  ghost predicate ShowsAtLeast(events: seq<Event>, i: int, n: nat) {
    exists j :: 0 <= i <= j < |events| && events[j].number.Some? && n <= events[j].number.value
  }

  ghost predicate OneBrowser(q: seq<Event>, browser: nat) {
    forall i :: 0 <= i < |q| && q[i].browser.Some? ==> q[i].browser.value == browser
  }

  ghost predicate TabNumbersIncrease(q: seq<Event>) {
    forall i, j :: 0 <= i < j < |q| && !q[i].loss && q[i].number.Some? && q[j].number.Some?
      ==> q[i].number.value < q[j].number.value
  }

  /** The queue shows a recovery what it needs: all its numbers are under one id, the numbers after a tab
      event are larger, and from every numbered event on it holds a number not below any tab number
      ever accepted under that id. */
  ghost predicate Recoverable(q: seq<Event>, accepted: seq<Event>) {
    && (exists b :: OneBrowser(q, b))
    && TabNumbersIncrease(q)
    && (forall i, e :: 0 <= i < |q| && q[i].browser.Some? && e in accepted && !e.loss
                       && NumberedUnder(e, q[i].browser.value)
          ==> ShowsAtLeast(q, i, e.number.value))
  }

  ghost predicate SameNumber(a: Event, b: Event) {
    a.browser.Some? && a.browser == b.browser && a.number.Some? && a.number == b.number
  }

  /** No pair of browser session id and sequence number was ever given to two accepted events
      (of which at most one is a loss event, if `tabsOnly`). */
  ghost predicate NumbersUnique(events: seq<Event>, tabsOnly: bool) {
    forall i, j :: 0 <= i < j < |events| && (tabsOnly ==> !events[i].loss && !events[j].loss)
      ==> !SameNumber(events[i], events[j])
  }

  ghost predicate NumbersInv(w: World) {
    && Recoverable(Stored(w).events, w.log.accepted)
    && NumbersUnique(w.log.accepted, true)
    && (w.log.sound ==> NumbersUnique(w.log.accepted, false))
    && (DropCount(w.log.exits) == 0 ==> w.log.sound)
    && (w.session.Some? ==>
          var s := w.session.value;
          var used := s.sequence - if w.pc.Minted? then 1 else 0;
          && OneBrowser(Stored(w).events, s.browser)
          && Covers(w.log.accepted, false, s.browser, used)
          && (w.log.sound ==> Covers(w.log.accepted, true, s.browser, used)))
  }

  ghost predicate HistoryInv(w: World) {
    && Conserved(Gone(w.log.exits), Stored(w).events, w.log.accepted)
    && DeliveredWereAnswered(w.log)
    && LedgerBalances(w.log, Stored(w).dropped)
    && LossFirst(Stored(w))
    && WellFormed(w.log.accepted)
  }

  ghost predicate Inv(w: World) {
    Linked(w) && HistoryInv(w) && NumbersInv(w)
  }

  // ---------------------------------------------------------------- queue operations on their own

  lemma QueuedWasAccepted(gone: seq<Event>, q: seq<Event>, accepted: seq<Event>)
    requires Conserved(gone, q, accepted)
    ensures forall e :: e in q ==> e in accepted
  {
    forall e | e in q
      ensures e in accepted
    {
      assert e in multiset(q);
      assert e in multiset(accepted);
    }
  }

  lemma ConservedAppend(gone: seq<Event>, q: seq<Event>, accepted: seq<Event>, events: seq<Event>)
    requires Conserved(gone, q, accepted)
    ensures Conserved(gone, q + events, accepted + events)
  {
    assert NonLoss(gone) + NonLoss(q + events) == NonLoss(accepted + events) by {
      NonLossConcat(q, events);
      NonLossConcat(accepted, events);
      Assoc(NonLoss(gone), NonLoss(q), NonLoss(events));
    }
  }

  lemma OneLoss(e: Event)
    requires e.loss
    ensures NonLoss([e]) == []
  {
    assert [e][1..] == [];
  }

  lemma ConservedPrependLoss(gone: seq<Event>, q: seq<Event>, accepted: seq<Event>, e: Event)
    requires Conserved(gone, q, accepted) && e.loss
    ensures Conserved(gone, [e] + q, accepted + [e])
  {
    OneLoss(e);
    assert NonLoss([e] + q) == NonLoss(q) by {
      NonLossConcat([e], q);
      assert [] + NonLoss(q) == NonLoss(q);
    }
    assert NonLoss(accepted + [e]) == NonLoss(accepted) by {
      NonLossConcat(accepted, [e]);
      assert NonLoss(accepted) + [] == NonLoss(accepted);
    }
  }

  lemma ConservedDepart(gone: seq<Event>, left: seq<Event>, rest: seq<Event>, accepted: seq<Event>)
    requires Conserved(gone, left + rest, accepted)
    ensures Conserved(gone + left, rest, accepted)
  {
    assert NonLoss(gone + left) + NonLoss(rest) == NonLoss(accepted) by {
      NonLossConcat(left, rest);
      NonLossConcat(gone, left);
      Assoc(NonLoss(gone), NonLoss(left), NonLoss(rest));
    }
  }

  lemma RecoverableSuffix(q: seq<Event>, accepted: seq<Event>, n: nat)
    requires Recoverable(q, accepted) && n <= |q|
    ensures Recoverable(q[n..], accepted)
  {
    var b :| OneBrowser(q, b);
    var r := q[n..];
    assert OneBrowser(r, b);
    forall i, e | 0 <= i < |r| && r[i].browser.Some? && e in accepted && !e.loss && NumberedUnder(e, r[i].browser.value)
      ensures ShowsAtLeast(r, i, e.number.value)
    {
      assert r[i] == q[i + n];
      assert ShowsAtLeast(q, i + n, e.number.value);
      var j :| i + n <= j < |q| && q[j].number.Some? && e.number.value <= q[j].number.value;
      assert r[j - n] == q[j];
    }
  }

  lemma RecoverableAppendPlain(q: seq<Event>, accepted: seq<Event>, events: seq<Event>)
    requires Recoverable(q, accepted)
    requires forall e :: e in events ==> e.browser.None? && e.number.None?
    ensures Recoverable(q + events, accepted + events)
  {
    var b :| OneBrowser(q, b);
    var r := q + events;
    assert forall i :: |q| <= i < |r| ==> r[i] in events;
    assert OneBrowser(r, b);
    forall i, e | 0 <= i < |r| && r[i].browser.Some? && e in accepted + events && !e.loss
                  && NumberedUnder(e, r[i].browser.value)
      ensures ShowsAtLeast(r, i, e.number.value)
    {
      assert r[i] == q[i];
      assert ShowsAtLeast(q, i, e.number.value);
      var j :| i <= j < |q| && q[j].number.Some? && e.number.value <= q[j].number.value;
      assert r[j] == q[j];
    }
  }

  lemma TabNumbersIncreaseAppend(q: seq<Event>, t: Event)
    requires TabNumbersIncrease(q) && t.number.Some?
    requires forall i :: 0 <= i < |q| && !q[i].loss && q[i].number.Some? ==> q[i].number.value < t.number.value
    ensures TabNumbersIncrease(q + [t])
  {
  }

  /** The tab event is itself what its queue shows. */
  lemma ShowsAtLeastAppend(q: seq<Event>, t: Event, i: int, n: nat)
    requires t.number.Some? && n <= t.number.value && 0 <= i <= |q|
    ensures ShowsAtLeast(q + [t], i, n)
  {
    assert (q + [t])[|q|] == t;
  }

  lemma NewestTab(q: seq<Event>, accepted: seq<Event>, t: Event, i: int)
    requires t.number.Some? && t.browser.Some? && Covers(accepted, false, t.browser.value, t.number.value - 1)
    requires OneBrowser(q, t.browser.value)
    requires forall e :: e in q ==> e in accepted && (e.number.Some? ==> e.browser.Some?)
    requires 0 <= i < |q| && !q[i].loss && q[i].number.Some?
    ensures q[i].number.value < t.number.value
  {
    assert q[i] in q && q[i] in accepted;
    assert NumberedUnder(q[i], t.browser.value);
  }

  lemma RecoverableAppendTab(q: seq<Event>, accepted: seq<Event>, t: Event)
    requires Recoverable(q, accepted) && !t.loss && t.number.Some? && t.browser.Some?
    requires OneBrowser(q, t.browser.value) && Covers(accepted, false, t.browser.value, t.number.value - 1)
    requires forall e :: e in q ==> e in accepted && (e.number.Some? ==> e.browser.Some?)
    ensures Recoverable(q + [t], accepted + [t])
  {
    var r := q + [t];
    assert OneBrowser(r, t.browser.value);
    forall i | 0 <= i < |q| && !q[i].loss && q[i].number.Some?
      ensures q[i].number.value < t.number.value
    {
      NewestTab(q, accepted, t, i);
    }
    TabNumbersIncreaseAppend(q, t);
    forall i, e | 0 <= i < |r| && r[i].browser.Some? && e in accepted + [t] && !e.loss
                  && NumberedUnder(e, r[i].browser.value)
      ensures ShowsAtLeast(r, i, e.number.value)
    {
      ShowsAtLeastAppend(q, t, i, e.number.value);
    }
  }

  lemma RecoverablePrependLoss(q: seq<Event>, accepted: seq<Event>, e: Event)
    requires Recoverable(q, accepted) && e.loss && e.number.Some? && e.browser.Some?
    requires OneBrowser(q, e.browser.value) && Covers(accepted, false, e.browser.value, e.number.value - 1)
    ensures Recoverable([e] + q, accepted + [e])
  {
    var r := [e] + q;
    assert OneBrowser(r, e.browser.value);
    assert forall i :: 0 < i < |r| ==> r[i] == q[i - 1];
    forall i, a | 0 <= i < |r| && r[i].browser.Some? && a in accepted + [e] && !a.loss
                  && NumberedUnder(a, r[i].browser.value)
      ensures ShowsAtLeast(r, i, a.number.value)
    {
      if i == 0 {
        assert r[0] == e;
      } else {
        assert ShowsAtLeast(q, i - 1, a.number.value);
        var j :| i - 1 <= j < |q| && q[j].number.Some? && a.number.value <= q[j].number.value;
        assert r[j + 1] == q[j];
      }
    }
  }

  lemma UniqueAppend(accepted: seq<Event>, e: Event, tabsOnly: bool)
    requires NumbersUnique(accepted, tabsOnly) && e.number.Some? && e.browser.Some?
    requires (tabsOnly && e.loss) || Covers(accepted, false, e.browser.value, e.number.value - 1)
    requires tabsOnly || Covers(accepted, true, e.browser.value, e.number.value - 1)
    ensures NumbersUnique(accepted + [e], tabsOnly)
  {
  }

  lemma UniqueAppendPlain(accepted: seq<Event>, events: seq<Event>, tabsOnly: bool)
    requires NumbersUnique(accepted, tabsOnly)
    requires forall e :: e in events ==> e.number.None?
    ensures NumbersUnique(accepted + events, tabsOnly)
  {
  }

  // ---------------------------------------------------------------- each step keeps the invariant

  /** The world v after n events were cut off the front of w's queue with a fate. */
  ghost predicate Departed(w: World, v: World, n: nat, fate: Fate) {
    && n <= |Stored(w).events| && v.session == w.session && v.pc == Idle
    && v.log.accepted == w.log.accepted && v.log.answered == w.log.answered && v.log.sound == w.log.sound
    && v.log.exits == w.log.exits + Exits(Stored(w).events[..n], fate)
    && Stored(v).events == Stored(w).events[n..]
  }

  lemma GoneMore(exits: seq<Exit>, events: seq<Event>, fate: Fate)
    ensures Gone(exits + Exits(events, fate)) == Gone(exits) + events
    ensures DropCount(exits + Exits(events, fate)) == DropCount(exits) + if fate.Dropped? then |events| else 0
  {
    DropCountConcat(exits, Exits(events, fate));
    DropCountExits(events, fate);
  }

  lemma DepartKeepsConserved(w: World, v: World, n: nat, fate: Fate)
    requires Conserved(Gone(w.log.exits), Stored(w).events, w.log.accepted) && Departed(w, v, n, fate)
    ensures Conserved(Gone(v.log.exits), Stored(v).events, v.log.accepted)
    ensures DropCount(v.log.exits) == DropCount(w.log.exits) + if fate.Dropped? then n else 0
  {
    var q := Stored(w).events;
    GoneMore(w.log.exits, q[..n], fate);
    assert q[..n] + q[n..] == q;
    ConservedDepart(Gone(w.log.exits), q[..n], q[n..], w.log.accepted);
  }

  lemma DepartKeepsAnswered(w: World, v: World, n: nat, fate: Fate)
    requires DeliveredWereAnswered(w.log) && Departed(w, v, n, fate)
    requires fate.Delivered? ==> forall i :: 0 <= i < n ==> Stored(w).events[i] in w.log.answered
    ensures DeliveredWereAnswered(v.log)
  {
  }

  lemma DepartKeepsNumbers(w: World, v: World, n: nat, fate: Fate)
    requires NumbersInv(w) && Departed(w, v, n, fate)
    ensures NumbersInv(v)
  {
    RecoverableSuffix(Stored(w).events, w.log.accepted, n);
    GoneMore(w.log.exits, Stored(w).events[..n], fate);
  }

  /** Cutting n events off the front, with whatever fate, keeps all but the ledger. */
  lemma DepartKeeps(w: World, v: World, n: nat, fate: Fate)
    requires Conserved(Gone(w.log.exits), Stored(w).events, w.log.accepted)
    requires DeliveredWereAnswered(w.log) && NumbersInv(w) && Departed(w, v, n, fate)
    requires fate.Delivered? ==> forall i :: 0 <= i < n ==> Stored(w).events[i] in w.log.answered
    ensures Conserved(Gone(v.log.exits), Stored(v).events, v.log.accepted)
    ensures DeliveredWereAnswered(v.log) && NumbersInv(v)
    ensures DropCount(v.log.exits) == DropCount(w.log.exits) + if fate.Dropped? then n else 0
  {
    DepartKeepsConserved(w, v, n, fate);
    DepartKeepsAnswered(w, v, n, fate);
    DepartKeepsNumbers(w, v, n, fate);
  }

  /** Under the invariant the session switch inside enqueueUnlocked never discards anything. */
  lemma PushKeepsQueue(w: World, events: seq<Event>)
    requires Linked(w) && Active(w)
    ensures Pushed(Stored(w), w.session.value.sessionId, events)
         == Queue(Some(w.session.value.sessionId), Stored(w).events + events, Stored(w).dropped)
    ensures Push(w, events).log.forgotten == w.log.forgotten
    ensures var full := Pushed(Stored(w), w.session.value.sessionId, events);
      Push(w, events).log.exits == w.log.exits + Exits(full.events[..TrimCount(full)], Dropped)
  {
  }

  /** The world in between: the events are appended, nothing is cut yet. */
  ghost function Appended(w: World, events: seq<Event>): World
    requires Active(w)
  {
    w.(local := Some(Pushed(Stored(w), w.session.value.sessionId, events)), pc := Idle,
       log := w.log.(accepted := w.log.accepted + events))
  }

  lemma PushAppended(w: World, events: seq<Event>)
    requires Inv(w) && Active(w) && forall e :: e in events ==> !e.loss && (e.number.Some? <==> e.browser.Some?)
    requires NumbersInv(Appended(w, events))
    ensures Inv(Push(w, events))
  {
    var m, v := Appended(w, events), Push(w, events);
    PushKeepsQueue(w, events);
    ConservedAppend(Gone(w.log.exits), Stored(w).events, w.log.accepted, events);
    var k := TrimCount(Stored(m));
    DepartKeeps(m, v, k, Dropped);
    ReportedConcat(w.log.accepted, events);
    ReportedNone(events);
    PushKeepsLossFirst(Stored(w), Stored(m).sessionId, events, k);
  }

  lemma PushKeepsLossFirst(q: Queue, id: Option<string>, events: seq<Event>, k: nat)
    requires LossFirst(q) && k <= |q.events + events| && forall e :: e in events ==> !e.loss
    ensures LossFirst(Queue(id, (q.events + events)[k..], q.dropped + k))
  {
  }

  lemma PushMintedKeepsInv(w: World)
    requires Inv(w) && Enabled(w, PushMinted)
    ensures Inv(Apply(w, PushMinted))
  {
    var e := w.pc.event;
    var m := Appended(w, [e]);
    PushKeepsQueue(w, [e]);
    QueuedWasAccepted(Gone(w.log.exits), Stored(w).events, w.log.accepted);
    RecoverableAppendTab(Stored(w).events, w.log.accepted, e);
    UniqueAppend(w.log.accepted, e, true);
    if w.log.sound {
      UniqueAppend(w.log.accepted, e, false);
    }
    PushAppended(w, [e]);
  }

  lemma PushPageKeepsInv(w: World, events: seq<Event>)
    requires Inv(w) && Enabled(w, PushPage(events))
    ensures Inv(Apply(w, PushPage(events)))
  {
    PushKeepsQueue(w, events);
    var m := Appended(w, events);
    RecoverableAppendPlain(Stored(w).events, w.log.accepted, events);
    UniqueAppendPlain(w.log.accepted, events, true);
    if w.log.sound {
      UniqueAppendPlain(w.log.accepted, events, false);
    }
    assert OneBrowser(Stored(m).events, w.session.value.browser) by {
      assert forall i :: |Stored(w).events| <= i < |Stored(m).events| ==> Stored(m).events[i] in events;
    }
    PushAppended(w, events);
  }

  lemma ReportedOneLoss(accepted: seq<Event>, e: Event)
    requires e.loss
    ensures Reported(accepted + [e]) == Reported(accepted) + e.lost
  {
    ReportedConcat(accepted, [e]);
    assert [e][1..] == [];
  }

  lemma ReportKeepsHistory(w: World)
    requires Inv(w) && Enabled(w, Report)
    ensures HistoryInv(Apply(w, Report)) && Linked(Apply(w, Report))
  {
    var e := w.pc.event;
    ConservedPrependLoss(Gone(w.log.exits), Stored(w).events, w.log.accepted, e);
    ReportedOneLoss(w.log.accepted, e);
  }

  lemma ReportKeepsNumbers(w: World)
    requires Inv(w) && Enabled(w, Report)
    ensures NumbersInv(Apply(w, Report))
  {
    var e := w.pc.event;
    RecoverablePrependLoss(Stored(w).events, w.log.accepted, e);
    UniqueAppend(w.log.accepted, e, true);
    if w.log.sound {
      UniqueAppend(w.log.accepted, e, false);
    }
  }

  lemma ReportKeepsInv(w: World)
    requires Inv(w) && Enabled(w, Report)
    ensures Inv(Apply(w, Report))
  {
    ReportKeepsHistory(w);
    ReportKeepsNumbers(w);
  }

  lemma RemoveKeepsInv(w: World)
    requires Inv(w) && Enabled(w, Remove)
    ensures Inv(Apply(w, Remove))
  {
    DepartKeeps(w, Apply(w, Remove), w.pc.count, Delivered);
  }

  lemma ForgetKeepsInv(w: World)
    requires Inv(w) && Enabled(w, ForgetQueue)
    ensures Inv(Apply(w, ForgetQueue))
  {
    var q := Stored(w).events;
    assert q[..|q|] == q && q[|q|..] == [];
    DepartKeeps(w, Apply(w, ForgetQueue), |q|, Abandoned);
  }

  /** The sequence number recovered from a leftover queue covers every tab number. */
  lemma RecoveryCoversTabs(q: seq<Event>, accepted: seq<Event>)
    requires Recoverable(q, accepted) && FirstBrowser(q).Some?
    ensures OneBrowser(q, FirstBrowser(q).value)
    ensures Covers(accepted, false, FirstBrowser(q).value, MaxNumber(q))
  {
    FirstBrowserIsThere(q);
    var b :| OneBrowser(q, b);
    var i :| 0 <= i < |q| && q[i].browser == FirstBrowser(q);
    forall e | e in accepted && !e.loss && NumberedUnder(e, b)
      ensures e.number.value <= MaxNumber(q)
    {
      assert ShowsAtLeast(q, i, e.number.value);
      var j :| i <= j < |q| && q[j].number.Some? && e.number.value <= q[j].number.value;
      MaxNumberIsUpperBound(q, j);
    }
  }

  /** Without drops there has never been anything to report. */
  lemma NoDropsNoLoss(w: World)
    requires LedgerBalances(w.log, Stored(w).dropped) && WellFormed(w.log.accepted) && DropCount(w.log.exits) == 0
    ensures forall e :: e in w.log.accepted ==> !e.loss
  {
    forall i | 0 <= i < |w.log.accepted|
      ensures !w.log.accepted[i].loss
    {
      assert w.log.accepted[i] in w.log.accepted;
      if w.log.accepted[i].loss {
        ReportedMember(w.log.accepted, i);
        assert false;
      }
    }
  }

  lemma OpenKeepsInv(w: World, sessionId: string, uuid: nat)
    requires Inv(w) && Enabled(w, Open(sessionId, uuid))
    ensures Inv(Apply(w, Open(sessionId, uuid)))
  {
    var q := Stored(w).events;
    FirstBrowserIsThere(q);
    if FirstBrowser(q).Some? {
      RecoveryCoversTabs(q, w.log.accepted);
    }
    if DropCount(w.log.exits) == 0 {
      NoDropsNoLoss(w);
    }
  }

  lemma MintKeepsInv(w: World, s: Step)
    requires Inv(w) && Enabled(w, s) && (s.MintTab? || s.MintLoss?)
    ensures Inv(Apply(w, s))
  {
  }

  lemma AnswerKeepsInv(w: World, s: Step)
    requires Inv(w) && Enabled(w, s) && s.Answer?
    ensures Inv(Apply(w, s))
  {
  }

  lemma DieKeepsInv(w: World, s: Step)
    requires Inv(w) && (s.Die? || s.EndSession?)
    ensures Inv(Apply(w, s))
  {
    var v := Apply(w, s);
    SameStorage(w, v);
    assert NumbersInv(v) by {
      if s.EndSession? {
        assert v.session.None?;
      } else if w.session.Some? {
        var session := w.session.value;
        assert OneBrowser(Stored(v).events, session.browser);
      }
    }
  }

  lemma SameStorage(w: World, v: World)
    requires HistoryInv(w) && v.local == w.local && v.log == w.log
    ensures HistoryInv(v)
  {
  }

  lemma StepKeepsInv(w: World, s: Step)
    requires Inv(w) && Enabled(w, s)
    ensures Inv(Apply(w, s))
  {
    match s
    case MintTab(_, _) => MintKeepsInv(w, s);
    case MintLoss(_, _) => MintKeepsInv(w, s);
    case PushMinted => PushMintedKeepsInv(w);
    case PushPage(events) => PushPageKeepsInv(w, events);
    case Report => ReportKeepsInv(w);
    case Answer(_) => AnswerKeepsInv(w, s);
    case Remove => RemoveKeepsInv(w);
    case Die => DieKeepsInv(w, s);
    case EndSession => DieKeepsInv(w, s);
    case ForgetQueue => ForgetKeepsInv(w);
    case Open(sessionId, uuid) => OpenKeepsInv(w, sessionId, uuid);
  }
}
