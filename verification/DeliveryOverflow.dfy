/**
 A run of the extension after which a recovery is not safe: a session fills its queue to the limit while
 the server is out of reach, one tab event more drops the oldest event, the drop is reported by a loss event
 that takes the newest number, and the first batch with it is delivered before the browser restarts.
 */
module DeliveryOverflow {
  import opened Common
  import opened DeliveryQueue
  import opened DeliveryMachine
  import opened DeliveryTheorems

  const PAGE_BYTES: nat := 300

  /** A key press or another small event of the page. */
  const PAGE := Event(0, false, None, None, 0, PAGE_BYTES)

  function Pages(n: nat): seq<Event> {
    seq(n, i => PAGE)
  }

  function Tab(): Event {
    Event(1, false, Some(0), Some(1), 0, 600)
  }

  function Loss(): Event {
    Event(2, true, Some(0), Some(2), 1, 200)
  }

  // ---------------------------------------------------------------- uniform queues

  lemma PagesTail(n: nat)
    requires n > 0
    ensures Pages(n)[0] == PAGE && Pages(n)[1..] == Pages(n - 1)
  {
  }

  lemma PagesBefore(n: nat, rest: seq<Event>)
    requires n > 0
    ensures (Pages(n) + rest)[0] == PAGE && (Pages(n) + rest)[1..] == Pages(n - 1) + rest
  {
    PagesTail(n);
    Uncons(Pages(n), rest);
  }

  lemma PagesMore(m: nat, n: nat)
    ensures Pages(m) + Pages(n) == Pages(m + n)
  {
  }

  lemma {:induction false} PagesBytes(n: nat)
    ensures SumBytes(Pages(n)) == PAGE_BYTES * n
  {
    if n > 0 {
      PagesTail(n);
      PagesBytes(n - 1);
    }
  }

  lemma BytesWithLast(n: nat, last: Event)
    ensures SumBytes(Pages(n) + [last]) == PAGE_BYTES * n + last.bytes
  {
    SumBytesConcat(Pages(n), [last]);
    PagesBytes(n);
    assert [last][1..] == [];
  }

  lemma {:induction false} PagesShow(n: nat, rest: seq<Event>)
    ensures FirstBrowser(Pages(n) + rest) == FirstBrowser(rest)
    ensures MaxNumber(Pages(n) + rest) == MaxNumber(rest)
  {
    if n == 0 {
      assert Pages(0) + rest == rest;
    } else {
      PagesBefore(n, rest);
      PagesShow(n - 1, rest);
    }
  }

  // ---------------------------------------------------------------- the run

  function Mine(events: seq<Event>, dropped: nat): Queue {
    Queue(Some("s"), events, dropped)
  }

  /** The session "s" with its browser id 0, at a number, between two jobs; no event is under id 1. */
  ghost predicate At(w: World, sequence: nat, events: seq<Event>, dropped: nat) {
    && Reachable(w) && w.log.sound && w.pc == Idle
    && w.session == Some(Session("s", 0, sequence))
    && w.local == Some(Mine(events, dropped))
    && forall e :: e in w.log.accepted ==> e.browser != Some(1)
  }

  lemma PagesFit(n: nat)
    requires n <= MAX_EVENTS
    ensures TrimCount(Mine(Pages(n), 0)) == 0
  {
    PagesBytes(n);
    assert Digits(0) == 1;
  }

  lemma Nothing() returns (w: World)
    ensures Empty(w)
  {
    w := INIT;
  }

  lemma SessionStarts() returns (w: World)
    ensures Reachable(w) && w.log.sound && w.pc == Idle && w.log.accepted == []
    ensures w.session == Some(Session("s", 0, 0)) && w.local == None
  {
    var v := Nothing();
    LeadsReflexive(v);
    ReachableStep(v, Open("s", 0));
    w := Apply(v, Open("s", 0));
  }

  lemma FirstPush(w: World, events: seq<Event>)
    requires w.session == Some(Session("s", 0, 0)) && w.local == None && TrimCount(Mine(events, 0)) == 0
    ensures Push(w, events).local == Some(Mine(events, 0))
  {
    assert [] + events == events;
  }

  lemma FirstPages(n: nat) returns (w: World)
    requires 0 < n <= MAX_EVENTS
    ensures At(w, 0, Pages(n), 0)
  {
    var v := SessionStarts();
    PagesFit(n);
    FirstPush(v, Pages(n));
    w := Apply(v, PushPage(Pages(n)));
    ReachableStep(v, PushPage(Pages(n)));
    assert w.log.accepted == [] + Pages(n);
  }

  lemma MorePages(v: World, n: nat) returns (w: World)
    requires At(v, 0, Pages(n), 0) && n + 50 <= MAX_EVENTS
    ensures At(w, 0, Pages(n + 50), 0)
  {
    PagesMore(n, 50);
    PagesFit(n + 50);
    w := Apply(v, PushPage(Pages(50)));
    ReachableStep(v, PushPage(Pages(50)));
  }

  /** Message after message of the page, fifty events each. */
  lemma {:induction false} ManyPages(messages: nat) returns (w: World)
    requires 0 < messages <= 200
    ensures At(w, 0, Pages(50 * messages), 0)
  {
    if messages == 1 {
      w := FirstPages(50);
    } else {
      var v := ManyPages(messages - 1);
      w := MorePages(v, 50 * (messages - 1));
    }
  }

  lemma OneTooMany(n: nat)
    requires n == MAX_EVENTS
    ensures TrimCount(Mine(Pages(n) + [Tab()], 0)) == 1 && (Pages(n) + [Tab()])[1..] == Pages(n - 1) + [Tab()]
  {
    PagesBefore(n, [Tab()]);
    BytesWithLast(n - 1, Tab());
    assert Digits(0) == 1;
    assert Fits(Mine(Pages(n - 1) + [Tab()], 0));
  }

  /** A tab event is numbered and pushed; the oldest event is dropped. */
  lemma TabDropsOne(v: World, n: nat) returns (w: World)
    requires At(v, 0, Pages(n), 0) && n == MAX_EVENTS
    ensures At(w, 1, Pages(n - 1) + [Tab()], 1)
  {
    var m := Apply(v, MintTab(1, 600));
    ReachableStep(v, MintTab(1, 600));
    assert m.pc.event == Tab();
    OneTooMany(n);
    w := Apply(m, PushMinted);
    ReachableStep(m, PushMinted);
  }

  /** The drop is reported in front of the queue. */
  lemma DropIsReported(v: World, rest: seq<Event>) returns (w: World)
    requires At(v, 1, rest, 1)
    ensures At(w, 2, [Loss()] + rest, 0) && Loss() in w.log.accepted
  {
    var m := Apply(v, MintLoss(2, 200));
    ReachableStep(v, MintLoss(2, 200));
    assert m.pc.event == Loss();
    w := Apply(m, Report);
    ReachableStep(m, Report);
    assert w.log.accepted == v.log.accepted + [Loss()];
  }

  lemma FirstBatch(n: nat)
    requires n >= 99
    ensures var q := [Loss()] + (Pages(n) + [Tab()]);
      IsBatchSize("s", q, 100) && q[100..] == Pages(n - 99) + [Tab()]
  {
    var q := [Loss()] + (Pages(n) + [Tab()]);
    assert q[..100] == [Loss()] + Pages(99);
    SumBytesConcat([Loss()], Pages(99));
    PagesBytes(99);
    assert [Loss()][1..] == [];
  }

  /** A hundred events are delivered, the loss event first. */
  lemma FirstBatchIsDelivered(v: World, n: nat) returns (w: World)
    requires At(v, 2, [Loss()] + (Pages(n) + [Tab()]), 0) && n >= 99 && Loss() in v.log.accepted
    ensures At(w, 2, Pages(n - 99) + [Tab()], 0) && Loss() in w.log.accepted
  {
    FirstBatch(n);
    var m := Apply(v, Answer(100));
    ReachableStep(v, Answer(100));
    w := Apply(m, Remove);
    ReachableStep(m, Remove);
  }

  lemma LeftoverIsUnsafe(w: World, n: nat)
    requires w.local == Some(Mine(Pages(n) + [Tab()], 0)) && Loss() in w.log.accepted
    ensures !RecoverySafe(w)
  {
    PagesShow(n, [Tab()]);
    assert [Tab()][1..] == [];
    assert NumberedUnder(Loss(), 0);
  }

  /** The condition is needed: a run of one session, one drop and one restart reaches a leftover queue whose
      recovery is not safe.  The loss event took the newest number but was sent ahead of an older event. */
  lemma UnsafeRecoveryIsReachable()
    ensures exists w :: Reachable(w) && w.log.sound && Enabled(w, Open("s", 1)) && !RecoverySafe(w)
  {
    var full := ManyPages(200);
    var dropped := TabDropsOne(full, MAX_EVENTS);
    var reported := DropIsReported(dropped, Pages(MAX_EVENTS - 1) + [Tab()]);
    var delivered := FirstBatchIsDelivered(reported, MAX_EVENTS - 1);
    var w := Apply(delivered, EndSession);
    ReachableStep(delivered, EndSession);
    LeftoverIsUnsafe(w, MAX_EVENTS - 100);
  }
}
