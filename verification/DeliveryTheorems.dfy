/** The delivery protocol over whole runs: what holds of every run that starts with empty storages. */
module DeliveryTheorems {
  import opened Common
  import opened DeliveryQueue
  import opened DeliveryMachine
  import opened DeliverySafety

  lemma {:induction false} RunKeepsInv(w: World, steps: seq<Step>)
    requires Inv(w) && Valid(w, steps)
    ensures Inv(Run(w, steps))
    decreases |steps|
  {
    if steps != [] {
      StepKeepsInv(w, steps[0]);
      RunKeepsInv(Apply(w, steps[0]), steps[1..]);
    }
  }

  lemma LeadsKeepsInv(v: World, w: World)
    requires Inv(v) && Leads(v, w)
    ensures Inv(w)
  {
    var steps :| Valid(v, steps) && Run(v, steps) == w;
    RunKeepsInv(v, steps);
  }

  ghost predicate Empty(w: World) {
    && w.session == None && w.local == None && w.pc == Idle
    && w.log.accepted == [] && w.log.exits == [] && w.log.answered == [] && w.log.forgotten == 0 && w.log.sound
  }

  /** Some run that starts with empty storages and an empty history leads to w. */
  ghost predicate Reachable(w: World) {
    exists v :: Empty(v) && Leads(v, w)
  }

  lemma EmptyInv(w: World)
    requires Empty(w)
    ensures Inv(w)
  {
    assert OneBrowser(Stored(w).events, 0);
    assert Conserved(Gone(w.log.exits), Stored(w).events, w.log.accepted);
  }

  lemma ReachableInv(w: World)
    requires Reachable(w)
    ensures Inv(w)
  {
    var v :| Empty(v) && Leads(v, w);
    EmptyInv(v);
    LeadsKeepsInv(v, w);
  }

  // ---------------------------------------------------------------- conservation, ledger, loss events

  /** In every run, crashes and restarts included: each accepted event has left with exactly one fate or is
      still queued; only events of an answered batch count as delivered; tab and page events leave in the
      order of acceptance; every drop is unreported, reported or forgotten with its queue; and the queue
      holds at most one loss event, at its front, and none while a drop is unreported. */
  lemma EveryRunAccountsForEveryEvent(w: World)
    requires Reachable(w)
    ensures Conserved(Gone(w.log.exits), Stored(w).events, w.log.accepted)
    ensures DeliveredWereAnswered(w.log)
    ensures LedgerBalances(w.log, Stored(w).dropped)
    ensures LossFirst(Stored(w))
  {
    ReachableInv(w);
  }

  /** Each job of the worker, finished or killed, leads from one world to the next. */
  ghost predicate Chained(worlds: seq<World>) {
    forall i :: 0 <= i < |worlds| - 1 ==> Leads(worlds[i], worlds[i + 1])
  }

  /** After any sequence of jobs the world is reachable, so every event is accounted for. */
  lemma {:induction false} JobsKeepAccounts(worlds: seq<World>)
    requires worlds != [] && Empty(worlds[0]) && Chained(worlds)
    ensures var w := worlds[|worlds| - 1];
      && Reachable(w)
      && Conserved(Gone(w.log.exits), Stored(w).events, w.log.accepted) && DeliveredWereAnswered(w.log)
      && LedgerBalances(w.log, Stored(w).dropped) && LossFirst(Stored(w))
  {
    var w := worlds[|worlds| - 1];
    if |worlds| == 1 {
      LeadsReflexive(w);
    } else {
      var v := worlds[|worlds| - 2];
      JobsKeepAccounts(worlds[..|worlds| - 1]);
      assert Leads(v, w);
      ReachableThenLeads(v, w);
    }
    EveryRunAccountsForEveryEvent(w);
  }

  lemma ReachableThenLeads(v: World, w: World)
    requires Reachable(v) && Leads(v, w)
    ensures Reachable(w)
  {
    var u :| Empty(u) && Leads(u, v);
    LeadsTransitive(u, v, w);
  }

  ghost predicate NothingAbandoned(log: Log) {
    log.forgotten == 0 && forall x :: x in log.exits ==> !x.fate.Abandoned?
  }

  lemma NothingAbandonedMore(exits: seq<Exit>, events: seq<Event>, fate: Fate)
    ensures (forall x :: x in exits + Exits(events, fate) ==> !x.fate.Abandoned?) <==>
      (forall x :: x in exits ==> !x.fate.Abandoned?) && (fate.Abandoned? ==> events == [])
  {
    var more := Exits(events, fate);
    if events != [] {
      assert more[0] in exits + more;
    }
    assert forall x :: x in more ==> x.fate == fate;
    assert forall x :: x in exits ==> x in exits + more;
  }

  lemma PushAbandonsNothing(w: World, events: seq<Event>)
    requires Linked(w) && Active(w)
    ensures NothingAbandoned(Push(w, events).log) <==> NothingAbandoned(w.log)
  {
    PushKeepsQueue(w, events);
    var full := Pushed(Stored(w), w.session.value.sessionId, events);
    NothingAbandonedMore(w.log.exits, full.events[..TrimCount(full)], Dropped);
  }

  /** A step abandons something exactly if it removes a stored queue that holds something. */
  lemma StepAbandonsExactly(w: World, s: Step)
    requires Linked(w) && Enabled(w, s)
    ensures NothingAbandoned(Apply(w, s).log) <==> NothingAbandoned(w.log) && Spares(w, s)
  {
    match s
    case PushMinted => PushAbandonsNothing(w, [w.pc.event]);
    case PushPage(events) => PushAbandonsNothing(w, events);
    case Remove => NothingAbandonedMore(w.log.exits, Stored(w).events[..w.pc.count], Delivered);
    case ForgetQueue => NothingAbandonedMore(w.log.exits, Stored(w).events, Abandoned);
    case _ =>
  }

  /** A run abandons nothing exactly if it removes the stored queue only while that holds nothing: then every
      accepted event is delivered, dropped by the limit or queued, and the ledger has no forgotten part. */
  lemma {:induction false} NothingAbandonedExactly(w: World, steps: seq<Step>)
    requires Inv(w) && Valid(w, steps)
    ensures NothingAbandoned(Run(w, steps).log) <==> NothingAbandoned(w.log) && Sparing(w, steps)
    decreases |steps|
  {
    if steps != [] {
      StepAbandonsExactly(w, steps[0]);
      StepKeepsInv(w, steps[0]);
      NothingAbandonedExactly(Apply(w, steps[0]), steps[1..]);
    }
  }

  ghost predicate ChainedKeeping(worlds: seq<World>) {
    forall i :: 0 <= i < |worlds| - 1 ==> LeadsKeeping(worlds[i], worlds[i + 1])
  }

  /** Sequences of jobs that start a session with nothing or its own queue stored and never clear: nothing is ever
      abandoned, so every accepted event is delivered, dropped by the limit or queued. */
  lemma {:induction false} JobsAbandonNothing(worlds: seq<World>)
    requires worlds != [] && Empty(worlds[0]) && ChainedKeeping(worlds)
    ensures NothingAbandoned(worlds[|worlds| - 1].log)
    ensures Inv(worlds[|worlds| - 1])
  {
    if |worlds| == 1 {
      EmptyInv(worlds[0]);
    } else {
      var v, w := worlds[|worlds| - 2], worlds[|worlds| - 1];
      JobsAbandonNothing(worlds[..|worlds| - 1]);
      assert LeadsKeeping(v, w);
      var steps :| Valid(v, steps) && Sparing(v, steps) && Run(v, steps) == w;
      NothingAbandonedExactly(v, steps);
      RunKeepsInv(v, steps);
    }
  }

  // ---------------------------------------------------------------- sequence numbers

  /** No pair of browser session id and sequence number is ever given to two accepted events in a run in
      which the queue limit never dropped anything, however often session storage was lost. */
  lemma NumbersUniqueWithoutDrops(w: World)
    requires Reachable(w) && DropCount(w.log.exits) == 0
    ensures NumbersUnique(w.log.accepted, false)
  {
    ReachableInv(w);
  }

  /** Drops or not: two tab events never share a pair, so a repeated number always involves a loss event; and
      no number is repeated in a run whose recoveries were all safe. */
  lemma RepeatedNumbersNeedAnUnsafeRecovery(w: World)
    requires Reachable(w)
    ensures NumbersUnique(w.log.accepted, true)
    ensures w.log.sound ==> NumbersUnique(w.log.accepted, false)
  {
    ReachableInv(w);
  }

  ghost predicate NoOpen(steps: seq<Step>) {
    forall s :: s in steps ==> !s.Open?
  }

  lemma {:induction false} SoundUntilOpen(w: World, steps: seq<Step>)
    requires Valid(w, steps) && NoOpen(steps)
    ensures Run(w, steps).log.sound == w.log.sound
    decreases |steps|
  {
    if steps != [] {
      assert steps[0] in steps;
      SoundUntilOpen(Apply(w, steps[0]), steps[1..]);
    }
  }

  lemma TabEventSteps(w: World) returns (steps: seq<Step>)
    requires Inv(w) && w.pc.Idle? && Active(w)
    ensures NoOpen(steps) && Valid(w, steps) && Run(w, steps) == Apply(Apply(w, MintTab(0, 0)), PushMinted)
  {
    var m := Apply(w, MintTab(0, 0));
    RunOne(w, MintTab(0, 0));
    RunOne(m, PushMinted);
    RunConcat(w, [MintTab(0, 0)], [PushMinted]);
    steps := [MintTab(0, 0)] + [PushMinted];
  }

  /** One tab event is numbered and pushed. */
  lemma OneTab(w: World) returns (steps: seq<Step>, v: World, e: Event)
    requires Inv(w) && w.pc.Idle? && Active(w)
    ensures NoOpen(steps) && Valid(w, steps) && Run(w, steps) == v
    ensures Inv(v) && v.pc.Idle? && Active(v)
    ensures v.session == Some(w.session.value.(sequence := w.session.value.sequence + 1))
    ensures v.log.accepted == w.log.accepted + [e] && NumberedUnder(e, w.session.value.browser)
    ensures e.number.value == v.session.value.sequence
  {
    steps := TabEventSteps(w);
    var m := Apply(w, MintTab(0, 0));
    v, e := Apply(m, PushMinted), m.pc.event;
    StepKeepsInv(w, MintTab(0, 0));
    StepKeepsInv(m, PushMinted);
  }

  lemma NoOpenConcat(a: seq<Step>, b: seq<Step>)
    requires NoOpen(a) && NoOpen(b)
    ensures NoOpen(a + b)
  {
  }

  lemma SameNumberTwice(accepted: seq<Event>, loss: Event, e: Event)
    requires loss in accepted && SameNumber(loss, e)
    ensures !NumbersUnique(accepted + [e], false)
  {
    var i :| 0 <= i < |accepted| && accepted[i] == loss;
    assert (accepted + [e])[i] == loss && (accepted + [e])[|accepted|] == e;
  }

  /** Numbering tab events one after the other reaches the number of an old loss event. */
  lemma {:induction false} CollisionAhead(w: World, loss: Event) returns (steps: seq<Step>)
    requires Inv(w) && w.pc.Idle? && Active(w)
    requires loss in w.log.accepted && loss.loss && NumberedUnder(loss, w.session.value.browser)
    requires loss.number.value > w.session.value.sequence
    ensures Valid(w, steps) && NoOpen(steps) && !NumbersUnique(Run(w, steps).log.accepted, false)
    decreases loss.number.value - w.session.value.sequence
  {
    var first, v, e := OneTab(w);
    var rest := [];
    if v.session.value.sequence < loss.number.value {
      rest := CollisionAhead(v, loss);
    } else {
      SameNumberTwice(w.log.accepted, loss, e);
    }
    RunConcat(w, first, rest);
    NoOpenConcat(first, rest);
    steps := first + rest;
  }

  /** The exact condition for a recovery to be harmless, checkable in the stored queue and the history: it
      holds if and only if no continuation without another recovery repeats a number. */
  lemma RecoverySafeExactly(w: World, sessionId: string, uuid: nat)
    requires Inv(w) && w.log.sound && sessionId != "" && Enabled(w, Open(sessionId, uuid))
    ensures var v := Apply(w, Open(sessionId, uuid));
      RecoverySafe(w) <==>
      forall steps :: Valid(v, steps) && NoOpen(steps) ==> NumbersUnique(Run(v, steps).log.accepted, false)
  {
    var v := Apply(w, Open(sessionId, uuid));
    StepKeepsInv(w, Open(sessionId, uuid));
    if RecoverySafe(w) {
      forall steps | Valid(v, steps) && NoOpen(steps)
        ensures NumbersUnique(Run(v, steps).log.accepted, false)
      {
        SoundUntilOpen(v, steps);
        RunKeepsInv(v, steps);
      }
    } else {
      var found := FirstBrowser(Stored(w).events);
      var e :| e in w.log.accepted && e.loss && found.Some? && NumberedUnder(e, found.value)
               && e.number.value > MaxNumber(Stored(w).events);
      var steps := CollisionAhead(v, e);
    }
  }

  lemma ReachableStep(w: World, s: Step)
    requires Reachable(w) && Enabled(w, s)
    ensures Reachable(Apply(w, s))
  {
    var v :| Empty(v) && Leads(v, w);
    LeadsStep(v, w, s);
  }
}
