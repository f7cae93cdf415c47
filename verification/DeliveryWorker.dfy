/**
 The service worker itself: its jobs as methods over the two storages.  `case mortal` marks an await at
 which the worker may be killed; a killed job reports `died`, and a worker that is not mortal finishes every
 job.  Every method performs a run of the step machine, so everything proved of runs holds of the storages
 after any sequence of jobs, finished or killed.
 Jobs do not overlap (module SerialChain).
 */
module DeliveryWorker {
  import opened Common
  import opened DeliveryQueue
  import opened DeliveryMachine
  import opened DeliveryTheorems

  datatype Response = Response(ok: bool, status: nat)

  datatype FlushResult = FlushResult(ok: bool, accepted: nat)

  datatype StartResult = OriginMismatch | Started(browser: nat)

  /** Answers that end the retries: success, or a refusal that will not go away. */
  predicate Final(r: Option<Response>) {
    r.Some? && (r.value.ok || r.value.status in {401, 403, 409, 422})
  }

  /** What the retries come to: the first final reply, or None if there is none. */
  ghost predicate AnsweredBy(replies: seq<Option<Response>>, r: Option<Response>) {
    if r.None? then forall i :: 0 <= i < |replies| ==> !Final(replies[i])
    else exists i :: 0 <= i < |replies| && replies[i] == r && Final(r) && forall j :: 0 <= j < i ==> !Final(replies[j])
  }

  /** One request per reply (None: the request failed or timed out) until a final reply, at most three. */
  method FetchWithRetries(replies: seq<Option<Response>>) returns (r: Option<Response>, attempts: nat)
    requires |replies| == 3
    ensures AnsweredBy(replies, r)
    ensures r.Some? ==> 0 < attempts <= 3 && r == replies[attempts - 1]
    ensures r.Some? ==> r.value.ok || r.value.status == 401 || r.value.status == 403 || r.value.status == 409 || r.value.status == 422
    ensures r.None? ==> attempts == 3
    ensures forall i :: 0 <= i < attempts && (r.Some? ==> i < attempts - 1) && replies[i].Some? ==> !replies[i].value.ok
    ensures forall i :: 0 <= i < attempts && (r.Some? ==> i < attempts - 1) && replies[i].Some? ==>
      replies[i].value.status != 401 && replies[i].value.status != 403
    ensures forall i :: 0 <= i < attempts && (r.Some? ==> i < attempts - 1) && replies[i].Some? ==>
      replies[i].value.status != 409 && replies[i].value.status != 422
  {
    attempts := 0;
    while attempts < 3
      invariant attempts <= 3
      invariant forall i :: 0 <= i < attempts ==> !Final(replies[i])
    {
      var response := replies[attempts];
      attempts := attempts + 1;
      if Final(response) {
        return response, attempts;
      }
    }
    r := None;
  }

  predicate WentWell(r: Option<Response>) {
    r.Some? && r.value.ok
  }

  /** The server has three replies for each batch of a flush, one per attempt. */
  ghost predicate ThreeEach(server: nat -> seq<Option<Response>>) {
    forall i: nat :: |server(i)| == 3
  }

  /** The responses to the batches sent, in order: all went well but perhaps the last. */
  ghost predicate Answers(server: nat -> seq<Option<Response>>, responses: seq<Option<Response>>) {
    && (forall i :: 0 <= i < |responses| ==> AnsweredBy(server(i), responses[i]))
    && (forall i :: 0 <= i < |responses| - 1 ==> WentWell(responses[i]))
  }

  lemma AnswersMore(server: nat -> seq<Option<Response>>, responses: seq<Option<Response>>, r: Option<Response>)
    requires Answers(server, responses) && AnsweredBy(server(|responses|), r)
    requires responses == [] || WentWell(responses[|responses| - 1])
    ensures Answers(server, responses + [r])
  {
  }

  /** Equal up to the sequence number. */
  predicate SameSession(a: Option<Session>, b: Option<Session>) {
    a == b || (a.Some? && b.Some? && a.value.(sequence := 0) == b.value.(sequence := 0))
  }

  lemma DeliverMore(exits: seq<Exit>, sent: seq<Event>, batch: seq<Event>)
    ensures exits + Exits([], Delivered) == exits
    ensures exits + Exits(sent, Delivered) + Exits(batch, Delivered) == exits + Exits(sent + batch, Delivered)
  {
  }

  /** The number of the session's last event. */
  function Numbers(w: World): nat {
    if w.session.Some? then w.session.value.sequence else 0
  }

  function NormalTabs(tabs: seq<(bool, nat, nat)>): nat {
    if tabs == [] then 0 else NormalTabs(tabs[..|tabs| - 1]) + (if tabs[|tabs| - 1].0 then 1 else 0)
  }

  /** The events of a snapshot: one for each normal tab, numbered from behind the given number. */
  function TabEvents(tabs: seq<(bool, nat, nat)>, browser: nat, number: nat): seq<Event> {
    if tabs == [] then [] else
      var last := tabs[|tabs| - 1];
      TabEvents(tabs[..|tabs| - 1], browser, number)
        + if last.0 then [Event(last.1, false, Some(browser), Some(number + NormalTabs(tabs)), 0, last.2)] else []
  }

  function SnapshotEvents(w: World, tabs: seq<(bool, nat, nat)>): seq<Event> {
    if Active(w) then TabEvents(tabs, w.session.value.browser, w.session.value.sequence) else []
  }

  /** A snapshot that began in w, after some of its tabs. */
  ghost predicate Snapping(w: World, v: World, tabs: seq<(bool, nat, nat)>) {
    && LeadsKeeping(w, v) && v.pc == Idle && SameSession(v.session, w.session)
    && Numbers(v) == Numbers(w) + (if Active(w) then NormalTabs(tabs) else 0)
    && v.log.accepted == w.log.accepted + SnapshotEvents(w, tabs)
  }

  lemma SnappingStarts(w: World)
    requires w.pc == Idle
    ensures Snapping(w, w, [])
  {
    LeadsReflexive(w);
    assert w.log.accepted + [] == w.log.accepted;
  }

  lemma SnappingMore(w: World, v: World, v': World, tabs: seq<(bool, nat, nat)>, tab: (bool, nat, nat))
    requires Snapping(w, v, tabs) && LeadsKeeping(v, v') && v'.pc == Idle && SameSession(v'.session, v.session)
    requires tab.0 && Active(v) ==> v' == Push(Mint(v, tab.1, false, 0, tab.2), [Mint(v, tab.1, false, 0, tab.2).pc.event])
    requires !(tab.0 && Active(v)) ==> v' == v
    ensures Snapping(w, v', tabs + [tab])
  {
    KeepTransitive(w, v, v');
    assert (tabs + [tab])[..|tabs|] == tabs;
    if tab.0 && Active(v) {
      var e := Mint(v, tab.1, false, 0, tab.2).pc.event;
      assert v'.log.accepted == v.log.accepted + [e];
      Assoc(w.log.accepted, SnapshotEvents(w, tabs), [e]);
    } else if Active(w) {
      assert TabEvents(tabs, w.session.value.browser, w.session.value.sequence) + []
          == TabEvents(tabs, w.session.value.browser, w.session.value.sequence);
    }
  }

  /** The queue that enqueueUnlocked stores for the one it finds. */
  method Enqueued(stored: Option<Queue>, sessionId: string, events: seq<Event>) returns (queue: Queue)
    ensures queue == Trimmed(Pushed(stored.GetOr(NO_QUEUE), sessionId, events))
  {
    queue := stored.GetOr(NO_QUEUE);
    if queue.sessionId != Some(sessionId) {
      queue := Queue(Some(sessionId), [], 0);
    }
    queue := queue.(events := queue.events + events);
    queue := EnforceQueueLimit(queue);
  }

  /** queue.events.splice(0, batch.length) */
  function Unsent(queue: Queue, batch: seq<Event>): (rest: Queue)
    requires batch <= queue.events
    ensures rest == queue.(events := rest.events) && queue.events == batch + rest.events
  {
    queue.(events := queue.events[|batch|..])
  }

  /** What a flush removes, finished or not: a prefix of the queue it finds, behind the loss event that tells of the
      drops so far. */
  ghost predicate Removes(v: World, w: World, sent: seq<Event>, report: seq<Event>) {
    && w.log.exits == v.log.exits + Exits(sent, Delivered)
    && sent + Stored(w).events == report + Stored(v).events
    && (if report == [] then Stored(w).dropped == Stored(v).dropped
        else |report| == 1 && report[0].loss && report[0].lost == Stored(v).dropped > 0 == Stored(w).dropped)
  }

  /** What a finished flush does: the events removed are those answered, all drops are reported, it says ok exactly if
      every response was, then the session's queue is empty, and only a response that is not ok ends the session. */
  ghost predicate Flushes(v: World, w: World, r: FlushResult, sent: seq<Event>, report: seq<Event>, responses: seq<Option<Response>>) {
    && r.accepted == |sent| && w.log.answered == v.log.answered + sent
    && (r.ok <==> forall i :: 0 <= i < |responses| ==> WentWell(responses[i]))
    && (if OwnQueue(v) then (r.ok <==> Stored(w).events == []) && (report != [] <==> Stored(v).dropped > 0)
        else r.ok && sent == report == [] && w == v)
    && (if !r.ok && responses[|responses| - 1].Some? then w.session == None else SameSession(w.session, v.session))
  }

  /** The loop of a flush that began in w, as long as all goes well. */
  ghost predicate Sending(w: World, v: World, server: nat -> seq<Option<Response>>, found: Queue, queue: Queue, sent: seq<Event>,
      responses: seq<Option<Response>>)
  {
    && LeadsKeeping(w, v) && v.pc == Idle && v.session == w.session
    && v.local == Some(queue) && queue == found.(events := queue.events) && sent + queue.events == found.events
    && v.log.exits == w.log.exits + Exits(sent, Delivered) && v.log.answered == w.log.answered + sent
    && Answers(server, responses) && forall i :: 0 <= i < |responses| ==> WentWell(responses[i])
  }

  lemma SendingMore(w: World, v: World, v': World, server: nat -> seq<Option<Response>>, found: Queue, queue: Queue, rest: Queue,
      sent: seq<Event>, batch: seq<Event>, responses: seq<Option<Response>>, r: Option<Response>)
    requires Sending(w, v, server, found, queue, sent, responses) && LeadsKeeping(v, v')
    requires v'.pc == Idle && v'.session == v.session && v'.local == Some(rest)
    requires rest == queue.(events := rest.events) && queue.events == batch + rest.events
    requires v'.log.exits == v.log.exits + Exits(batch, Delivered) && v'.log.answered == v.log.answered + batch
    requires AnsweredBy(server(|responses|), r) && WentWell(r)
    ensures Sending(w, v', server, found, rest, sent + batch, responses + [r])
  {
    KeepTransitive(w, v, v');
    AnswersMore(server, responses, r);
    Assoc(sent, batch, rest.events);
    Assoc(w.log.answered, sent, batch);
    DeliverMore(w.log.exits, sent, batch);
  }

  lemma RemovesNothing(w: World)
    ensures Removes(w, w, [], [])
    ensures !OwnQueue(w) ==> Flushes(w, w, FlushResult(true, 0), [], [], [])
  {
    DeliverMore(w.log.exits, [], []);
  }

  lemma SameRemoved(v: World, w: World)
    requires w.local == v.local && w.log.exits == v.log.exits
    ensures Removes(v, w, [], [])
  {
    DeliverMore(v.log.exits, [], []);
  }

  class Background {
    var session: Option<Session>  // chrome.storage.session
    var local: Option<Queue>      // chrome.storage.local
    const mortal: bool            // whether the browser may kill the worker
    ghost var pc: Pc
    ghost var log: Log

    ghost function View(): World
      reads this
    {
      World(session, local, pc, log)
    }

    constructor (mortal: bool)
      ensures Empty(View()) && this.mortal == mortal
    {
      this.mortal := mortal;
      session, local, pc, log := None, None, Idle, INIT.log;
    }

    /** Record that the storages have just taken a step from the world before. */
    ghost method Commit(start: World, before: World, s: Step)
      requires Leads(start, before) && Enabled(before, s)
      requires session == Apply(before, s).session && local == Apply(before, s).local
      modifies this`pc, this`log
      ensures View() == Apply(before, s)
      ensures Leads(start, View())
      ensures LeadsKeeping(start, before) && Spares(before, s) ==> LeadsKeeping(start, View())
    {
      pc, log := Apply(before, s).pc, Apply(before, s).log;
      LeadsStep(start, before, s);
    }

    /** nextEvent: the number is stored before the event exists anywhere else. */
    method NextEvent(loss: bool, lost: nat, id: nat, bytes: nat) returns (died: bool, e: Option<Event>)
      requires pc == Idle
      requires if loss then OwnQueue(View()) && lost == Stored(View()).dropped > 0 else lost == 0
      modifies this
      ensures died ==> mortal
      ensures LeadsKeeping(old(View()), View())
      ensures local == old(local) && log == old(log) && SameSession(session, old(session))
      ensures died ==> pc == Idle && e == None
      ensures !died && Active(old(View())) ==>
        && View() == Mint(old(View()), id, loss, lost, bytes)
        && e == Some(pc.event)
      ensures !died && !Active(old(View())) ==> View() == old(View()) && e == None
    {
      LeadsReflexive(View());
      died, e := false, None;
      if session.None? || session.value.sessionId == "" {
        return;
      }
      ghost var w := View();
      var state := session.value.(sequence := session.value.sequence + 1);
      session := Some(state);
      Commit(w, w, if loss then MintLoss(id, bytes) else MintTab(id, bytes));
      if {
        case mortal =>
          Commit(w, View(), Die);
          return true, None;
        case true =>
      }
      e := Some(Event(id, loss, Some(state.browser), Some(state.sequence), lost, bytes));
    }

    /** enqueueUnlocked, for events of the page or for the event just numbered.  flushNow is its decision
        to flush at once instead of in a second and a half. */
    method EnqueueUnlocked(events: seq<Event>) returns (died: bool, flushNow: bool)
      requires if pc.Minted? then events == [pc.event] && !pc.event.loss && Active(View())
               else pc.Idle? && forall e :: e in events ==> FromPage(e)
      modifies this
      ensures died ==> mortal
      ensures LeadsKeeping(old(View()), View()) && pc == Idle
      ensures !died ==>
        View() == if Active(old(View())) && events != [] then Push(old(View()), events) else old(View())
      ensures died ==> View() == old(View()).(pc := Idle)
      ensures flushNow <==> !died && Active(old(View())) && events != [] && |Stored(View()).events| >= 50
    {
      ghost var w := View();
      LeadsReflexive(w);
      died, flushNow := false, false;
      if session.None? || session.value.sessionId == "" || events == [] {
        return;
      }
      var queue := Enqueued(local, session.value.sessionId, events);
      if {
        case mortal =>
          Commit(w, w, Die);
          return true, false;
        case true =>
      }
      local := Some(queue);
      Commit(w, w, if w.pc.Minted? then PushMinted else PushPage(events));
      flushNow := |queue.events| >= 50;
    }

    /** tabEventUnlocked; `normal` says whether the tab could be normalized and is in a normal window. */
    method TabEventUnlocked(normal: bool, id: nat, bytes: nat) returns (died: bool)
      requires pc == Idle
      modifies this
      ensures died ==> mortal
      ensures LeadsKeeping(old(View()), View()) && pc == Idle
      ensures !died && normal && Active(old(View())) ==>
        var m := Mint(old(View()), id, false, 0, bytes);
        View() == Push(m, [m.pc.event])
      ensures !died && !(normal && Active(old(View()))) ==> View() == old(View())
      ensures !normal || old(session).None? ==> !died
      ensures SameSession(session, old(session))
    {
      ghost var w := View();
      LeadsReflexive(w);
      died := false;
      if !normal || session.None? {
        return;
      }
      var e;
      died, e := NextEvent(false, 0, id, bytes);
      if died {
        return;
      }
      ghost var m := View();
      var flushNow;
      died, flushNow := EnqueueUnlocked(if e.Some? then [e.value] else []);
      KeepTransitive(w, m, View());
    }

    /** snapshot: one tab event for each tab, (normal, id, bytes). */
    method Snapshot(tabs: seq<(bool, nat, nat)>) returns (died: bool)
      requires pc == Idle
      modifies this
      ensures died ==> mortal
      ensures LeadsKeeping(old(View()), View()) && pc == Idle
      ensures SameSession(session, old(session))
      ensures !died ==> Numbers(View()) == Numbers(old(View())) + (if Active(old(View())) then NormalTabs(tabs) else 0)
      ensures !died ==> log.accepted == old(log).accepted + SnapshotEvents(old(View()), tabs)
    {
      ghost var w := View();
      SnappingStarts(w);
      for i := 0 to |tabs|
        invariant Snapping(w, View(), tabs[..i])
      {
        ghost var m := View();
        died := TabEventUnlocked(tabs[i].0, tabs[i].1, tabs[i].2);
        if died {
          KeepTransitive(w, m, View());
          return;
        }
        SnappingMore(w, m, View(), tabs[..i], tabs[i]);
        assert tabs[..i] + [tabs[i]] == tabs[..i + 1];
      }
      assert tabs[..|tabs|] == tabs;
      died := false;
    }

    /** The first part of flushUnlocked: the drops so far go out as a loss event in front of the queue. */
    method ReportDrops(queue: Queue) returns (died: bool, reported: Queue, ghost loss: Event)
      requires pc == Idle && OwnQueue(View()) && local == Some(queue) && queue.dropped > 0
      modifies this
      ensures died ==> mortal
      ensures LeadsKeeping(old(View()), View()) && pc == Idle
      ensures SameSession(session, old(session)) && log.exits == old(log).exits && log.answered == old(log).answered
      ensures died ==> local == old(local)
      ensures !died ==>
        && loss.loss && loss.lost == queue.dropped
        && reported == queue.(events := [loss] + queue.events, dropped := 0)
        && local == Some(reported)
    {
      ghost var w := View();
      var id, bytes: nat := *, *;
      var minted;
      died, minted := NextEvent(true, queue.dropped, id, bytes);
      LeadsImplied(w, View());
      loss := Event(id, true, None, None, 0, bytes);
      reported := queue;
      if died {
        return;
      }
      if minted.Some? {
        reported := reported.(events := [minted.value] + reported.events);
      }
      reported := reported.(dropped := 0);
      if {
        case mortal =>
          Commit(w, View(), Die);
          return true, reported, loss;
        case true =>
      }
      ghost var m := View();
      loss := minted.value;
      local := Some(reported);
      Commit(w, m, Report);
    }

    /** One turn of the loop of flushUnlocked, after an ok answer: the batch leaves the stored queue. */
    method RemoveBatch(queue: Queue, batch: seq<Event>) returns (died: bool)
      requires pc == Idle && OwnQueue(View()) && local == Some(queue) && queue.dropped == 0 && queue.events != []
      requires IsBatchSize(session.value.sessionId, queue.events, |batch|) && batch == queue.events[..|batch|]
      modifies this
      ensures died ==> mortal
      ensures LeadsKeeping(old(View()), View()) && pc == Idle && session == old(session)
      ensures log.answered == old(log).answered + batch
      ensures died ==> local == old(local) && log.exits == old(log).exits
      ensures !died ==>
        && local == Some(queue.(events := queue.events[|batch|..]))
        && log.exits == old(log).exits + Exits(batch, Delivered)
    {
      ghost var w := View();
      LeadsReflexive(w);
      Commit(w, w, Answer(|batch|));
      if {
        case mortal =>
          Commit(w, View(), Die);
          return true;
        case true =>
      }
      died := false;
      ghost var m := View();
      local := Some(queue.(events := queue.events[|batch|..]));
      Commit(w, m, Remove);
    }

    /** One turn of the loop of flushUnlocked: a batch is sent; it leaves the stored queue exactly if the response
        is ok, any other response ends the session, and without a response nothing changes. */
    method SendBatch(queue: Queue, replies: seq<Option<Response>>)
      returns (died: bool, ok: bool, batch: seq<Event>, rest: Queue, response: Option<Response>)
      requires pc == Idle && OwnQueue(View()) && local == Some(queue) && queue.dropped == 0 && queue.events != []
      requires |replies| == 3
      modifies this
      ensures died ==> mortal
      ensures LeadsKeeping(old(View()), View()) && pc == Idle
      ensures AnsweredBy(replies, response)
      ensures batch != [] && rest == queue.(events := rest.events) && queue.events == batch + rest.events
      ensures !died ==> (ok <==> response.Some? && response.value.ok)
      ensures !died ==> session == if response.Some? && !response.value.ok then None else old(session)
      ensures !died && response.Some? && response.value.ok ==>
        local == Some(rest) && log.exits == old(log).exits + Exits(batch, Delivered) && log.answered == old(log).answered + batch
      ensures !died && !(response.Some? && response.value.ok) ==>
        local == old(local) && log.exits == old(log).exits && log.answered == old(log).answered
      ensures died ==> local == old(local) && session == old(session) && log.exits == old(log).exits
      ensures died && log.answered != old(log).answered ==>
        response.Some? && response.value.ok && log.answered == old(log).answered + batch
    {
      ghost var w := View();
      LeadsReflexive(w);
      batch := MakeBatch(queue, session.value.sessionId);
      rest := Unsent(queue, batch);
      var attempts;
      response, attempts := FetchWithRetries(replies);
      if {
        case mortal =>
          return true, false, batch, rest, response;
        case true =>
      }
      if response.None? || !response.value.ok {
        if response.Some? {
          session := None;
          Commit(w, w, EndSession);
        }
        return false, false, batch, rest, response;
      }
      died := RemoveBatch(queue, batch);
      ok := true;
    }

    /** The loop of flushUnlocked over a queue without unreported drops. */
    method SendAll(found: Queue, server: nat -> seq<Option<Response>>)
      returns (died: bool, ok: bool, ghost sent: seq<Event>, accepted: nat, ghost responses: seq<Option<Response>>)
      requires pc == Idle && OwnQueue(View()) && local == Some(found) && found.dropped == 0
      requires ThreeEach(server)
      modifies this
      ensures died ==> mortal
      ensures LeadsKeeping(old(View()), View()) && pc == Idle
      ensures local.Some? && local.value == found.(events := local.value.events)
      ensures sent + local.value.events == found.events && accepted == |sent|
      ensures log.exits == old(log).exits + Exits(sent, Delivered)
      ensures Answers(server, responses)
      ensures !died ==> (ok <==> forall i :: 0 <= i < |responses| ==> WentWell(responses[i]))
      ensures !died ==> (ok <==> local.value.events == [])
      ensures !died ==> log.answered == old(log).answered + sent
      ensures !died ==> session == if !ok && responses[|responses| - 1].Some? then None else old(session)
      ensures died ==> session == old(session)
    {
      ghost var w := View();
      LeadsReflexive(w);
      var queue := found;
      died, ok, sent, accepted, responses := false, true, [], 0, [];
      DeliverMore(log.exits, [], []);
      var turn := 0;
      while queue.events != []
        invariant !died && ok && accepted == |sent| && turn == |responses|
        invariant Sending(w, View(), server, found, queue, sent, responses)
        decreases |queue.events|
      {
        ghost var m := View();
        var batch, rest, response;
        died, ok, batch, rest, response := SendBatch(queue, server(turn));
        if died || !ok {
          KeepTransitive(w, m, View());
          AnswersMore(server, responses, response);
          responses := responses + [response];
          return;
        }
        SendingMore(w, m, View(), server, found, queue, rest, sent, batch, responses, response);
        turn, responses := turn + 1, responses + [response];
        queue, sent, accepted := rest, sent + batch, accepted + |batch|;
      }
    }

    /** flushUnlocked.  Whatever happens, what it removed (`sent`) is a prefix of the queue it found, behind the
        loss event it may have put in front (`report`); it says ok exactly if every response was, and then the
        session's queue is empty. */
    method FlushUnlocked(server: nat -> seq<Option<Response>>)
      returns (died: bool, r: FlushResult, ghost sent: seq<Event>, ghost report: seq<Event>, ghost responses: seq<Option<Response>>)
      requires pc == Idle && ThreeEach(server)
      modifies this
      ensures died ==> mortal
      ensures LeadsKeeping(old(View()), View()) && pc == Idle
      ensures Removes(old(View()), View(), sent, report)
      ensures Answers(server, responses)
      ensures !died ==> Flushes(old(View()), View(), r, sent, report, responses)
      ensures !OwnQueue(old(View())) ==> !died && View() == old(View())
      ensures died ==> SameSession(session, old(session))
    {
      ghost var w := View();
      LeadsReflexive(w);
      died, r, sent, report, responses := false, FlushResult(true, 0), [], [], [];
      RemovesNothing(w);
      if session.None? || session.value.sessionId == "" {
        return;
      }
      var queue := local.GetOr(NO_QUEUE);
      if queue.sessionId != Some(session.value.sessionId) {
        return;
      }
      if queue.dropped > 0 {
        ghost var loss;
        died, queue, loss := ReportDrops(queue);
        if died {
          SameRemoved(w, View());
          return;
        }
        report := [loss];
      }
      ghost var m := View();
      var ok, accepted;
      died, ok, sent, accepted, responses := SendAll(queue, server);
      r := FlushResult(ok, accepted);
      KeepTransitive(w, m, View());
    }

    /** The first branch of startUnlocked up to its snapshot: the queue of another session is removed, and the
        new session takes identity and sequence number from what is left. */
    method OpenSession(sessionId: string, uuid: nat) returns (died: bool)
      requires pc == Idle && (session.None? || session.value.sessionId != sessionId)
      requires forall e :: e in log.accepted ==> e.browser != Some(uuid)
      modifies this
      ensures died ==> mortal
      ensures Leads(old(View()), View()) && pc == Idle
      ensures old(Stored(View())).sessionId == Some(sessionId) || StoresNothing(old(View())) ==> LeadsKeeping(old(View()), View())
      ensures !died ==>
        var left := if old(Stored(View())).sessionId == Some(sessionId) then old(Stored(View())).events else [];
        session == Some(Session(sessionId, FirstBrowser(left).GetOr(uuid), MaxNumber(left)))
    {
      ghost var w := View();
      LeadsReflexive(w);
      var queue := local.GetOr(NO_QUEUE);
      var queued := if queue.sessionId == Some(sessionId) then queue.events else [];
      if queue.sessionId != Some(sessionId) {
        local := None;
        Commit(w, w, ForgetQueue);
      }
      if {
        case mortal =>
          Commit(w, View(), Die);
          return true;
        case true =>
      }
      died := false;
      ghost var m := View();
      session := Some(Session(sessionId, FirstBrowser(queued).GetOr(uuid), MaxNumber(queued)));
      Commit(w, m, Open(sessionId, uuid));
    }

    /** startUnlocked: a session that is already open is kept; otherwise identity and sequence number come
        from the leftover queue of that session, and the queue of any other session is removed. */
    method StartUnlocked(originMatches: bool, sessionId: string, uuid: nat, tabs: seq<(bool, nat, nat)>)
      returns (died: bool, r: StartResult)
      requires pc == Idle
      requires forall e :: e in log.accepted ==> e.browser != Some(uuid)
      modifies this
      ensures died ==> mortal
      ensures Leads(old(View()), View()) && pc == Idle
      ensures !originMatches ==> !died && r == OriginMismatch && View() == old(View())
      ensures originMatches && !died ==>
        && session.Some? && session.value.sessionId == sessionId
        && r == Started(session.value.browser)
        && session.value.browser ==
             if old(session).Some? && old(session).value.sessionId == sessionId then old(session).value.browser
             else if old(Stored(View())).sessionId == Some(sessionId)
                  then FirstBrowser(old(Stored(View())).events).GetOr(uuid)
             else uuid
      ensures originMatches && !died && sessionId != "" && (old(session).None? || old(session).value.sessionId != sessionId) ==>
        session.value.sequence == NormalTabs(tabs)
          + (if old(Stored(View())).sessionId == Some(sessionId) then MaxNumber(old(Stored(View())).events) else 0)
      ensures old(session).Some? && old(session).value.sessionId == sessionId ==> View() == old(View())
      ensures old(Stored(View())).sessionId == Some(sessionId) || StoresNothing(old(View())) ==> LeadsKeeping(old(View()), View())
    {
      ghost var w := View();
      LeadsReflexive(w);
      died, r := false, OriginMismatch;
      if !originMatches {
        return;
      }
      if session.None? || session.value.sessionId != sessionId {
        died := OpenSession(sessionId, uuid);
        if died {
          return;
        }
        ghost var m := View();
        died := Snapshot(tabs);
        ThenKeeping(w, m, View());
        if died {
          return;
        }
      }
      r := Started(session.value.browser);
    }

    /** The last part of stopUnlocked: the session ends, and the queue is removed on request. */
    method EndSessionUnlocked(clear: bool) returns (died: bool)
      requires pc == Idle
      modifies this
      ensures died ==> mortal
      ensures Leads(old(View()), View()) && pc == Idle
      ensures !died ==> session.None? && local == (if clear then None else old(local))
      ensures !died ==> log.exits == old(log).exits + Exits(if clear then old(Stored(View())).events else [], Abandoned)
      ensures !clear || StoresNothing(old(View())) ==> LeadsKeeping(old(View()), View())
    {
      ghost var w := View();
      LeadsReflexive(w);
      if {
        case mortal =>
          Commit(w, w, Die);
          return true;
        case true =>
      }
      session := None;
      Commit(w, w, EndSession);
      if {
        case mortal =>
          return true;
        case true =>
      }
      died := false;
      if clear {
        ghost var m := View();
        local := None;
        Commit(w, m, ForgetQueue);
      }
    }

    /** stopUnlocked: final snapshot, flush, then the session ends; the queue is removed only on request.  `before` and
        `after` are the worlds around the flush. */
    method StopUnlocked(finalSnapshot: bool, clear: bool, tabs: seq<(bool, nat, nat)>, server: nat -> seq<Option<Response>>)
      returns (died: bool, ghost before: World, ghost after: World, r: FlushResult,
               ghost sent: seq<Event>, ghost report: seq<Event>, ghost responses: seq<Option<Response>>)
      requires pc == Idle && ThreeEach(server)
      modifies this
      ensures died ==> mortal
      ensures Leads(old(View()), View()) && pc == Idle
      ensures old(session).None? ==> !died && View() == old(View())
      ensures !died ==> session.None?
      ensures !clear ==> LeadsKeeping(old(View()), View())
      ensures !died && old(session).Some? && finalSnapshot ==> before.log.accepted == old(log).accepted + SnapshotEvents(old(View()), tabs)
      ensures !died && old(session).Some? && !finalSnapshot ==> before == old(View())
      ensures !died && old(session).Some? ==> Answers(server, responses) && Removes(before, after, sent, report)
      ensures !died && old(session).Some? ==> Flushes(before, after, r, sent, report, responses)
      ensures !died && old(session).Some? ==> local == if clear then None else after.local
      ensures !died && old(session).Some? ==>
        log.exits == after.log.exits + Exits(if clear then Stored(after).events else [], Abandoned)
    {
      ghost var w := View();
      LeadsReflexive(w);
      died, before, after, r, sent, report, responses := false, w, w, FlushResult(true, 0), [], [], [];
      if session.None? {
        return;
      }
      if finalSnapshot {
        died := Snapshot(tabs);
        LeadsImplied(w, View());
        if died {
          return;
        }
      }
      before := View();
      died, r, sent, report, responses := FlushUnlocked(server);
      ThenKeeping(w, before, View());
      after := View();
      if died {
        return;
      }
      died := EndSessionUnlocked(clear);
      LeadsTransitive(w, after, View());
      if !clear {
        ThenKeeping(w, after, View());
      }
    }
  }
}
