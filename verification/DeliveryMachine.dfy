/**
 The telemetry delivery protocol as a step machine over the two storages of the extension.

 A step is one storage write of the service worker, one ok answer of the server, the death of the
 worker (session and local storage survive) or the loss of session storage (browser restart, or the
 worker ending the session).  Jobs never overlap (module SerialChain), so at most one event has a
 number but is not stored yet, or one answered batch is not removed yet: that is the program
 counter `pc`, which a dying worker forgets.
 */
module DeliveryMachine {
  import opened Common
  import opened DeliveryQueue

  datatype Session = Session(sessionId: string, browser: nat, sequence: nat)

  datatype Pc =
    | Idle
    | Minted(event: Event)      // nextEvent has stored the number, the event is still in memory
    | Answered(count: nat)      // the server said ok, the batch is not yet cut from the stored queue

  datatype Fate = Delivered | Dropped | Abandoned

  datatype Exit = Exit(event: Event, fate: Fate)

  /** History: what was accepted into the queue (in order), what left it (in order, with its fate), what
      was in a batch answered ok, the drop counts thrown away with a queue, and whether every session
      reopened over a leftover queue could recover its sequence number. */
  datatype Log = Log(accepted: seq<Event>, exits: seq<Exit>, answered: seq<Event>, forgotten: nat, sound: bool)

  datatype World = World(session: Option<Session>, local: Option<Queue>, pc: Pc, log: Log)

  const INIT := World(None, None, Idle, Log([], [], [], 0, true))

  datatype Step =
    | MintTab(id: nat, bytes: nat)              // nextEvent for a tab or window event
    | MintLoss(id: nat, bytes: nat)             // nextEvent for telemetry_loss, in flushUnlocked
    | PushMinted                                // enqueueUnlocked of a numbered event
    | PushPage(events: seq<Event>)              // enqueueUnlocked of events sent by the page
    | Report                                    // flushUnlocked stores the queue with the loss event in front
    | Answer(count: nat)                        // the server answered ok to a batch
    | Remove                                    // flushUnlocked stores the queue without the batch
    | Die                                       // the worker is killed
    | EndSession                                // session storage is emptied
    | ForgetQueue                               // the stored queue is removed
    | Open(sessionId: string, uuid: nat)       // startUnlocked stores a new session

  // ---------------------------------------------------------------- state functions

  function Stored(w: World): Queue {
    w.local.GetOr(NO_QUEUE)
  }

  /** A session with a non-empty id (getState()?.sessionId is tested for truth). */
  predicate Active(w: World) {
    w.session.Some? && w.session.value.sessionId != ""
  }

  predicate OwnQueue(w: World) {
    Active(w) && Stored(w).sessionId == Some(w.session.value.sessionId)
  }

  /** What content.js sends: never a loss event, never numbered. */
  predicate FromPage(e: Event) {
    !e.loss && e.browser == None && e.number == None && e.lost == 0
  }

  predicate NumberedUnder(e: Event, browser: nat) {
    e.browser == Some(browser) && e.number.Some?
  }

  function Exits(events: seq<Event>, fate: Fate): (r: seq<Exit>)
    ensures |r| == |events|
  {
    seq(|events|, i requires 0 <= i < |events| => Exit(events[i], fate))
  }

  function Gone(exits: seq<Exit>): (r: seq<Event>)
    ensures |r| == |exits|
  {
    seq(|exits|, i requires 0 <= i < |exits| => exits[i].event)
  }

  /** The largest sequence number among the events, 0 if there is none. */
  function MaxNumber(events: seq<Event>): nat {
    if events == [] then 0 else
      var rest := MaxNumber(events[1..]);
      var first := events[0].number.GetOr(0);
      if first > rest then first else rest
  }

  /** The browser session id of the first event that carries one. */
  function FirstBrowser(events: seq<Event>): Option<nat> {
    if events == [] then None
    else if events[0].browser.Some? then events[0].browser
    else FirstBrowser(events[1..])
  }

  /** The stored queue after pushing events for a session: the queue of another session is discarded first. */
  function Pushed(q: Queue, sessionId: string, events: seq<Event>): Queue {
    var own := if q.sessionId == Some(sessionId) then q else Queue(Some(sessionId), [], 0);
    own.(events := own.events + events)
  }

  function Trimmed(q: Queue): Queue {
    q.(events := q.events[TrimCount(q)..], dropped := q.dropped + TrimCount(q))
  }

  function Push(w: World, events: seq<Event>): World
    requires Active(w)
  {
    var q := Stored(w);
    var own := q.sessionId == Some(w.session.value.sessionId);
    var full := Pushed(q, w.session.value.sessionId, events);
    var abandoned := if own then [] else Exits(q.events, Abandoned);
    w.(local := Some(Trimmed(full)), pc := Idle,
       log := w.log.(accepted := w.log.accepted + events,
                     exits := w.log.exits + abandoned + Exits(full.events[..TrimCount(full)], Dropped),
                     forgotten := w.log.forgotten + if own then 0 else q.dropped))
  }

  /** Reopening a session over its leftover queue is safe if no telemetry_loss event accepted under
      the recovered browser session id has a larger number than the queue still shows. */
  ghost predicate RecoverySafe(w: World) {
    var found := FirstBrowser(Stored(w).events);
    forall e :: e in w.log.accepted && e.loss && found.Some? && NumberedUnder(e, found.value)
      ==> e.number.value <= MaxNumber(Stored(w).events)
  }

  // ---------------------------------------------------------------- transitions

  ghost predicate Enabled(w: World, s: Step) {
    match s
    case MintTab(_, _) => w.pc.Idle? && Active(w)
    case MintLoss(_, _) => w.pc.Idle? && OwnQueue(w) && Stored(w).dropped > 0
    case PushMinted => w.pc.Minted? && !w.pc.event.loss && Active(w)
    case PushPage(events) => w.pc.Idle? && Active(w) && events != [] && forall e :: e in events ==> FromPage(e)
    case Report => w.pc.Minted? && w.pc.event.loss
    case Answer(n) =>
      && w.pc.Idle? && OwnQueue(w) && Stored(w).dropped == 0 && Stored(w).events != []
      && IsBatchSize(w.session.value.sessionId, Stored(w).events, n)
    case Remove => w.pc.Answered? && w.pc.count <= |Stored(w).events|
    case Die => true
    case EndSession => true
    case ForgetQueue => w.pc.Idle?
    case Open(sessionId, uuid) =>
      && w.pc.Idle?
      && (w.session.Some? ==> w.session.value.sessionId != sessionId)
      && (w.local.Some? ==> w.local.value.sessionId == Some(sessionId))
      && forall e :: e in w.log.accepted ==> e.browser != Some(uuid)
  }

  function Mint(w: World, id: nat, loss: bool, lost: nat, bytes: nat): World
    requires w.session.Some?
  {
    var s := w.session.value.(sequence := w.session.value.sequence + 1);
    w.(session := Some(s), pc := Minted(Event(id, loss, Some(s.browser), Some(s.sequence), lost, bytes)))
  }

  ghost function Apply(w: World, s: Step): World
    requires Enabled(w, s)
  {
    var q := Stored(w);
    match s
    case MintTab(id, bytes) => Mint(w, id, false, 0, bytes)
    case MintLoss(id, bytes) => Mint(w, id, true, q.dropped, bytes)
    case PushMinted => Push(w, [w.pc.event])
    case PushPage(events) => Push(w, events)
    case Report =>
      w.(local := Some(q.(events := [w.pc.event] + q.events, dropped := 0)), pc := Idle,
         log := w.log.(accepted := w.log.accepted + [w.pc.event]))
    case Answer(n) =>
      w.(pc := Answered(n), log := w.log.(answered := w.log.answered + q.events[..n]))
    case Remove =>
      w.(local := Some(q.(events := q.events[w.pc.count..])), pc := Idle,
         log := w.log.(exits := w.log.exits + Exits(q.events[..w.pc.count], Delivered)))
    case Die => w.(pc := Idle)
    case EndSession => w.(session := None, pc := Idle)
    case ForgetQueue =>
      w.(local := None,
         log := w.log.(exits := w.log.exits + Exits(q.events, Abandoned), forgotten := w.log.forgotten + q.dropped))
    case Open(sessionId, uuid) =>
      w.(session := Some(Session(sessionId, FirstBrowser(q.events).GetOr(uuid), MaxNumber(q.events))),
         log := w.log.(sound := w.log.sound && RecoverySafe(w)))
  }

  ghost predicate Valid(w: World, steps: seq<Step>)
    decreases |steps|
  {
    steps == [] || (Enabled(w, steps[0]) && Valid(Apply(w, steps[0]), steps[1..]))
  }

  ghost function Run(w: World, steps: seq<Step>): World
    requires Valid(w, steps)
    decreases |steps|
  {
    if steps == [] then w else Run(Apply(w, steps[0]), steps[1..])
  }

  /** Some run leads from v to w. */
  ghost predicate Leads(v: World, w: World) {
    exists steps :: Valid(v, steps) && Run(v, steps) == w
  }

  /** Nothing would be lost with the stored queue: it has no events and no unreported drops. */
  predicate StoresNothing(w: World) {
    Stored(w).events == [] && Stored(w).dropped == 0
  }

  predicate Spares(w: World, s: Step) {
    s == ForgetQueue ==> StoresNothing(w)
  }

  /** A run in which the stored queue is only ever removed while it holds nothing, as startUnlocked does
      when nothing is stored. */
  ghost predicate Sparing(w: World, steps: seq<Step>)
    requires Valid(w, steps)
    decreases |steps|
  {
    steps == [] || (Spares(w, steps[0]) && Sparing(Apply(w, steps[0]), steps[1..]))
  }

  /** Some such run leads from v to w. */
  ghost predicate LeadsKeeping(v: World, w: World) {
    exists steps :: Valid(v, steps) && Sparing(v, steps) && Run(v, steps) == w
  }

  lemma {:induction false} RunConcat(w: World, a: seq<Step>, b: seq<Step>)
    requires Valid(w, a) && Valid(Run(w, a), b)
    ensures Valid(w, a + b) && Run(w, a + b) == Run(Run(w, a), b)
    ensures Sparing(w, a + b) <==> Sparing(w, a) && Sparing(Run(w, a), b)
    decreases |a|
  {
    if a == [] {
      assert a + b == b;
    } else {
      RunConcat(Apply(w, a[0]), a[1..], b);
      assert (a + b)[1..] == a[1..] + b;
    }
  }

  lemma RunOne(w: World, s: Step)
    requires Enabled(w, s)
    ensures Valid(w, [s]) && Run(w, [s]) == Apply(w, s) && (Sparing(w, [s]) <==> Spares(w, s))
  {
  }

  lemma LeadsReflexive(w: World)
    ensures Leads(w, w) && LeadsKeeping(w, w)
  {
    assert Valid(w, []) && Sparing(w, []) && Run(w, []) == w;
  }

  lemma LeadsTransitive(u: World, v: World, w: World)
    requires Leads(u, v) && Leads(v, w)
    ensures Leads(u, w)
  {
    var a :| Valid(u, a) && Run(u, a) == v;
    var b :| Valid(v, b) && Run(v, b) == w;
    RunConcat(u, a, b);
  }

  lemma LeadsImplied(v: World, w: World)
    requires LeadsKeeping(v, w)
    ensures Leads(v, w)
  {
  }

  lemma KeepTransitive(u: World, v: World, w: World)
    requires LeadsKeeping(u, v) && LeadsKeeping(v, w)
    ensures LeadsKeeping(u, w)
  {
    var a :| Valid(u, a) && Sparing(u, a) && Run(u, a) == v;
    var b :| Valid(v, b) && Sparing(v, b) && Run(v, b) == w;
    RunConcat(u, a, b);
  }

  lemma ThenKeeping(u: World, v: World, w: World)
    requires Leads(u, v) && LeadsKeeping(v, w)
    ensures Leads(u, w)
    ensures LeadsKeeping(u, v) ==> LeadsKeeping(u, w)
  {
    LeadsImplied(v, w);
    LeadsTransitive(u, v, w);
    if LeadsKeeping(u, v) {
      KeepTransitive(u, v, w);
    }
  }

  lemma LeadsStep(v: World, w: World, s: Step)
    requires Leads(v, w) && Enabled(w, s)
    ensures Leads(v, Apply(w, s))
    ensures LeadsKeeping(v, w) && Spares(w, s) ==> LeadsKeeping(v, Apply(w, s))
  {
    RunOne(w, s);
    LeadsTransitive(v, w, Apply(w, s));
    if LeadsKeeping(v, w) && Spares(w, s) {
      KeepTransitive(v, w, Apply(w, s));
    }
  }
}
