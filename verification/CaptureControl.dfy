/**
 When the content script tracks: the asynchronous status check as a step machine.  A move is one
 uninterrupted piece of script: an event handler, the start of a check, or what a check does when one
 of its awaits resumes.  Between two moves the token, the path and the experiment state may change.
 */
module CaptureControl {
  import opened Common

  /** Experiment states; Other covers every state name the script does not list, and a missing one. */
  datatype Phase = TopicRequired | TaskRequired | InProgress | Other(name: string)

  /** Where a check is suspended. */
  datatype Point = Presence | Status | Start | Stop

  datatype PresenceReply = PresenceReply(ready: bool, state: Phase)

  datatype StatusReply = StatusReply(enabled: bool, state: Phase, sessionId: string)

  /** One activation of performStatusCheck: what it read when it began, and the replies it has got so far. */
  datatype Check = Check(at: Point, token: string, revision: nat, presence: Option<PresenceReply>, status: Option<StatusReply>)

  datatype Control = Control(
    token: Option<string>, pathAllowed: bool, runtime: bool,
    enabled: bool, attached: nat, disposed: bool,
    stateKey: Option<string>, state: Option<Phase>, revision: nat,
    running: seq<Check>,      // activations of performStatusCheck that have not finished
    statusCheck: bool         // the variable statusCheck is not null
  )

  datatype Move =
    | TokenChanges(token: Option<string>) | PathChanges(allowed: bool) | RuntimeGone
    | StateEvent(state: Phase, key: string) | StorageEvent(ofToken: bool)
    | CheckStatus
    | OnPresence(check: nat, presence: Option<PresenceReply>)
    | OnStatus(check: nat, status: Option<StatusReply>)
    | OnStarted(check: nat, ok: bool)
    | OnFailure(check: nat)
    | OnStopDone(check: nat)
    | TelemetryStopped | Disposal

  predicate Eligible(c: Control) {
    && !c.disposed && c.pathAllowed
    && (c.state.None? || !c.state.value.Other?)
  }

  predicate HasToken(c: Control) {
    c.token.Some? && c.token.value != ""
  }

  predicate Current(c: Control, k: Check) {
    Eligible(c) && c.revision == k.revision && c.token == Some(k.token)
  }

  /** The part of stop that runs before its first await. */
  function StopNow(c: Control): Control {
    c.(enabled := false, attached := if c.enabled then 0 else c.attached)
  }

  function Dispose(c: Control): Control {
    c.(disposed := true, attached := 0)
  }

  function End(c: Control, i: nat): Control
    requires i < |c.running|
  {
    c.(running := c.running[..i] + c.running[i + 1..], statusCheck := false)
  }

  /** Check i is suspended as k. */
  function Await(c: Control, i: nat, k: Check): Control
    requires i < |c.running|
  {
    c.(running := c.running[i := k])
  }

  /** `if (enabled) await stop(...)`, then the end of the check. */
  function StopOrEnd(c: Control, i: nat): Control
    requires i < |c.running|
  {
    if c.enabled then Await(StopNow(c), i, c.running[i].(at := Stop)) else End(c, i)
  }

  predicate Suspended(c: Control, i: nat, at: Point) {
    i < |c.running| && c.running[i].at == at
  }

  predicate Possible(c: Control, m: Move) {
    match m
    case OnPresence(i, _) => Suspended(c, i, Presence)
    case OnStatus(i, _) => Suspended(c, i, Status)
    case OnStarted(i, _) => Suspended(c, i, Start)
    case OnFailure(i) => i < |c.running| && c.running[i].at != Stop
    case OnStopDone(i) => Suspended(c, i, Stop)
    case _ => true
  }

  function Next(c: Control, m: Move): Control
    requires Possible(c, m)
  {
    match m
    case TokenChanges(token) => c.(token := token)
    case PathChanges(allowed) => c.(pathAllowed := allowed)
    case RuntimeGone => c.(runtime := false)
    case StateEvent(state, key) =>
      if c.disposed || c.stateKey == Some(key) then c else
        var d := c.(stateKey := Some(key), state := Some(state), revision := c.revision + 1);
        if !Eligible(d) && d.enabled then StopNow(d) else d
    case StorageEvent(ofToken) =>
      if c.disposed || !ofToken then c else c.(revision := c.revision + 1)
    case CheckStatus =>
      if c.disposed || c.statusCheck then c
      else if !HasToken(c) || !Eligible(c) then
        if c.enabled
        then StopNow(c).(running := c.running + [Check(Stop, "", c.revision, None, None)], statusCheck := true)
        else c
      else if !c.runtime then Dispose(c)
      else c.(running := c.running + [Check(Presence, c.token.value, c.revision, None, None)], statusCheck := true)
    case OnPresence(i, presence) =>
      if !Current(c, c.running[i]) then End(c, i)
      else if presence.None? || !presence.value.ready || presence.value.state != InProgress then StopOrEnd(c, i)
      else Await(c, i, c.running[i].(at := Status, presence := presence))
    case OnStatus(i, status) =>
      if !Current(c, c.running[i]) then End(c, i)
      else if status.None? || !status.value.enabled || status.value.state != InProgress
              || status.value.sessionId == "" then StopOrEnd(c, i)
      else Await(c, i, c.running[i].(at := Start, status := status))
    case OnStarted(i, ok) =>
      if !Current(c, c.running[i]) then
        if c.disposed then End(c, i) else Await(StopNow(c), i, c.running[i].(at := Stop))
      else if !ok || c.enabled then End(c, i)
      else End(c.(enabled := true, attached := c.attached + 1), i)
    case OnFailure(i) => End(if c.runtime then c else Dispose(c), i)
    case OnStopDone(i) => End(c, i)
    case TelemetryStopped => StopNow(c)
    case Disposal => Dispose(c)
  }

  predicate Moves(c: Control, moves: seq<Move>)
    decreases |moves|
  {
    moves == [] || (Possible(c, moves[0]) && Moves(Next(c, moves[0]), moves[1..]))
  }

  function After(c: Control, moves: seq<Move>): Control
    requires Moves(c, moves)
    decreases |moves|
  {
    if moves == [] then c else After(Next(c, moves[0]), moves[1..])
  }

  // ---------------------------------------------------------------- what every run keeps

  /** Listeners are attached once while enabled and never otherwise, until dispose removes them for good;
      a check runs exactly while statusCheck says so; no check is from the future. */
  predicate Consistent(c: Control) {
    && c.attached == (if c.enabled && !c.disposed then 1 else 0)
    && |c.running| == (if c.statusCheck then 1 else 0)
    && forall k :: k in c.running ==> k.revision <= c.revision
  }

  predicate Fresh(c: Control) {
    !c.enabled && !c.disposed && c.attached == 0 && c.running == [] && !c.statusCheck
  }

  lemma StepKeepsConsistent(c: Control, m: Move)
    requires Consistent(c) && Possible(c, m)
    ensures Consistent(Next(c, m))
  {
    match m
    case OnPresence(i, _) => EndKeepsConsistent(c, i);
    case OnStatus(i, _) => EndKeepsConsistent(c, i);
    case OnStarted(i, _) => EndKeepsConsistent(c, i);
    case OnFailure(i) => EndKeepsConsistent(c, i);
    case OnStopDone(i) => EndKeepsConsistent(c, i);
    case _ =>
  }

  lemma EndKeepsConsistent(c: Control, i: nat)
    requires Consistent(c) && i < |c.running|
    ensures c.running[..i] + c.running[i + 1..] == [] && c.statusCheck && i == 0
    ensures Consistent(End(c, i)) && Consistent(StopNow(c)) && Consistent(Dispose(c))
  {
  }

  lemma AwaitKeepsConsistent(c: Control, i: nat, k: Check)
    requires Consistent(c) && i < |c.running| && k.revision <= c.revision
    ensures Consistent(Await(c, i, k))
  {
  }

  lemma {:induction false} EveryRunConsistent(c: Control, moves: seq<Move>)
    requires Consistent(c) && Moves(c, moves)
    ensures Consistent(After(c, moves))
    decreases |moves|
  {
    if moves != [] {
      StepKeepsConsistent(c, moves[0]);
      EveryRunConsistent(Next(c, moves[0]), moves[1..]);
    }
  }

  /** From a fresh script: never two sets of listeners, never two checks, and no listener after dispose. */
  lemma ListenersFollowEnabled(c: Control, moves: seq<Move>)
    requires Fresh(c) && Moves(c, moves)
    ensures var d := After(c, moves);
      d.attached == (if d.enabled && !d.disposed then 1 else 0) && |d.running| <= 1
  {
    EveryRunConsistent(c, moves);
  }

  // ---------------------------------------------------------------- when tracking begins and ends

  /** The only move that starts tracking is the reply to session-start of a check that at this very moment is
      current: eligible page, and the revision and token with which the check began. */
  lemma EnabledOnlyByCurrentCheck(c: Control, m: Move)
    requires Possible(c, m) && !c.enabled
    ensures Next(c, m).enabled <==>
      && m.OnStarted? && m.ok && c.running[m.check].at == Start
      && !c.disposed && c.pathAllowed && c.state in {None, Some(TopicRequired), Some(TaskRequired), Some(InProgress)}
      && c.revision == c.running[m.check].revision && c.token == Some(c.running[m.check].token)
  {
    PhaseIsListed(c.state);
  }

  lemma PhaseIsListed(state: Option<Phase>)
    ensures state in {None, Some(TopicRequired), Some(TaskRequired), Some(InProgress)} <==> !(state.Some? && state.value.Other?)
  {
  }

  /** An eligible page and a token. */
  predicate FitToTrack(c: Control) {
    && c.pathAllowed && c.state in {None, Some(TopicRequired), Some(TaskRequired), Some(InProgress)}
    && c.token.GetOr("") != ""
  }

  /** The session can be tracked. */
  ghost predicate GoodStatus(status: Option<StatusReply>) {
    exists id :: status == Some(StatusReply(true, InProgress, id)) && id != ""
  }

  lemma GoodStatusMeans(status: Option<StatusReply>)
    ensures GoodStatus(status) <==>
      status.Some? && status.value.enabled && status.value.state == InProgress && status.value.sessionId != ""
  {
    if status.Some? && status.value.enabled && status.value.state == InProgress && status.value.sessionId != "" {
      assert status == Some(StatusReply(true, InProgress, status.value.sessionId));
    }
  }

  /** Tracking ends exactly when the page loses its eligibility by a state event, a new check finds no token or no
      eligible page, the current check gets a reply that is not good, the reply to session-start comes too late
      for a script not disposed, or the service worker stops it. */
  lemma DisabledExactly(c: Control, m: Move)
    requires Possible(c, m) && c.enabled
    ensures m.StateEvent? ==>
      (Next(c, m).enabled <==> c.disposed || c.stateKey == Some(m.key) || (c.pathAllowed && !m.state.Other?))
    ensures m.CheckStatus? ==> (Next(c, m).enabled <==> c.disposed || c.statusCheck || FitToTrack(c))
    ensures m.OnPresence? ==>
      (Next(c, m).enabled <==> !Current(c, c.running[m.check]) || m.presence == Some(PresenceReply(true, InProgress)))
    ensures m.OnStatus? ==> (Next(c, m).enabled <==> !Current(c, c.running[m.check]) || GoodStatus(m.status))
    ensures m.OnStarted? ==> (Next(c, m).enabled <==> Current(c, c.running[m.check]) || c.disposed)
    ensures m.TelemetryStopped? ==> !Next(c, m).enabled
    ensures m.TokenChanges? || m.PathChanges? || m.RuntimeGone? || m.StorageEvent? || m.OnFailure? || m.OnStopDone? || m.Disposal? ==>
      Next(c, m).enabled
  {
    PhaseIsListed(c.state);
    if m.OnStatus? { GoodStatusMeans(m.status); }
  }

  /** A check past its first await has got a good heartbeat, one past the second a good status as well. */
  ghost predicate WellInformed(k: Check) {
    && (k.at == Status || k.at == Start ==> k.presence == Some(PresenceReply(true, InProgress)))
    && (k.at == Start ==> GoodStatus(k.status))
  }

  ghost predicate Informed(c: Control) {
    forall k :: k in c.running ==> WellInformed(k)
  }

  lemma EndKeepsInformed(c: Control, i: nat)
    requires Informed(c) && i < |c.running|
    ensures Informed(End(c, i)) && Informed(StopNow(c)) && Informed(Dispose(c))
    ensures Informed(End(c.(enabled := true, attached := c.attached + 1), i)) && Informed(End(Dispose(c), i))
    ensures Informed(Await(StopNow(c), i, c.running[i].(at := Stop)))
  {
  }

  lemma AwaitKeepsInformed(c: Control, i: nat, k: Check)
    requires Informed(c) && i < |c.running| && WellInformed(k)
    ensures Informed(Await(c, i, k))
  {
  }

  lemma StepKeepsInformed(c: Control, m: Move)
    requires Informed(c) && Possible(c, m)
    ensures Informed(Next(c, m))
  {
    match m
    case OnPresence(i, presence) =>
      EndKeepsInformed(c, i);
      assert c.running[i] in c.running;
      var k := c.running[i].(at := Status, presence := presence);
      if presence == Some(PresenceReply(true, InProgress)) { AwaitKeepsInformed(c, i, k); }
    case OnStatus(i, status) =>
      EndKeepsInformed(c, i);
      assert c.running[i] in c.running;
      var k := c.running[i].(at := Start, status := status);
      GoodStatusMeans(status);
      if GoodStatus(status) { AwaitKeepsInformed(c, i, k); }
    case OnStarted(i, _) => EndKeepsInformed(c, i);
    case OnFailure(i) => EndKeepsInformed(c, i);
    case OnStopDone(i) => EndKeepsInformed(c, i);
    case _ =>
  }

  /** What a check has recorded are the replies it got: a move only adds the reply that it brings. */
  lemma RecordsAreReplies(c: Control, m: Move)
    requires Consistent(c) && Possible(c, m) && c.running != [] && Next(c, m).running != []
    ensures
      var k, k' := c.running[0], Next(c, m).running[0];
      && k'.token == k.token && k'.revision == k.revision
      && k'.presence == (if m.OnPresence? && k'.at == Status then m.presence else k.presence)
      && k'.status == (if m.OnStatus? && k'.at == Start then m.status else k.status)
  {
    EndKeepsConsistent(c, 0);
    var k := c.running[0];
    assert c.running[0 := k.(at := Stop)][0] == k.(at := Stop);
    if m.OnPresence? {
      assert c.running[0 := k.(at := Status, presence := m.presence)][0] == k.(at := Status, presence := m.presence);
    } else if m.OnStatus? {
      assert c.running[0 := k.(at := Start, status := m.status)][0] == k.(at := Start, status := m.status);
    }
  }

  /** A check that begins has no replies, and reads the token and the revision of this moment. */
  lemma NewCheckKnowsNothing(c: Control, m: Move)
    requires Possible(c, m) && c.running == [] && Next(c, m).running != []
    ensures
      var k := Next(c, m).running[0];
      k.presence == None && k.status == None && k.revision == c.revision && (k.at == Stop || (k.at == Presence && c.token == Some(k.token)))
  {
  }

  lemma {:induction false} EveryRunInformed(c: Control, moves: seq<Move>)
    requires Informed(c) && Moves(c, moves)
    ensures Informed(After(c, moves))
    decreases |moves|
  {
    if moves != [] {
      StepKeepsInformed(c, moves[0]);
      EveryRunInformed(Next(c, moves[0]), moves[1..]);
    }
  }

  /** Over every run of a fresh script: tracking begins only if the check in flight got a heartbeat that is ready and
      in progress and a status that is enabled, in progress and names a session. */
  lemma EnabledOnlyByGoodReplies(c: Control, moves: seq<Move>, m: Move)
    requires Fresh(c) && Moves(c, moves) && Possible(After(c, moves), m)
    requires !After(c, moves).enabled && Next(After(c, moves), m).enabled
    ensures m.OnStarted? && m.ok
    ensures After(c, moves).running[m.check].presence == Some(PresenceReply(true, InProgress))
    ensures GoodStatus(After(c, moves).running[m.check].status)
  {
    EveryRunInformed(c, moves);
    assert After(c, moves).running[m.check] in After(c, moves).running;
    EnabledOnlyByCurrentCheck(After(c, moves), m);
  }

  lemma AfterTwo(c: Control, m: Move, last: Move)
    requires Possible(c, m) && Possible(Next(c, m), last)
    ensures Moves(c, [m, last]) && After(c, [m, last]) == Next(Next(c, m), last)
  {
    var d := Next(c, m);
    assert [m, last][1..] == [last] && [last][1..] == [];
    assert Moves(Next(d, last), []) && Moves(d, [last]) && After(d, [last]) == Next(d, last);
  }

  lemma AfterFour(c: Control, m1: Move, m2: Move, m3: Move, m4: Move)
    requires Possible(c, m1) && Possible(Next(c, m1), m2)
    requires Moves(Next(Next(c, m1), m2), [m3, m4])
    ensures Moves(c, [m1, m2, m3, m4]) && After(c, [m1, m2, m3, m4]) == After(Next(Next(c, m1), m2), [m3, m4])
  {
    assert [m1, m2, m3, m4][1..] == [m2, m3, m4] && [m2, m3, m4][1..] == [m3, m4];
    assert Moves(Next(c, m1), [m2, m3, m4]);
  }

  /** And then it does begin: a check on an eligible page with a token that gets good replies to its heartbeat, its
      status request and session-start ends with tracking on and one set of listeners. */
  lemma GoodRepliesStartTracking(c: Control, sessionId: string)
    requires Fresh(c) && FitToTrack(c) && c.runtime && sessionId != ""
    ensures
      var moves := [CheckStatus, OnPresence(0, Some(PresenceReply(true, InProgress))),
                    OnStatus(0, Some(StatusReply(true, InProgress, sessionId))), OnStarted(0, true)];
      && Moves(c, moves)
      && After(c, moves) == c.(enabled := true, attached := 1)
  {
    var presence, status := PresenceReply(true, InProgress), StatusReply(true, InProgress, sessionId);
    var k := Check(Status, c.token.value, c.revision, Some(presence), None);
    BeginAndHear(c, presence);
    var d := c.(running := [k], statusCheck := true);
    HearAndStart(d, k, status);
    AfterFour(c, CheckStatus, OnPresence(0, Some(presence)), OnStatus(0, Some(status)), OnStarted(0, true));
  }

  lemma BeginAndHear(c: Control, presence: PresenceReply)
    requires Fresh(c) && FitToTrack(c) && c.runtime && presence == PresenceReply(true, InProgress)
    ensures
      var k := Check(Presence, c.token.value, c.revision, None, None);
      && Next(c, CheckStatus) == c.(running := [k], statusCheck := true)
      && Next(c.(running := [k], statusCheck := true), OnPresence(0, Some(presence)))
         == c.(running := [k.(at := Status, presence := Some(presence))], statusCheck := true)
  {
    assert c.running + [Check(Presence, c.token.value, c.revision, None, None)] == [Check(Presence, c.token.value, c.revision, None, None)];
  }

  lemma HearAndStart(c: Control, k: Check, status: StatusReply)
    requires !c.enabled && c.attached == 0 && c.running == [k] && k.at == Status && Current(c, k)
    requires status.enabled && status.state == InProgress && status.sessionId != ""
    ensures Moves(c, [OnStatus(0, Some(status)), OnStarted(0, true)])
    ensures After(c, [OnStatus(0, Some(status)), OnStarted(0, true)])
         == c.(enabled := true, attached := 1, running := [], statusCheck := false)
  {
    var d := c.(running := [k.(at := Start, status := Some(status))]);
    assert Next(c, OnStatus(0, Some(status))) == d;
    assert d.running[..0] + d.running[1..] == [];
    AfterTwo(c, OnStatus(0, Some(status)), OnStarted(0, true));
  }

  /** A current check whose reply is not good leaves tracking off; it ends, or first waits for stop to finish. */
  lemma BadRepliesStopTracking(c: Control, m: Move)
    requires Consistent(c) && Possible(c, m) && (m.OnPresence? || m.OnStatus?) && Current(c, c.running[m.check])
    requires m.OnPresence? ==> m.presence.None? || !m.presence.value.ready || m.presence.value.state != InProgress
    requires m.OnStatus? ==>
      m.status.None? || !m.status.value.enabled || m.status.value.state != InProgress || m.status.value.sessionId == ""
    ensures !Next(c, m).enabled && Next(c, m).attached == 0
    ensures if c.enabled then Suspended(Next(c, m), 0, Stop) else Next(c, m).running == []
  {
    EndKeepsConsistent(c, m.check);
  }

  /** A check that is no longer current ends at its next reply without a change of tracking; only after session-start
      does it first stop, unless the script is disposed. */
  lemma LateRepliesEndTheCheck(c: Control, m: Move)
    requires Consistent(c) && Possible(c, m) && (m.OnPresence? || m.OnStatus? || m.OnStarted?)
    requires !Current(c, c.running[m.check])
    ensures !m.OnStarted? || c.disposed ==> Next(c, m) == c.(running := [], statusCheck := false)
    ensures m.OnStarted? && !c.disposed ==> !Next(c, m).enabled && Next(c, m).attached == 0 && Suspended(Next(c, m), 0, Stop)
  {
    EndKeepsConsistent(c, m.check);
  }

  /** A check begins exactly if none runs and there is something to do: requests to make on an eligible page with a
      token, or tracking to stop on any other. */
  lemma BeginsExactly(c: Control, m: Move)
    requires Consistent(c) && Possible(c, m) && c.running == []
    ensures Next(c, m).running != [] <==> m.CheckStatus? && !c.disposed && (if FitToTrack(c) then c.runtime else c.enabled)
  {
    PhaseIsListed(c.state);
  }

  /** The script is disposed exactly on request, or when a new or a failed check finds the runtime gone. */
  lemma DisposedExactly(c: Control, m: Move)
    requires Possible(c, m) && !c.disposed
    ensures Next(c, m).disposed <==>
      || m.Disposal?
      || (m.OnFailure? && !c.runtime)
      || (m.CheckStatus? && !c.runtime && !c.statusCheck && FitToTrack(c))
  {
    PhaseIsListed(c.state);
  }

  /** A state event that repeats its key changes nothing any more. */
  lemma StateEventOnce(c: Control, first: Phase, again: Phase, key: string)
    ensures Next(Next(c, StateEvent(first, key)), StateEvent(again, key)) == Next(c, StateEvent(first, key))
  {
  }

  /** Moves that change what a check relied on. */
  predicate Invalidates(c: Control, m: Move) {
    || (m.StateEvent? && !c.disposed && c.stateKey != Some(m.key))
    || (m.StorageEvent? && !c.disposed && m.ofToken)
  }

  /** The revision counts these moves. */
  lemma RevisionCounts(c: Control, m: Move)
    requires Possible(c, m)
    ensures Next(c, m).revision == c.revision + if Invalidates(c, m) then 1 else 0
  {
    match m
    case StateEvent(_, _) =>
    case StorageEvent(_) =>
    case _ => assert Next(c, m).revision == c.revision;
  }

  /** What the script reads from its page changes only by the move that says so. */
  lemma ReadsChangeOnly(c: Control, m: Move)
    requires Possible(c, m)
    ensures Next(c, m).token == if m.TokenChanges? then m.token else c.token
    ensures Next(c, m).pathAllowed == if m.PathChanges? then m.allowed else c.pathAllowed
    ensures Next(c, m).runtime == (c.runtime && m != RuntimeGone)
    ensures m.StateEvent? && Invalidates(c, m) ==> Next(c, m).state == Some(m.state) && Next(c, m).stateKey == Some(m.key)
    ensures !(m.StateEvent? && Invalidates(c, m)) ==> Next(c, m).state == c.state && Next(c, m).stateKey == c.stateKey
  {
    var d := Next(c, m);
    match m
    case TokenChanges(token) => assert d == c.(token := token);
    case PathChanges(allowed) => assert d == c.(pathAllowed := allowed);
    case RuntimeGone => assert d == c.(runtime := false);
    case StateEvent(state, key) => assert d.token == c.token;
    case _ => assert SameReads(c, d);
  }

  predicate SameReads(c: Control, d: Control) {
    && d.token == c.token && d.pathAllowed == c.pathAllowed && d.runtime == c.runtime
    && d.state == c.state && d.stateKey == c.stateKey
  }

  /** A failed request ends its check, whichever it was, and changes nothing else unless the runtime is gone. */
  lemma FailureEndsTheCheck(c: Control, i: nat)
    requires Consistent(c) && i < |c.running| && c.running[i].at in {Presence, Status, Start}
    ensures Possible(c, OnFailure(i))
    ensures Next(c, OnFailure(i)) == (if c.runtime then c else Dispose(c)).(running := [], statusCheck := false)
  {
    EndKeepsConsistent(c, i);
  }

  /** Tracking is off and every check in flight began before the last state or token event. */
  predicate Overtaken(c: Control) {
    !c.enabled && forall k :: k in c.running ==> k.revision < c.revision
  }

  lemma StepKeepsOvertaken(c: Control, m: Move)
    requires Overtaken(c) && Possible(c, m) && m != CheckStatus
    ensures Overtaken(Next(c, m))
  {
  }

  /** A check overtaken by a state or token event can no longer start tracking, whatever happens next and
      however late its replies come: tracking stays off until another check begins. */
  lemma {:induction false} OvertakenCheckNeverEnables(c: Control, moves: seq<Move>)
    requires Overtaken(c) && Moves(c, moves) && CheckStatus !in moves
    ensures !After(c, moves).enabled
    decreases |moves|
  {
    if moves != [] {
      StepKeepsOvertaken(c, moves[0]);
      OvertakenCheckNeverEnables(Next(c, moves[0]), moves[1..]);
    }
  }

  /** The event itself: if tracking is off when the state or the token changes, no check that is then in
      flight will ever turn it on. */
  lemma InvalidationStopsRunningChecks(c: Control, m: Move, moves: seq<Move>)
    requires Consistent(c) && Invalidates(c, m) && !c.enabled
    requires Moves(Next(c, m), moves) && CheckStatus !in moves
    ensures !After(Next(c, m), moves).enabled
  {
    OvertakenCheckNeverEnables(Next(c, m), moves);
  }
}
