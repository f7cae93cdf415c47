/**
 The demonstration timeline: tasks tile the session, the operations of a task are spread evenly over its
 interval, and every event and request gets its time from integer arithmetic.  The partner of the builder is
 the validator of the same file (module TimelineBatch).
 */
module Timeline {
  import opened Common
  import opened Random

  // ---------------------------------------------------------------- task intervals

  const WEIGHTS: seq<int> := [3, 12, 15, 2, 25, 3]

  datatype Interval = Interval(lo: int, hi: int)

  /** The intervals follow each other without gap or overlap. */
  ghost predicate Tiles(intervals: seq<Interval>, from: int, until: int) {
    && intervals != [] && intervals[0].lo == from && intervals[|intervals| - 1].hi == until
    && forall i :: 0 <= i < |intervals| - 1 ==> intervals[i].hi == intervals[i + 1].lo
  }

  function Share(available: int, weight: int): int {
    available * weight / 60
  }

  lemma ShareLength(available: int, weight: int)
    requires available >= 0 && weight >= 0
    ensures 0 <= Share(available, weight) && 60 * Share(available, weight) <= available * weight < 60 * Share(available, weight) + 60
  {
  }

  /** The loop over the plan's items: a share of the time for each, the last up to 15 seconds before the end. */
  method TaskIntervals(start: int, finish: int) returns (intervals: seq<Interval>)
    ensures |intervals| == 6 && Tiles(intervals, start + 75 * NS, finish - 15 * NS)
    ensures forall i :: 0 <= i < 6 ==> intervals[i].lo == start + 75 * NS + SharesBefore(finish - start - 90 * NS, i)
  {
    var available := finish - start - 90 * NS;
    var cursor := start + 75 * NS;
    intervals := [];
    for position := 0 to 6
      invariant |intervals| == position && (position > 0 ==> Tiles(intervals, start + 75 * NS, cursor))
      invariant position < 6 ==> cursor == start + 75 * NS + SharesBefore(available, position)
      invariant position == 6 ==> cursor == finish - 15 * NS
      invariant forall i :: 0 <= i < position ==> intervals[i].lo == start + 75 * NS + SharesBefore(available, i)
    {
      var end := if position < 5 then cursor + Share(available, WEIGHTS[position]) else finish - 15 * NS;
      intervals := intervals + [Interval(cursor, end)];
      cursor := end;
    }
  }

  function SharesBefore(available: int, position: nat): int
    requires position <= 5
  {
    if position == 0 then 0 else SharesBefore(available, position - 1) + Share(available, WEIGHTS[position - 1])
  }

  /** Rounding down loses nothing: the last task takes what is left, at least its own share. */
  lemma LastTakesTheRest(available: int)
    requires available >= 0
    ensures available - SharesBefore(available, 5) >= Share(available, 3)
  {
    ShareLength(available, 3);
    ShareLength(available, 12);
    ShareLength(available, 15);
    ShareLength(available, 2);
    ShareLength(available, 25);
    assert SharesBefore(available, 1) == Share(available, WEIGHTS[0]);
    assert SharesBefore(available, 2) == SharesBefore(available, 1) + Share(available, WEIGHTS[1]);
    assert SharesBefore(available, 3) == SharesBefore(available, 2) + Share(available, WEIGHTS[2]);
    assert SharesBefore(available, 4) == SharesBefore(available, 3) + Share(available, WEIGHTS[3]);
  }

  // ---------------------------------------------------------------- operations

  datatype KeyKind = PrintableKey | WhitespaceKey | BackspaceKey

  datatype Press = Press(interval: int, kind: KeyKind, hold: int)

  datatype Field = UnknownField | ChatField | EssayField | QuestionField

  datatype Op =
    | Typing(presses: seq<Press>, field: Field, question: Option<int>)
    | Ask(duration: int)
    | Away(seconds: nat)
    | Paste(length: nat)
    | Copy(length: nat)
    | Answer(answered: int)

  function Intervals(presses: seq<Press>): int {
    if presses == [] then 0 else Intervals(presses[..|presses| - 1]) + presses[|presses| - 1].interval
  }

  function Duration(op: Op): int {
    match op
    case Typing(presses, _, _) => Intervals(presses) * MS
    case Ask(duration) => duration
    case Away(seconds) => seconds * NS
    case Paste(_) => NS
    case Copy(_) => NS
    case Answer(_) => NS
  }

  /** sum(op[1] for op in operations) */
  function Needed(ops: seq<Op>): int {
    if ops == [] then 0 else Needed(ops[..|ops| - 1]) + Duration(ops[|ops| - 1])
  }

  /** What the draws of an operation guarantee. */
  predicate Drawn(op: Op, delayed: bool) {
    match op
    case Typing(presses, _, _) => forall i :: 0 <= i < |presses| ==> presses[i].interval > 0
    case Ask(duration) => duration >= (if delayed then 5400 else 2400) * MS
    case _ => true
  }

  /** Characters left by the presses: a backspace takes one back. */
  function Net(presses: seq<Press>): int {
    if presses == [] then 0
    else Net(presses[..|presses| - 1]) + (if presses[|presses| - 1].kind.BackspaceKey? then -1 else 1)
  }

  lemma NetOneMore(presses: seq<Press>, p: Press)
    ensures Net(presses + [p]) == Net(presses) + (if p.kind.BackspaceKey? then -1 else 1)
  {
  }

  /** An error for every character at a positive multiple of 89. */
  function Errors(length: nat): nat {
    if length == 0 then 0 else (length - 1) / 89
  }

  /** A longer pause for every character at a positive multiple of 137. */
  function Pauses(length: nat): nat {
    if length == 0 then 0 else (length - 1) / 137
  }

  /** Is there a longer pause before the character? */
  predicate AfterPause(index: nat) {
    index != 0 && index % 137 == 0
  }

  function CharTime(pace: int, slow: bool): int {
    if slow then pace + 95 else if pace - 80 > 60 then pace - 80 else 60
  }

  /** The most, or the least, milliseconds that the draws can take for a text. */
  function TypingTime(length: nat, pace: int, slow: bool): int {
    if length == 0 then 0 else
      TypingTime(length - 1, pace, slow) + CharTime(pace, slow)
        + (if !AfterPause(length - 1) then 0 else if slow then 4400 else 2100)
        + (if length > 1 && (length - 1) % 89 == 0 then 300 else 0)
  }

  lemma {:induction false} TypingTimeExactly(length: nat, pace: int, slow: bool)
    ensures TypingTime(length, pace, slow)
      == length * CharTime(pace, slow) + (if slow then 4400 else 2100) * Pauses(length) + 300 * Errors(length)
  {
    if length > 0 {
      var index := length - 1;
      TypingTimeExactly(index, pace, slow);
      assert length * CharTime(pace, slow) == index * CharTime(pace, slow) + CharTime(pace, slow);
      assert Pauses(length) == Pauses(index) + if AfterPause(index) then 1 else 0;
      assert Errors(length) == Errors(index) + if index != 0 && index % 89 == 0 then 1 else 0;
    }
  }

  /** The presses for the first characters of a text. */
  ghost predicate Keyed(presses: seq<Press>, index: nat, pace: int) {
    && Net(presses) == index && |presses| == index + 2 * Errors(index)
    && TypingTime(index, pace, false) <= Intervals(presses) <= TypingTime(index, pace, true)
    && forall i :: 0 <= i < |presses| ==> presses[i].interval > 0
  }

  lemma IntervalsOneMore(presses: seq<Press>, p: Press)
    ensures Intervals(presses + [p]) == Intervals(presses) + p.interval
  {
  }

  ghost predicate InRange(key: Press, index: nat, pace: int) {
    && !key.kind.BackspaceKey? && key.interval >= 60
    && CharTime(pace, false) + (if AfterPause(index) then 2100 else 0) <= key.interval
    && key.interval <= CharTime(pace, true) + (if AfterPause(index) then 4400 else 0)
  }

  lemma KeyedMore(presses: seq<Press>, index: nat, pace: int, key: Press)
    requires Keyed(presses, index, pace) && InRange(key, index, pace)
    ensures Keyed(presses + [key] + (if index != 0 && index % 89 == 0 then CORRECTED else []), index + 1, pace)
  {
    NetOneMore(presses, key);
    IntervalsOneMore(presses, key);
    if index != 0 && index % 89 == 0 {
      CorrectedAfter(presses + [key]);
    } else {
      assert presses + [key] + [] == presses + [key];
    }
  }

  /** An error and its correction. */
  const CORRECTED: seq<Press> := [Press(130, PrintableKey, 70), Press(170, BackspaceKey, 75)]

  lemma CorrectedAfter(presses: seq<Press>)
    ensures Net(presses + CORRECTED) == Net(presses) && Intervals(presses + CORRECTED) == Intervals(presses) + 300
  {
    var wrong, back := CORRECTED[0], CORRECTED[1];
    assert presses + CORRECTED == presses + [wrong] + [back];
    NetOneMore(presses, wrong);
    NetOneMore(presses + [wrong], back);
    IntervalsOneMore(presses, wrong);
    IntervalsOneMore(presses + [wrong], back);
  }

  method DrawKey(index: nat, pace: int, white: bool) returns (key: Press)
    requires pace + 95 >= 60
    ensures key.kind == (if white then WhitespaceKey else PrintableKey) && 55 <= key.hold <= 145
    ensures InRange(key, index, pace)
  {
    var lo := if pace - 80 > 60 then pace - 80 else 60;
    var interval := RandInt(lo, pace + 95);
    if index != 0 && index % 137 == 0 {
      var more := RandInt(2100, 4400);
      interval := interval + more;
    }
    var hold := RandInt(55, 145);
    key := Press(interval, if white then WhitespaceKey else PrintableKey, hold);
  }

  /** The nested function typing: one press per character, a longer pause every 137 characters and a corrected
      error every 89. */
  method DrawTyping(text: string, pace: int, isSpace: char -> bool, field: Field, question: Option<int>) returns (op: Op)
    requires pace + 95 >= 60
    ensures op.Typing? && op.field == field && op.question == question && Drawn(op, false) && Drawn(op, true)
    ensures Net(op.presses) == |text| && |op.presses| == |text| + 2 * Errors(|text|)
    ensures TypingTime(|text|, pace, false) <= Intervals(op.presses) <= TypingTime(|text|, pace, true)
  {
    var presses: seq<Press> := [];
    for index := 0 to |text|
      invariant Keyed(presses, index, pace)
    {
      var key := DrawKey(index, pace, isSpace(text[index]));
      KeyedMore(presses, index, pace, key);
      presses := presses + [key] + (if index != 0 && index % 89 == 0 then CORRECTED else []);
    }
    op := Typing(presses, field, question);
  }

  // ---------------------------------------------------------------- events and requests

  datatype TaskId = TaskId(run: int, position: int)

  datatype EventKind =
    | WarningDisplayed | WarningAcknowledged
    | Keystroke | FirstVisible | CompletedVisible
    | FocusAway | FocusReturn | VisibilityChange
    | Copied | Pasted | AnswerChange

  /** An event; of its payload the class of a key, and one amount: the length of a copied or pasted text, the
      milliseconds of an absence, 1 for a page that becomes visible. */
  datatype Event = Event(kind: EventKind, time: int, task: Option<TaskId>, field: Field, question: Option<int>, submission: Option<TaskId>,
                         key: Option<KeyKind>, amount: int)

  datatype Request = Request(
    task: TaskId, sequence: nat, delayed: bool,
    requestAt: int, providerStarted: int, firstToken: int, providerCompleted: int,
    delayStarted: Option<int>, delayEnded: Option<int>,
    firstEmit: int, completedEmit: int, firstVisible: int, completedVisible: int)

  predicate HasSubmission(task: TaskId) {
    task.position == 1 || task.position == 4
  }

  function MakeEvent(kind: EventKind, at: int, task: TaskId, field: Field, question: Option<int>): Event {
    Event(kind, at, Some(task), field, question, if question.Some? && HasSubmission(task) then Some(task) else None, None, 0)
  }

  /** The timestamps of a request that starts at a time and takes a duration. */
  function MakeRequest(task: TaskId, sequence: nat, delayed: bool, at: int, duration: int): Request {
    var firstToken := at + 500 * MS;
    var done := at + duration - (if delayed then 3200 else 200) * MS;
    var emitEnd := done + (if delayed then 3000 else 20) * MS;
    Request(task, sequence, delayed, at, at + 60 * MS, firstToken, done,
            if delayed then Some(done) else None, if delayed then Some(done + 3 * NS) else None,
            if delayed then done + 3 * NS else firstToken + 20 * MS, emitEnd,
            if delayed then done + 3 * NS else firstToken + 40 * MS, emitEnd + 100 * MS)
  }

  /** What the validator asks of a request, for the interval of its task. */
  predicate RequestInOrder(r: Request, interval: Interval) {
    && interval.lo <= r.requestAt < r.providerStarted < r.firstToken < r.providerCompleted
    && r.providerCompleted <= r.completedEmit <= r.completedVisible < interval.hi
  }

  predicate DelayIsThreeSeconds(r: Request) {
    r.delayed ==> r.delayStarted.Some? && r.delayEnded.Some? && r.delayEnded.value - r.delayStarted.value == 3 * NS
  }

  /** Every request that fits its drawn duration passes the validator, and beyond what the validator asks, the
      reader sees nothing before it was emitted. */
  lemma RequestPasses(task: TaskId, sequence: nat, delayed: bool, at: int, duration: int, interval: Interval)
    requires Drawn(Ask(duration), delayed) && interval.lo <= at && at + duration <= interval.hi
    ensures var r := MakeRequest(task, sequence, delayed, at, duration);
      && RequestInOrder(r, interval) && DelayIsThreeSeconds(r)
      && r.firstToken < r.firstEmit <= r.completedEmit && r.firstEmit <= r.firstVisible <= r.completedVisible < at + duration
  {
  }

  function KeyEvent(p: Press, at: int, task: TaskId, field: Field, question: Option<int>): Event {
    MakeEvent(Keystroke, at, task, field, question).(key := Some(p.kind))
  }

  function PressEvents(presses: seq<Press>, task: TaskId, field: Field, question: Option<int>, at: int): seq<Event> {
    if presses == [] then [] else
      var e := KeyEvent(presses[|presses| - 1], at + Intervals(presses) * MS, task, field, question);
      PressEvents(presses[..|presses| - 1], task, field, question, at) + [e]
  }

  /** The events of an operation that starts at a time. */
  function OpEvents(op: Op, task: TaskId, delayed: bool, at: int): seq<Event> {
    match op
    case Typing(presses, field, question) => PressEvents(presses, task, field, question, at)
    case Ask(duration) =>
      var r := MakeRequest(task, 0, delayed, at, duration);
      [MakeEvent(FirstVisible, r.firstVisible, task, ChatField, None),
       MakeEvent(CompletedVisible, r.completedVisible, task, ChatField, None)]
    case Away(seconds) =>
      [MakeEvent(FocusAway, at, task, EssayField, None), MakeEvent(VisibilityChange, at, task, EssayField, None),
       MakeEvent(FocusReturn, at + seconds * NS, task, EssayField, None).(amount := seconds * 1000),
       MakeEvent(VisibilityChange, at + seconds * NS, task, EssayField, None).(amount := 1)]
    case Paste(length) => [MakeEvent(Pasted, at, task, EssayField, None).(amount := length)]
    case Copy(length) => [MakeEvent(Copied, at, task, EssayField, None).(amount := length)]
    case Answer(question) => [MakeEvent(AnswerChange, at, task, QuestionField, Some(question))]
  }

  /** Where the next operation starts after these: each is followed by the gap. */
  function NextStart(ops: seq<Op>, from: int, gap: int): int {
    if ops == [] then from else NextStart(ops[..|ops| - 1], from, gap) + Duration(ops[|ops| - 1]) + gap
  }

  function TaskEvents(ops: seq<Op>, task: TaskId, delayed: bool, from: int, gap: int): seq<Event> {
    if ops == [] then []
    else
      var init := ops[..|ops| - 1];
      TaskEvents(init, task, delayed, from, gap) + OpEvents(ops[|ops| - 1], task, delayed, NextStart(init, from, gap))
  }

  function TaskRequests(ops: seq<Op>, task: TaskId, delayed: bool, from: int, gap: int, sequence: nat): seq<Request> {
    if ops == [] then []
    else
      var init, last := ops[..|ops| - 1], ops[|ops| - 1];
      var sofar := TaskRequests(init, task, delayed, from, gap, sequence);
      if last.Ask? then sofar + [MakeRequest(task, sequence + |sofar| + 1, delayed, NextStart(init, from, gap), last.duration)]
      else sofar
  }

  function Gap(ops: seq<Op>, interval: Interval): int {
    (interval.hi - interval.lo - Needed(ops)) / (|ops| + 1)
  }

  // ---------------------------------------------------------------- everything lies inside

  ghost predicate Inside(events: seq<Event>, lo: int, hi: int) {
    && (forall i :: 0 <= i < |events| ==> lo <= events[i].time <= hi)
    && (forall i, j :: 0 <= i < j < |events| ==> events[i].time <= events[j].time)
  }

  lemma InsideConcat(a: seq<Event>, b: seq<Event>, x: int, y: int, z: int)
    requires Inside(a, x, y) && Inside(b, y, z) && x <= y <= z
    ensures Inside(a + b, x, z)
  {
  }

  lemma InsideWider(events: seq<Event>, x: int, y: int, x': int, y': int)
    requires Inside(events, x, y) && x' <= x && y <= y'
    ensures Inside(events, x', y')
  {
  }

  lemma {:induction false} PressesInside(presses: seq<Press>, task: TaskId, field: Field, question: Option<int>, at: int)
    requires forall i :: 0 <= i < |presses| ==> presses[i].interval > 0
    ensures Intervals(presses) >= 0 && Inside(PressEvents(presses, task, field, question, at), at, at + Intervals(presses) * MS)
  {
    if presses != [] {
      var init, last := presses[..|presses| - 1], presses[|presses| - 1];
      PressesInside(init, task, field, question, at);
      var y, z := at + Intervals(init) * MS, at + Intervals(presses) * MS;
      var e := KeyEvent(last, z, task, field, question);
      InsideConcat(PressEvents(init, task, field, question, at), [e], at, y, z);
    }
  }

  lemma OpInside(op: Op, task: TaskId, delayed: bool, at: int)
    requires Drawn(op, delayed)
    ensures Duration(op) >= 0 && Inside(OpEvents(op, task, delayed, at), at, at + Duration(op))
  {
    if op.Typing? {
      PressesInside(op.presses, task, op.field, op.question, at);
    }
  }

  ghost predicate AllDrawn(ops: seq<Op>, delayed: bool) {
    forall i :: 0 <= i < |ops| ==> Drawn(ops[i], delayed)
  }

  lemma {:induction false} TaskInside(ops: seq<Op>, task: TaskId, delayed: bool, from: int, gap: int)
    requires AllDrawn(ops, delayed) && gap >= 0
    ensures from <= NextStart(ops, from, gap)
    ensures Inside(TaskEvents(ops, task, delayed, from, gap), from, NextStart(ops, from, gap))
  {
    if ops != [] {
      var init, last := ops[..|ops| - 1], ops[|ops| - 1];
      TaskInside(init, task, delayed, from, gap);
      var at := NextStart(init, from, gap);
      OpInside(last, task, delayed, at);
      InsideWider(OpEvents(last, task, delayed, at), at, at + Duration(last), at, NextStart(ops, from, gap));
      InsideConcat(TaskEvents(init, task, delayed, from, gap), OpEvents(last, task, delayed, at), from, at, NextStart(ops, from, gap));
    }
  }

  lemma {:induction false} RequestsPass(ops: seq<Op>, task: TaskId, delayed: bool, from: int, gap: int, sequence: nat, interval: Interval)
    requires AllDrawn(ops, delayed) && gap >= 0 && interval.lo <= from && NextStart(ops, from, gap) <= interval.hi
    ensures forall r :: r in TaskRequests(ops, task, delayed, from, gap, sequence) ==>
      RequestInOrder(r, interval) && DelayIsThreeSeconds(r) && r.task == task
  {
    if ops != [] {
      var init, last := ops[..|ops| - 1], ops[|ops| - 1];
      var at := NextStart(init, from, gap);
      OpInside(last, task, delayed, at);
      RequestsPass(init, task, delayed, from, gap, sequence, interval);
      TaskInside(init, task, delayed, from, gap);
      if last.Ask? {
        var sofar := TaskRequests(init, task, delayed, from, gap, sequence);
        RequestPasses(task, sequence + |sofar| + 1, delayed, at, last.duration, interval);
      }
    }
  }

  ghost predicate Numbered(rs: seq<Request>, after: nat) {
    forall i :: 0 <= i < |rs| ==> rs[i].sequence == after + i + 1
  }

  lemma NumberedNext(rs: seq<Request>, r: Request, after: nat)
    requires Numbered(rs, after) && r.sequence == after + |rs| + 1
    ensures Numbered(rs + [r], after)
  {
  }

  /** Requests are numbered without gaps, in order of time. */
  lemma {:induction false} RequestsNumbered(ops: seq<Op>, task: TaskId, delayed: bool, from: int, gap: int, sequence: nat)
    ensures Numbered(TaskRequests(ops, task, delayed, from, gap, sequence), sequence)
  {
    if ops != [] {
      var init, last := ops[..|ops| - 1], ops[|ops| - 1];
      RequestsNumbered(init, task, delayed, from, gap, sequence);
      var sofar := TaskRequests(init, task, delayed, from, gap, sequence);
      if last.Ask? {
        NumberedNext(sofar, MakeRequest(task, sequence + |sofar| + 1, delayed, NextStart(init, from, gap), last.duration), sequence);
      }
    }
  }

  lemma {:induction false} NextStartExactly(ops: seq<Op>, from: int, gap: int)
    ensures NextStart(ops, from, gap) == from + Needed(ops) + |ops| * gap
  {
    if ops != [] {
      NextStartExactly(ops[..|ops| - 1], from, gap);
      assert |ops| * gap == (|ops| - 1) * gap + gap;
    }
  }

  lemma GapFits(rest: int, n: nat)
    requires rest >= 0
    ensures rest / (n + 1) >= 0 && rest / (n + 1) + n * (rest / (n + 1)) <= rest < rest / (n + 1) + n * (rest / (n + 1)) + n + 1
  {
  }

  /** The overflow check never fires, and less than a nanosecond per gap is lost to rounding. */
  lemma NeverOverflows(ops: seq<Op>, interval: Interval)
    requires Needed(ops) <= interval.hi - interval.lo
    ensures var gap := Gap(ops, interval);
      && gap >= 0
      && NextStart(ops, interval.lo + gap, gap) <= interval.hi < NextStart(ops, interval.lo + gap, gap) + |ops| + 1
  {
    NextStartExactly(ops, interval.lo + Gap(ops, interval), Gap(ops, interval));
    GapFits(interval.hi - interval.lo - Needed(ops), |ops|);
  }

  // ---------------------------------------------------------------- the loops that place the operations

  method PlaceTyping(presses: seq<Press>, task: TaskId, field: Field, question: Option<int>, from: int)
    returns (events: seq<Event>, at: int)
    ensures events == PressEvents(presses, task, field, question, from) && at == from + Intervals(presses) * MS
  {
    events, at := [], from;
    for index := 0 to |presses|
      invariant events == PressEvents(presses[..index], task, field, question, from)
      invariant at == from + Intervals(presses[..index]) * MS
    {
      assert presses[..index + 1][..index] == presses[..index];
      at := at + presses[index].interval * MS;
      events := events + [KeyEvent(presses[index], at, task, field, question)];
    }
    assert presses[..|presses|] == presses;
  }

  method PlaceOp(op: Op, task: TaskId, delayed: bool, from: int) returns (events: seq<Event>, at: int)
    ensures events == OpEvents(op, task, delayed, from) && at == from + Duration(op)
  {
    match op {
      case Typing(presses, field, question) =>
        events, at := PlaceTyping(presses, task, field, question, from);
      case _ =>
        events, at := OpEvents(op, task, delayed, from), from + Duration(op);
    }
  }

  /** How the placing of a task's operations ends. */
  datatype Outcome = Placed | TooLong | Overflow

  /** The loop over the operations of a task. */
  method PlaceOps(ops: seq<Op>, task: TaskId, delayed: bool, from: int, gap: int, sequence: nat)
    returns (events: seq<Event>, requests: seq<Request>, at: int)
    ensures events == TaskEvents(ops, task, delayed, from, gap)
    ensures requests == TaskRequests(ops, task, delayed, from, gap, sequence)
    ensures at == NextStart(ops, from, gap)
  {
    events, requests, at := [], [], from;
    for k := 0 to |ops|
      invariant events == TaskEvents(ops[..k], task, delayed, from, gap)
      invariant requests == TaskRequests(ops[..k], task, delayed, from, gap, sequence)
      invariant at == NextStart(ops[..k], from, gap)
    {
      assert ops[..k + 1][..k] == ops[..k];
      var more, later := PlaceOp(ops[k], task, delayed, at);
      if ops[k].Ask? {
        requests := requests + [MakeRequest(task, sequence + |requests| + 1, delayed, at, ops[k].duration)];
      }
      events, at := events + more, later + gap;
    }
    assert ops[..|ops|] == ops;
  }

  /** The placing of a task's operations, with both of its checks. */
  method LayOut(ops: seq<Op>, task: TaskId, interval: Interval, delayed: bool, sequence: nat)
    returns (r: Outcome, events: seq<Event>, requests: seq<Request>)
    ensures r == if Needed(ops) + 10 * NS < interval.hi - interval.lo then Placed else TooLong
    ensures r == Placed ==> var gap := Gap(ops, interval);
      && events == TaskEvents(ops, task, delayed, interval.lo + gap, gap)
      && requests == TaskRequests(ops, task, delayed, interval.lo + gap, gap, sequence)
  {
    events, requests := [], [];
    if !(Needed(ops) + 10 * NS < interval.hi - interval.lo) {
      return TooLong, events, requests;
    }
    var gap := Gap(ops, interval);
    var at;
    events, requests, at := PlaceOps(ops, task, delayed, interval.lo + gap, gap, sequence);
    NeverOverflows(ops, interval);
    r := if at <= interval.hi then Placed else Overflow;
  }
}
