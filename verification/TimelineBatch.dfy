/**
 The batch of demonstration runs and its validator.  Whatever is drawn, a batch that is built passes the
 validator; only the check that the operations fit into their task can fail.
 */
module TimelineBatch {
  import opened Common
  import opened Random
  import opened Timeline
  import opened TimelinePlan

  datatype Session = Session(number: int, createdAt: int, consentedAt: int, completedAt: int)

  datatype Tables = Tables(sessions: seq<Session>, intervals: map<TaskId, Interval>, events: seq<Event>, requests: seq<Request>)

  datatype Fault = SessionOutOfBounds | EventOutsideTask | MissingContext | InvalidRequest | WrongDelay

  // ---------------------------------------------------------------- what the validator accepts

  predicate SessionOk(s: Session) {
    s.createdAt < s.consentedAt < s.completedAt
  }

  predicate InsideTask(e: Event, intervals: map<TaskId, Interval>) {
    e.task.Some? ==> e.task.value in intervals && intervals[e.task.value].lo <= e.time <= intervals[e.task.value].hi
  }

  predicate HasContext(e: Event) {
    e.field == QuestionField ==> e.question.Some? && e.submission.Some?
  }

  predicate EventOk(e: Event, intervals: map<TaskId, Interval>) {
    InsideTask(e, intervals) && HasContext(e)
  }

  predicate RequestOk(r: Request, intervals: map<TaskId, Interval>) {
    r.task in intervals && RequestInOrder(r, intervals[r.task]) && DelayIsThreeSeconds(r)
  }

  ghost predicate Sound(t: Tables) {
    && (forall s :: s in t.sessions ==> SessionOk(s))
    && (forall e :: e in t.events ==> EventOk(e, t.intervals))
    && (forall r :: r in t.requests ==> RequestOk(r, t.intervals))
  }

  /** Every row refers to a task of the batch; Python raises a KeyError otherwise. */
  ghost predicate Linked(t: Tables) {
    && (forall e :: e in t.events && e.task.Some? ==> e.task.value in t.intervals)
    && (forall r :: r in t.requests ==> r.task in t.intervals)
  }

  /** The loops of validate over sessions, events and requests: the first fault, if any. */
  method Validate(t: Tables, now: int) returns (fault: Option<Fault>)
    requires Linked(t)
    ensures fault == None <==> Sound(t) && forall s :: s in t.sessions ==> s.completedAt < now - NS
    ensures fault == None ==> forall s :: s in t.sessions ==> s.createdAt < s.consentedAt < s.completedAt < now - 1_000_000_000
  {
    for i := 0 to |t.sessions|
      invariant forall k :: 0 <= k < i ==> SessionOk(t.sessions[k]) && t.sessions[k].completedAt < now - NS
    {
      var s := t.sessions[i];
      if !(SessionOk(s) && s.completedAt < now - NS) {
        return Some(SessionOutOfBounds);
      }
    }
    fault := ValidateEvents(t);
    if fault == None {
      fault := ValidateRequests(t);
    }
  }

  method ValidateEvents(t: Tables) returns (fault: Option<Fault>)
    requires Linked(t)
    ensures fault == None <==> forall e :: e in t.events ==> EventOk(e, t.intervals)
  {
    for i := 0 to |t.events|
      invariant forall k :: 0 <= k < i ==> EventOk(t.events[k], t.intervals)
    {
      if !InsideTask(t.events[i], t.intervals) {
        assert !EventOk(t.events[i], t.intervals);
        return Some(EventOutsideTask);
      }
      if !HasContext(t.events[i]) {
        assert !EventOk(t.events[i], t.intervals);
        return Some(MissingContext);
      }
    }
    fault := None;
  }

  method ValidateRequests(t: Tables) returns (fault: Option<Fault>)
    requires Linked(t)
    ensures fault == None <==> forall r :: r in t.requests ==> RequestOk(r, t.intervals)
  {
    for i := 0 to |t.requests|
      invariant forall k :: 0 <= k < i ==> RequestOk(t.requests[k], t.intervals)
    {
      if !RequestInOrder(t.requests[i], t.intervals[t.requests[i].task]) {
        assert !RequestOk(t.requests[i], t.intervals);
        return Some(InvalidRequest);
      }
      if !DelayIsThreeSeconds(t.requests[i]) {
        assert !RequestOk(t.requests[i], t.intervals);
        return Some(WrongDelay);
      }
    }
    fault := None;
  }

  // ---------------------------------------------------------------- compiling the operations of a task

  /** Question events only occur in tasks that have a submission. */
  predicate Placeable(op: Op, position: int) {
    match op
    case Typing(_, field, question) => field == QuestionField ==> question.Some? && (position == 1 || position == 4)
    case Answer(_) => position == 1 || position == 4
    case _ => true
  }

  ghost predicate Ready(ops: seq<Op>, delayed: bool, position: int) {
    AllDrawn(ops, delayed) && forall i :: 0 <= i < |ops| ==> Placeable(ops[i], position)
  }

  /** Operations of the given kinds, in order, that take no more and no less than the draws allow. */
  ghost predicate Compiled(ops: seq<Op>, pace: int, delayed: bool, position: int, plan: seq<Sort>) {
    Ready(ops, delayed, position) && Sorts(ops) == plan && AllTimed(ops, plan, pace, delayed)
  }

  lemma AddOp(ops: seq<Op>, op: Op, pace: int, delayed: bool, position: int, plan: seq<Sort>)
    requires Compiled(ops, pace, delayed, position, plan) && Drawn(op, delayed) && Placeable(op, position) && Timed(op, pace, delayed)
    ensures Compiled(ops + [op], pace, delayed, position, plan + [SortOf(op)])
  {
    SortsOneMore(ops, op);
    TimedOneMore(ops, op, plan, pace, delayed);
  }

  /** How Python tells white space; the letters themselves do not reach the timeline. */
  type Spaces = char -> bool

  method CompileChat(sofar: seq<Op>, chat: Chat, delayed: bool, pace: int, isSpace: Spaces, position: int, ghost plan: seq<Sort>)
    returns (ops: seq<Op>)
    requires pace + 95 >= 60 && Compiled(sofar, pace, delayed, position, plan)
    ensures Compiled(ops, pace, delayed, position, plan + [Types(|chat.user|, ChatField, None), Asks])
  {
    var typing := DrawTyping(chat.user, pace, isSpace, ChatField, None);
    AddOp(sofar, typing, pace, delayed, position, plan);
    var extra := RandInt(0, 1600);
    var ask := Ask((2400 + extra + (if delayed then 3000 else 0)) * MS);
    AddOp(sofar + [typing], ask, pace, delayed, position, plan + [SortOf(typing)]);
    Assoc(plan, [SortOf(typing)], [Asks]);
    ops := sofar + [typing] + [ask];
  }

  method CompileChats(chats: seq<Chat>, delayed: bool, pace: int, isSpace: Spaces, position: int) returns (ops: seq<Op>)
    requires pace + 95 >= 60
    ensures Compiled(ops, pace, delayed, position, ChatPlan(chats))
  {
    ops := [];
    for i := 0 to |chats|
      invariant Compiled(ops, pace, delayed, position, ChatPlan(chats[..i]))
    {
      assert chats[..i + 1][..i] == chats[..i];
      ops := CompileChat(ops, chats[i], delayed, pace, isSpace, position, ChatPlan(chats[..i]));
    }
    assert chats[..|chats|] == chats;
  }

  method CompileAway(sofar: seq<Op>, run: RunSpec, ghost plan: seq<Sort>) returns (ops: seq<Op>)
    requires Compiled(sofar, run.pace, run.delayed, 2, plan)
    ensures Compiled(ops, run.pace, run.delayed, 2, plan + AwayPlan(run.away))
  {
    ops := sofar;
    assert plan + [] == plan;
    for i := 0 to |run.away|
      invariant Compiled(ops, run.pace, run.delayed, 2, plan + AwayPlan(run.away[..i]))
    {
      assert run.away[..i + 1][..i] == run.away[..i];
      AddOp(ops, Away(run.away[i]), run.pace, run.delayed, 2, plan + AwayPlan(run.away[..i]));
      Assoc(plan, AwayPlan(run.away[..i]), [Leaves(run.away[i])]);
      ops := ops + [Away(run.away[i])];
    }
    assert run.away[..|run.away|] == run.away;
  }

  /** The paste of the essay, and the rest of it typed. */
  method CompileDraft(sofar: seq<Op>, run: RunSpec, pasted: string, isSpace: Spaces, ghost plan: seq<Sort>) returns (ops: seq<Op>)
    requires run.pace + 95 >= 60 && Compiled(sofar, run.pace, run.delayed, 2, plan)
    ensures Compiled(ops, run.pace, run.delayed, 2, plan + PastePlan(pasted) + [Types(|TypedOfEssay(run.essay, pasted)|, EssayField, None)])
  {
    ops := sofar;
    assert plan + [] == plan;
    if pasted != "" {
      AddOp(ops, Paste(|pasted|), run.pace, run.delayed, 2, plan);
      ops := ops + [Paste(|pasted|)];
    }
    var typing := DrawTyping(if pasted != "" then ReplaceOnce(run.essay, pasted) else run.essay, run.pace, isSpace, EssayField, None);
    AddOp(ops, typing, run.pace, run.delayed, 2, plan + PastePlan(pasted));
    ops := ops + [typing];
  }

  method CompileEssay(sofar: seq<Op>, run: RunSpec, pasted: string, isSpace: Spaces, ghost plan: seq<Sort>) returns (ops: seq<Op>)
    requires run.pace + 95 >= 60 && Compiled(sofar, run.pace, run.delayed, 2, plan)
    ensures Compiled(ops, run.pace, run.delayed, 2, plan + EssayPlanOf(run.away, run.essay, pasted, run.number in {1, 4, 7, 8, 9}))
  {
    ops := CompileAway(sofar, run, plan);
    ops := CompileDraft(ops, run, pasted, isSpace, plan + AwayPlan(run.away));
    ghost var typing := [Types(|TypedOfEssay(run.essay, pasted)|, EssayField, None)];
    EssayPlanAfter(plan, AwayPlan(run.away), PastePlan(pasted), typing, CopyPlan(run.essay, run.number in {1, 4, 7, 8, 9}));
    if run.number == 1 || run.number == 4 || 7 <= run.number <= 9 {
      var copied := FirstSentence(run.essay);
      AddOp(ops, Copy(copied), run.pace, run.delayed, 2, plan + AwayPlan(run.away) + PastePlan(pasted) + typing);
      ops := ops + [Copy(copied)];
    }
  }

  lemma EssayPlanAfter(plan: seq<Sort>, away: seq<Sort>, paste: seq<Sort>, typing: seq<Sort>, copy: seq<Sort>)
    ensures plan + (away + paste + typing + copy) == plan + away + paste + typing + copy
    ensures plan + away + paste + typing + [] == plan + away + paste + typing
  {
  }

  method CompileQuestions(sofar: seq<Op>, run: RunSpec, position: int, questions: seq<Question>, isSpace: Spaces, ghost plan: seq<Sort>)
    returns (ops: seq<Op>)
    requires run.pace + 95 >= 60 && (position == 1 || position == 4) && Compiled(sofar, run.pace, run.delayed, position, plan)
    ensures Compiled(ops, run.pace, run.delayed, position, plan + QuestionPlan(questions))
  {
    ops := sofar;
    assert plan + [] == plan;
    for i := 0 to |questions|
      invariant Compiled(ops, run.pace, run.delayed, position, plan + QuestionPlan(questions[..i]))
    {
      ghost var done := plan + QuestionPlan(questions[..i]);
      assert questions[..i + 1][..i] == questions[..i];
      ops := CompileQuestion(ops, run, position, questions[i], isSpace, done);
      EssayPlanAfter(plan, QuestionPlan(questions[..i]), ContentPlan(questions[i]), [Answers(questions[i].id)], []);
    }
    assert questions[..|questions|] == questions;
  }

  method CompileQuestion(sofar: seq<Op>, run: RunSpec, position: int, q: Question, isSpace: Spaces, ghost plan: seq<Sort>)
    returns (ops: seq<Op>)
    requires run.pace + 95 >= 60 && (position == 1 || position == 4) && Compiled(sofar, run.pace, run.delayed, position, plan)
    ensures Compiled(ops, run.pace, run.delayed, position, plan + ContentPlan(q) + [Answers(q.id)])
  {
    ops := sofar;
    assert plan + [] == plan;
    if q.content != "" {
      var typing := DrawTyping(q.content, run.pace, isSpace, QuestionField, Some(q.id));
      AddOp(ops, typing, run.pace, run.delayed, position, plan);
      ops := ops + [typing];
    }
    AddOp(ops, Answer(q.id), run.pace, run.delayed, position, plan + ContentPlan(q));
    ops := ops + [Answer(q.id)];
  }

  /** The operations of a task in kind and order: its chats, then the essay or the questions. */
  method Compile(run: RunSpec, position: int, isSpace: Spaces) returns (ops: seq<Op>)
    requires run.pace + 95 >= 60 && (position == 1 || position == 2 || position == 4)
    ensures Compiled(ops, run.pace, run.delayed, position, Plan(run, position))
  {
    var chats := ChatsAt(run.chats, position);
    ops := CompileChats(chats, run.delayed, run.pace, isSpace, position);
    if position == 2 {
      ops := CompileEssay(ops, run, PastedText(chats), isSpace, ChatPlan(chats));
    } else {
      ops := CompileQuestions(ops, run, position, QuestionsAt(run.questions, position), isSpace, ChatPlan(chats));
    }
  }

  // ---------------------------------------------------------------- the events of a task

  lemma {:induction false} PressesHaveContext(presses: seq<Press>, task: TaskId, field: Field, question: Option<int>, at: int)
    requires field == QuestionField ==> question.Some? && HasSubmission(task)
    ensures forall e :: e in PressEvents(presses, task, field, question, at) ==> e.task == Some(task) && HasContext(e)
  {
    if presses != [] {
      PressesHaveContext(presses[..|presses| - 1], task, field, question, at);
    }
  }

  lemma OpHasContext(op: Op, task: TaskId, delayed: bool, at: int)
    requires Placeable(op, task.position)
    ensures forall e :: e in OpEvents(op, task, delayed, at) ==> e.task == Some(task) && HasContext(e)
  {
    if op.Typing? {
      PressesHaveContext(op.presses, task, op.field, op.question, at);
    }
  }

  lemma {:induction false} TaskHasContext(ops: seq<Op>, task: TaskId, delayed: bool, from: int, gap: int)
    requires forall i :: 0 <= i < |ops| ==> Placeable(ops[i], task.position)
    ensures forall e :: e in TaskEvents(ops, task, delayed, from, gap) ==> e.task == Some(task) && HasContext(e)
  {
    if ops != [] {
      var init, last := ops[..|ops| - 1], ops[|ops| - 1];
      TaskHasContext(init, task, delayed, from, gap);
      OpHasContext(last, task, delayed, NextStart(init, from, gap));
    }
  }

  /** The questions whose answers the events report, in order. */
  function AnswersIn(events: seq<Event>): seq<int> {
    if events == [] then [] else
      var e := events[|events| - 1];
      AnswersIn(events[..|events| - 1]) + (if e.kind == AnswerChange && e.question.Some? then [e.question.value] else [])
  }

  lemma {:induction false} AnswersConcat(a: seq<Event>, b: seq<Event>)
    ensures AnswersIn(a + b) == AnswersIn(a) + AnswersIn(b)
    decreases |b|
  {
    if b == [] {
      assert a + b == a && AnswersIn(a) + [] == AnswersIn(a);
    } else {
      var init, e := b[..|b| - 1], b[|b| - 1];
      AnswersConcat(a, init);
      assert (a + b)[..|a + b| - 1] == a + init;
      Assoc(AnswersIn(a), AnswersIn(init), if e.kind == AnswerChange && e.question.Some? then [e.question.value] else []);
    }
  }

  lemma {:induction false} NoAnswers(events: seq<Event>)
    requires forall e :: e in events ==> e.kind != AnswerChange
    ensures AnswersIn(events) == []
  {
    if events != [] {
      assert events[|events| - 1] in events;
      NoAnswers(events[..|events| - 1]);
    }
  }

  lemma {:induction false} PressesAreKeystrokes(presses: seq<Press>, task: TaskId, field: Field, question: Option<int>, at: int)
    ensures |PressEvents(presses, task, field, question, at)| == |presses|
    ensures forall e :: e in PressEvents(presses, task, field, question, at) ==> e.kind == Keystroke
  {
    if presses != [] {
      PressesAreKeystrokes(presses[..|presses| - 1], task, field, question, at);
    }
  }

  lemma OpAnswers(op: Op, task: TaskId, delayed: bool, at: int)
    ensures AnswersIn(OpEvents(op, task, delayed, at)) == if op.Answer? then [op.answered] else []
  {
    var events := OpEvents(op, task, delayed, at);
    if op.Typing? {
      PressesAreKeystrokes(op.presses, task, op.field, op.question, at);
    }
    if op.Answer? {
      assert events[..0] == [] && AnswersIn([]) == [];
    } else {
      NoAnswers(events);
    }
  }

  lemma AnswersOfOneMore(plan: seq<Sort>, op: Op)
    ensures AnswersOf(plan + [SortOf(op)]) == AnswersOf(plan) + if op.Answer? then [op.answered] else []
  {
  }

  /** The answer events of a task are those of its answers, in order. */
  lemma {:induction false} TaskAnswers(ops: seq<Op>, task: TaskId, delayed: bool, from: int, gap: int)
    ensures AnswersIn(TaskEvents(ops, task, delayed, from, gap)) == AnswersOf(Sorts(ops))
  {
    if ops != [] {
      var init, last := ops[..|ops| - 1], ops[|ops| - 1];
      var at := NextStart(init, from, gap);
      TaskAnswers(init, task, delayed, from, gap);
      AnswersOfOneMore(Sorts(init), last);
      OpAnswers(last, task, delayed, at);
      AnswersConcat(TaskEvents(init, task, delayed, from, gap), OpEvents(last, task, delayed, at));
    }
  }

  lemma AskCounts(op: Op, c: Count)
    requires c == OfKind(FirstVisible)
    ensures Part(SortOf(op), c) == if op.Ask? then 1 else 0
  {
  }

  /** There is a request for each that is planned. */
  lemma {:induction false} TaskAsks(ops: seq<Op>, task: TaskId, delayed: bool, from: int, gap: int, sequence: nat, c: Count)
    requires c == OfKind(FirstVisible)
    ensures |TaskRequests(ops, task, delayed, from, gap, sequence)| == Total(Sorts(ops), c)
  {
    if ops != [] {
      var init, last := ops[..|ops| - 1], ops[|ops| - 1];
      TaskAsks(init, task, delayed, from, gap, sequence, c);
      AskCounts(last, c);
      assert Total(Sorts(init) + [SortOf(last)], c) == Total(Sorts(init), c) + Part(SortOf(last), c) by {
        TotalConcat(Sorts(init), [SortOf(last)], c);
        TotalOne(SortOf(last), c);
      }
    }
  }

  /** What the placing of a task gives. */
  ghost predicate TaskOk(events: seq<Event>, requests: seq<Request>, task: TaskId, interval: Interval) {
    && Inside(events, interval.lo, interval.hi)
    && (forall e :: e in events ==> e.task == Some(task) && HasContext(e))
    && (forall r :: r in requests ==> RequestInOrder(r, interval) && DelayIsThreeSeconds(r) && r.task == task)
  }

  /** Every task whose operations fit is in order, whatever was drawn. */
  lemma FittingTaskIsOk(ops: seq<Op>, task: TaskId, interval: Interval, delayed: bool, sequence: nat)
    requires Ready(ops, delayed, task.position) && Needed(ops) + 10 * NS < interval.hi - interval.lo
    ensures var gap := Gap(ops, interval);
      TaskOk(TaskEvents(ops, task, delayed, interval.lo + gap, gap),
             TaskRequests(ops, task, delayed, interval.lo + gap, gap, sequence), task, interval)
  {
    var gap := Gap(ops, interval);
    var from := interval.lo + gap;
    NeverOverflows(ops, interval);
    TaskInside(ops, task, delayed, from, gap);
    InsideWider(TaskEvents(ops, task, delayed, from, gap), from, NextStart(ops, from, gap), interval.lo, interval.hi);
    TaskHasContext(ops, task, delayed, from, gap);
    RequestsPass(ops, task, delayed, from, gap, sequence, interval);
  }

  /** No request, no answer and no event of the plan is missing. */
  ghost predicate TaskComplete(plan: seq<Sort>, sequence: nat, events: seq<Event>, requests: seq<Request>) {
    && Numbered(requests, sequence) && |requests| == Total(plan, OfKind(FirstVisible))
    && AnswersIn(events) == AnswersOf(plan) && Reflects(events, plan)
  }

  lemma TaskIsComplete(ops: seq<Op>, task: TaskId, delayed: bool, plan: seq<Sort>, from: int, gap: int, sequence: nat,
      events: seq<Event>, requests: seq<Request>)
    requires Sorts(ops) == plan && events == TaskEvents(ops, task, delayed, from, gap)
    requires requests == TaskRequests(ops, task, delayed, from, gap, sequence)
    ensures TaskComplete(plan, sequence, events, requests)
  {
    RequestsNumbered(ops, task, delayed, from, gap, sequence);
    TaskAsks(ops, task, delayed, from, gap, sequence, OfKind(FirstVisible));
    TaskAnswers(ops, task, delayed, from, gap);
    TaskReflects(ops, task, delayed, from, gap);
  }

  /** A placed task: in order and complete. */
  ghost predicate TaskBuilt(task: TaskId, plan: seq<Sort>, interval: Interval, sequence: nat, events: seq<Event>, requests: seq<Request>) {
    && interval.hi - interval.lo > 10 * NS && TaskOk(events, requests, task, interval)
    && TaskComplete(plan, sequence, events, requests)
  }

  lemma Built(task: TaskId, plan: seq<Sort>, interval: Interval, sequence: nat, events: seq<Event>, requests: seq<Request>)
    requires interval.hi - interval.lo > 10 * NS && TaskOk(events, requests, task, interval)
    requires TaskComplete(plan, sequence, events, requests)
    ensures TaskBuilt(task, plan, interval, sequence, events, requests)
  {
  }

  method BuildTask(run: RunSpec, position: int, interval: Interval, isSpace: Spaces, sequence: nat)
    returns (r: Outcome, events: seq<Event>, requests: seq<Request>)
    requires run.pace + 95 >= 60 && (position == 1 || position == 2 || position == 4)
    ensures r != Overflow
    ensures r == Placed ==> TaskBuilt(TaskId(run.number, position), Plan(run, position), interval, sequence, events, requests)
    ensures r == Placed ==> PlanTime(Plan(run, position), run.pace, run.delayed, false) + 10 * NS < interval.hi - interval.lo
    ensures r != Placed ==> PlanTime(Plan(run, position), run.pace, run.delayed, true) + 10 * NS >= interval.hi - interval.lo
  {
    var ops := Compile(run, position, isSpace);
    r, events, requests := PlaceTask(ops, TaskId(run.number, position), run.delayed, Plan(run, position), interval, sequence);
  }

  method PlaceTask(ops: seq<Op>, task: TaskId, delayed: bool, ghost plan: seq<Sort>, interval: Interval, sequence: nat)
    returns (r: Outcome, events: seq<Event>, requests: seq<Request>)
    requires Ready(ops, delayed, task.position) && Sorts(ops) == plan
    ensures r == if Needed(ops) + 10 * NS < interval.hi - interval.lo then Placed else TooLong
    ensures r == Placed ==> TaskBuilt(task, plan, interval, sequence, events, requests)
  {
    r, events, requests := LayOut(ops, task, interval, delayed, sequence);
    if r == Placed {
      var gap := Gap(ops, interval);
      FittingTaskIsOk(ops, task, interval, delayed, sequence);
      TaskIsComplete(ops, task, delayed, plan, interval.lo + gap, gap, sequence, events, requests);
      NeededIsPositive(ops, delayed);
      Built(task, plan, interval, sequence, events, requests);
    }
  }

  lemma NumberedConcat(a: seq<Request>, b: seq<Request>)
    requires Numbered(a, 0) && Numbered(b, |a|)
    ensures Numbered(a + b, 0)
  {
  }

  lemma {:induction false} NeededIsPositive(ops: seq<Op>, delayed: bool)
    requires AllDrawn(ops, delayed)
    ensures Needed(ops) >= 0
  {
    if ops != [] {
      NeededIsPositive(ops[..|ops| - 1], delayed);
      OpInside(ops[|ops| - 1], TaskId(0, 0), delayed, 0);
    }
  }

  // ---------------------------------------------------------------- one run

  function Start(run: RunSpec, anchor: int): int {
    anchor + (run.number - 1) * 27 * NS
  }

  function Finish(run: RunSpec, anchor: int): int {
    Start(run, anchor) + run.minutes * 60 * NS
  }

  function SessionOf(run: RunSpec, anchor: int): Session {
    Session(run.number, Start(run, anchor), Start(run, anchor) + 45 * NS, Finish(run, anchor))
  }

  ghost predicate Partition(intervals: seq<Interval>, start: int, finish: int) {
    && |intervals| == 6 && Tiles(intervals, start + 75 * NS, finish - 15 * NS)
    && forall i :: 0 <= i < 6 ==> intervals[i].lo == start + 75 * NS + SharesBefore(finish - start - 90 * NS, i)
  }

  /** A task that is long enough shows that the session is. */
  lemma LongTaskLongSession(intervals: seq<Interval>, start: int, finish: int, p: int)
    requires Partition(intervals, start, finish) && 0 <= p < 5 && intervals[p].hi - intervals[p].lo > 0
    ensures finish - start > 90 * NS
  {
    var available := finish - start - 90 * NS;
    assert intervals[p].hi == intervals[p + 1].lo;
    assert SharesBefore(available, p + 1) == SharesBefore(available, p) + Share(available, WEIGHTS[p]);
  }

  lemma {:induction false} Ascending(intervals: seq<Interval>, start: int, finish: int, i: nat, j: nat)
    requires Partition(intervals, start, finish) && finish - start > 90 * NS && i <= j < 6
    ensures intervals[i].lo <= intervals[j].lo && (i < j ==> intervals[i].hi <= intervals[j].lo)
  {
    if i < j {
      var available := finish - start - 90 * NS;
      Ascending(intervals, start, finish, i, j - 1);
      ShareLength(available, WEIGHTS[j - 1]);
      assert SharesBefore(available, j) == SharesBefore(available, j - 1) + Share(available, WEIGHTS[j - 1]);
      assert i < j - 1 || intervals[i].hi == intervals[i + 1].lo;
    }
  }

  /** Every event outside a task or inside the interval of one of the run's tasks; every request too. */
  ghost predicate RowsOk(run: RunSpec, intervals: seq<Interval>, events: seq<Event>, requests: seq<Request>)
    requires |intervals| == 6
  {
    && (forall e :: e in events ==> EventOk(e, ByTask(run.number, intervals)))
    && (forall r :: r in requests ==> RequestOk(r, ByTask(run.number, intervals)))
  }

  function ByTask(number: int, intervals: seq<Interval>): map<TaskId, Interval>
    requires |intervals| == 6
  {
    map p | 0 <= p < 6 :: TaskId(number, p) := intervals[p]
  }

  lemma ByTaskAt(number: int, intervals: seq<Interval>, p: int)
    requires |intervals| == 6 && 0 <= p < 6
    ensures TaskId(number, p) in ByTask(number, intervals) && ByTask(number, intervals)[TaskId(number, p)] == intervals[p]
  {
  }

  lemma TaskRowsOk(run: RunSpec, intervals: seq<Interval>, p: int, events: seq<Event>, requests: seq<Request>)
    requires |intervals| == 6 && 0 <= p < 6 && TaskOk(events, requests, TaskId(run.number, p), intervals[p])
    ensures RowsOk(run, intervals, events, requests)
  {
    ByTaskAt(run.number, intervals, p);
  }

  lemma RowsConcat(run: RunSpec, intervals: seq<Interval>, a: seq<Event>, b: seq<Event>, q: seq<Request>, r: seq<Request>)
    requires |intervals| == 6 && RowsOk(run, intervals, a, q) && RowsOk(run, intervals, b, r)
    ensures RowsOk(run, intervals, a + b, q + r)
  {
  }

  function Warnings(run: RunSpec, start: int): seq<Event> {
    if !run.reminder then [] else
      [Event(WarningDisplayed, start + 50 * NS, None, UnknownField, None, None, None, 0),
       Event(WarningAcknowledged, start + 66 * NS, None, UnknownField, None, None, None, 0)]
  }

  /** Where the events placed so far end. */
  function Until(intervals: seq<Interval>, start: int, k: nat): int
    requires |intervals| == 6 && k <= 3
  {
    if k == 0 then start + 66 * NS else intervals[[1, 2, 4][k - 1]].hi
  }

  /** A run after k of its three tasks with operations. */
  ghost predicate Partly(run: RunSpec, start: int, finish: int, intervals: seq<Interval>, k: nat, events: seq<Event>, requests: seq<Request>) {
    && k <= 3 && Partition(intervals, start, finish) && (k > 0 ==> finish - start > 90 * NS)
    && Inside(events, start, Until(intervals, start, k)) && RowsOk(run, intervals, events, requests)
  }

  lemma PartlyNext(run: RunSpec, start: int, finish: int, intervals: seq<Interval>, k: nat,
      events: seq<Event>, requests: seq<Request>, more: seq<Event>, asked: seq<Request>)
    requires k < 3 && Partly(run, start, finish, intervals, k, events, requests)
    requires
      var p := [1, 2, 4][k];
      intervals[p].hi > intervals[p].lo && TaskOk(more, asked, TaskId(run.number, p), intervals[p])
    ensures Partly(run, start, finish, intervals, k + 1, events + more, requests + asked)
  {
    var p := [1, 2, 4][k];
    LongTaskLongSession(intervals, start, finish, p);
    Ascending(intervals, start, finish, 0, p);
    if k > 0 {
      Ascending(intervals, start, finish, [1, 2, 4][k - 1], p);
    }
    var until := Until(intervals, start, k);
    InsideWider(more, intervals[p].lo, intervals[p].hi, until, intervals[p].hi);
    assert start <= until by {
      if k > 0 {
        Ascending(intervals, start, finish, 0, [1, 2, 4][k - 1] + 1);
      }
    }
    InsideConcat(events, more, start, until, intervals[p].hi);
    TaskRowsOk(run, intervals, p, more, asked);
    RowsConcat(run, intervals, events, more, requests, asked);
  }

  /** A finished run: its tasks tile the session, its events come in the order of time, and all its rows are
      accepted by the validator. */
  ghost predicate RunOk(run: RunSpec, anchor: int, intervals: seq<Interval>, events: seq<Event>, requests: seq<Request>) {
    var start, finish := Start(run, anchor), Finish(run, anchor);
    && Partition(intervals, start, finish) && finish - start > 90 * NS
    && Inside(events, start, finish - 15 * NS) && RowsOk(run, intervals, events, requests)
  }

  lemma PartlyDone(run: RunSpec, anchor: int, intervals: seq<Interval>, events: seq<Event>, requests: seq<Request>)
    requires Partly(run, Start(run, anchor), Finish(run, anchor), intervals, 3, events, requests)
    ensures RunOk(run, anchor, intervals, events, requests)
  {
    var start, finish := Start(run, anchor), Finish(run, anchor);
    var available := finish - start - 90 * NS;
    LastTakesTheRest(available);
    ShareLength(available, 3);
    assert intervals[4].hi == intervals[5].lo;
    InsideWider(events, start, intervals[4].hi, start, finish - 15 * NS);
  }

  /** The answers and the number of requests of the first k tasks. */
  function AnswersUpTo(run: RunSpec, k: nat): seq<int>
    requires k <= 3
  {
    if k == 0 then [] else AnswersUpTo(run, k - 1) + ExpectedAnswers(run, [1, 2, 4][k - 1])
  }

  function ChatsUpTo(run: RunSpec, k: nat): nat
    requires k <= 3
  {
    if k == 0 then 0 else ChatsUpTo(run, k - 1) + |ChatsAt(run.chats, [1, 2, 4][k - 1])|
  }

  /** What a count comes to in the first k tasks. */
  function TotalUpTo(run: RunSpec, k: nat, c: Count): int
    requires k <= 3
  {
    if k == 0 then 0 else TotalUpTo(run, k - 1, c) + Total(Plan(run, [1, 2, 4][k - 1]), c)
  }

  ghost predicate CountsUpTo(run: RunSpec, k: nat, events: seq<Event>) {
    k <= 3 && forall c: Count :: Planned(c) ==> Tally(events, c) == TotalUpTo(run, k, c)
  }

  lemma CountsNext(run: RunSpec, k: nat, p: int, plan: seq<Sort>, events: seq<Event>, more: seq<Event>)
    requires k < 3 && p == [1, 2, 4][k] && plan == Plan(run, p) && CountsUpTo(run, k, events) && Reflects(more, plan)
    ensures CountsUpTo(run, k + 1, events + more)
  {
    forall c: Count | Planned(c)
      ensures Tally(events + more, c) == TotalUpTo(run, k + 1, c)
    {
      TallyConcat(events, more, c);
    }
  }

  lemma CountsInAll(run: RunSpec, events: seq<Event>)
    requires CountsUpTo(run, 3, events)
    ensures Reported(MaterialOf(run), events)
  {
    forall c: Count | Planned(c)
      ensures Tally(events, c) == RunPart(MaterialOf(run), c)
    {
      RunPlanTotal(run, c);
      assert TotalUpTo(run, 1, c) == Total(Plan(run, 1), c);
      assert TotalUpTo(run, 2, c) == TotalUpTo(run, 1, c) + Total(Plan(run, 2), c);
    }
    CountsAreReported(MaterialOf(run), events);
  }

  lemma WarningsCount(run: RunSpec, start: int)
    ensures CountsUpTo(run, 0, Warnings(run, start))
  {
    var events := Warnings(run, start);
    forall c: Count | Planned(c)
      ensures Tally(events, c) == 0
    {
      if run.reminder { TallyTwo(events[0], events[1], c); }
    }
  }

  /** Nothing is missing: a request per chat, numbered without gaps, an answer event per question, and the events of
      everything planned. */
  ghost predicate Counted(run: RunSpec, k: nat, events: seq<Event>, requests: seq<Request>) {
    && k <= 3 && Numbered(requests, 0) && |requests| == ChatsUpTo(run, k) && AnswersIn(events) == AnswersUpTo(run, k)
    && CountsUpTo(run, k, events)
  }

  lemma CountedNext(run: RunSpec, k: nat, p: int, plan: seq<Sort>, events: seq<Event>, requests: seq<Request>,
      more: seq<Event>, asked: seq<Request>)
    requires k < 3 && Counted(run, k, events, requests) && p == [1, 2, 4][k] && plan == Plan(run, p)
    requires Numbered(asked, |requests|) && |asked| == Total(plan, OfKind(FirstVisible))
    requires AnswersIn(more) == AnswersOf(plan) && Reflects(more, plan)
    ensures Counted(run, k + 1, events + more, requests + asked)
  {
    NumberedConcat(requests, asked);
    AnswersConcat(events, more);
    CountsNext(run, k, p, plan, events, more);
    PlanAnswers(run, p);
    PlanAsks(run, MaterialOf(run), p, OfKind(FirstVisible));
  }

  ghost predicate Progress(run: RunSpec, start: int, finish: int, intervals: seq<Interval>, k: nat, events: seq<Event>, requests: seq<Request>) {
    Partly(run, start, finish, intervals, k, events, requests) && Counted(run, k, events, requests)
  }

  lemma ProgressNext(run: RunSpec, start: int, finish: int, intervals: seq<Interval>, k: nat,
      events: seq<Event>, requests: seq<Request>, more: seq<Event>, asked: seq<Request>)
    requires k < 3 && Progress(run, start, finish, intervals, k, events, requests)
    requires TaskBuilt(TaskId(run.number, [1, 2, 4][k]), Plan(run, [1, 2, 4][k]), intervals[[1, 2, 4][k]], |requests|, more, asked)
    ensures Progress(run, start, finish, intervals, k + 1, events + more, requests + asked)
  {
    PartlyNext(run, start, finish, intervals, k, events, requests, more, asked);
    CountedNext(run, k, [1, 2, 4][k], Plan(run, [1, 2, 4][k]), events, requests, more, asked);
  }

  lemma ProgressStart(run: RunSpec, start: int, finish: int, intervals: seq<Interval>)
    requires Partition(intervals, start, finish)
    ensures Progress(run, start, finish, intervals, 0, Warnings(run, start), [])
  {
    NoAnswers(Warnings(run, start));
    WarningsCount(run, start);
  }

  lemma TaskLength(run: RunSpec, anchor: int, intervals: seq<Interval>, p: int)
    requires Partition(intervals, Start(run, anchor), Finish(run, anchor)) && 0 <= p < 5
    ensures intervals[p].hi - intervals[p].lo == TaskTime(run, p)
  {
    var available := run.minutes * 60 * NS - 90 * NS;
    assert intervals[p].hi == intervals[p + 1].lo;
    assert SharesBefore(available, p + 1) == SharesBefore(available, p) + Share(available, WEIGHTS[p]);
  }

  /** None of the first k tasks is too long even if drawn as short as can be. */
  ghost predicate UncrowdedUpTo(run: RunSpec, k: nat) {
    k <= 3 && forall i :: 0 <= i < k ==>
      PlanTime(Plan(run, [1, 2, 4][i]), run.pace, run.delayed, false) + 10 * NS < TaskTime(run, [1, 2, 4][i])
  }

  lemma UncrowdedNext(run: RunSpec, k: nat, p: int)
    requires k < 3 && p == [1, 2, 4][k] && UncrowdedUpTo(run, k)
    requires PlanTime(Plan(run, p), run.pace, run.delayed, false) + 10 * NS < TaskTime(run, p)
    ensures UncrowdedUpTo(run, k + 1)
  {
  }

  /** One of the tasks with operations. */
  method BuildTaskOf(run: RunSpec, anchor: int, intervals: seq<Interval>, position: int, isSpace: Spaces, sequence: nat)
    returns (r: Outcome, events: seq<Event>, requests: seq<Request>)
    requires run.pace + 95 >= 60 && (position == 1 || position == 2 || position == 4)
    requires Partition(intervals, Start(run, anchor), Finish(run, anchor))
    ensures r != Overflow
    ensures r == Placed ==>
      TaskBuilt(TaskId(run.number, position), Plan(run, position), intervals[position], sequence, events, requests)
    ensures r == Placed ==> PlanTime(Plan(run, position), run.pace, run.delayed, false) + 10 * NS < TaskTime(run, position)
    ensures r != Placed ==> !Roomy(run)
  {
    TaskLength(run, anchor, intervals, position);
    r, events, requests := BuildTask(run, position, intervals[position], isSpace, sequence);
    assert position in {1, 2, 4};
  }

  lemma Uncrowded(run: RunSpec)
    requires UncrowdedUpTo(run, 3)
    ensures !Crowded(run)
  {
    forall p | p in {1, 2, 4}
      ensures PlanTime(Plan(run, p), run.pace, run.delayed, false) + 10 * NS < TaskTime(run, p)
    {
      assert p == [1, 2, 4][0] || p == [1, 2, 4][1] || p == [1, 2, 4][2];
    }
  }

  /** build_run, as far as times go. */
  method BuildRun(run: RunSpec, anchor: int, isSpace: Spaces)
    returns (r: Outcome, intervals: seq<Interval>, events: seq<Event>, requests: seq<Request>)
    requires run.pace + 95 >= 60
    ensures r != Overflow
    ensures r == Placed ==> RunOk(run, anchor, intervals, events, requests) && Counted(run, 3, events, requests)
    ensures r == Placed ==> Reported(MaterialOf(run), events)
    ensures (Roomy(run) ==> r == Placed) && (Crowded(run) ==> r != Placed)
  {
    var start, finish := Start(run, anchor), Finish(run, anchor);
    intervals := TaskIntervals(start, finish);
    events, requests := Warnings(run, start), [];
    ProgressStart(run, start, finish, intervals);
    var positions := [1, 2, 4];
    for k := 0 to 3
      invariant Progress(run, start, finish, intervals, k, events, requests) && UncrowdedUpTo(run, k)
    {
      var position := positions[k];
      var more, asked;
      r, more, asked := BuildTaskOf(run, anchor, intervals, position, isSpace, |requests|);
      if r != Placed {
        return;
      }
      ProgressNext(run, start, finish, intervals, k, events, requests, more, asked);
      UncrowdedNext(run, k, position);
      events, requests := events + more, requests + asked;
    }
    PartlyDone(run, anchor, intervals, events, requests);
    CountsInAll(run, events);
    Uncrowded(run);
    r := Placed;
  }

  // ---------------------------------------------------------------- the batch

  predicate Known(t: Tables, number: int) {
    exists p: int :: 0 <= p < 6 && TaskId(number, p) in t.intervals
  }

  /** The tables with the rows of one more run. */
  function AddRun(t: Tables, run: RunSpec, anchor: int, intervals: seq<Interval>, events: seq<Event>, requests: seq<Request>): Tables
    requires |intervals| == 6
  {
    Tables(t.sessions + [SessionOf(run, anchor)], t.intervals + ByTask(run.number, intervals),
           t.events + events, t.requests + requests)
  }

  /** A row that was accepted stays accepted when another run's intervals are added. */
  lemma OldRowsStayOk(t: Tables, more: map<TaskId, Interval>)
    requires Sound(t) && t.intervals.Keys !! more.Keys
    ensures forall e :: e in t.events ==> EventOk(e, t.intervals + more)
    ensures forall r :: r in t.requests ==> RequestOk(r, t.intervals + more)
  {
  }

  lemma NewRowsStayOk(before: map<TaskId, Interval>, more: map<TaskId, Interval>, events: seq<Event>, requests: seq<Request>)
    requires forall e :: e in events ==> EventOk(e, more)
    requires forall r :: r in requests ==> RequestOk(r, more)
    ensures forall e :: e in events ==> EventOk(e, before + more)
    ensures forall r :: r in requests ==> RequestOk(r, before + more)
  {
  }

  lemma AddRunKeepsSound(t: Tables, run: RunSpec, anchor: int, intervals: seq<Interval>, events: seq<Event>, requests: seq<Request>)
    requires Sound(t) && !Known(t, run.number) && RunOk(run, anchor, intervals, events, requests)
    ensures Sound(AddRun(t, run, anchor, intervals, events, requests))
  {
    var more := ByTask(run.number, intervals);
    assert t.intervals.Keys !! more.Keys;
    OldRowsStayOk(t, more);
    NewRowsStayOk(t.intervals, more, events, requests);
  }

  lemma SoundIsLinked(t: Tables)
    requires Sound(t)
    ensures Linked(t)
  {
  }

  class Batch {
    const anchor: int
    var tables: Tables

    constructor (anchor: int)
      ensures this.anchor == anchor && tables == Tables([], map[], [], [])
    {
      this.anchor := anchor;
      tables := Tables([], map[], [], []);
    }

    /** One run: its rows are added if it can be built. */
    method BuildOne(run: RunSpec, isSpace: Spaces) returns (r: Outcome)
      requires Sound(tables) && !Known(tables, run.number) && run.pace + 95 >= 60
      modifies this`tables
      ensures r != Overflow
      ensures r == Placed ==> Sound(tables) && tables.sessions == old(tables).sessions + [SessionOf(run, anchor)]
      ensures r == Placed ==> forall id :: id in tables.intervals ==> id in old(tables).intervals || id.run == run.number
      ensures r == Placed ==> |tables.requests| == |old(tables).requests| + ChatsUpTo(run, 3)
      ensures r != Placed ==> tables == old(tables)
      ensures (Roomy(run) ==> r == Placed) && (Crowded(run) ==> r != Placed)
    {
      var intervals, events, requests;
      r, intervals, events, requests := BuildRun(run, anchor, isSpace);
      if r == Placed {
        AddRunKeepsSound(tables, run, anchor, intervals, events, requests);
        tables := AddRun(tables, run, anchor, intervals, events, requests);
      }
    }

    /** build: one run after the other; a run that does not fit stops it. */
    method Build(runs: seq<RunSpec>, isSpace: Spaces) returns (r: Outcome)
      requires tables == Tables([], map[], [], [])
      requires forall i :: 0 <= i < |runs| ==> runs[i].pace + 95 >= 60
      requires forall i, j :: 0 <= i < j < |runs| ==> runs[i].number != runs[j].number
      modifies this`tables
      ensures r != Overflow
      ensures r == Placed ==> Sound(tables) && |tables.sessions| == |runs|
      ensures r == Placed ==> forall i :: 0 <= i < |runs| ==> tables.sessions[i] == SessionOf(runs[i], anchor)
      ensures r == Placed ==> forall i :: 0 <= i < |runs| ==>
        && tables.sessions[i].createdAt == anchor + 27_000_000_000 * (runs[i].number - 1)
        && tables.sessions[i].completedAt == tables.sessions[i].createdAt + 60_000_000_000 * runs[i].minutes
      ensures (forall i :: 0 <= i < |runs| ==> Roomy(runs[i])) ==> r == Placed
      ensures r == Placed ==> forall i :: 0 <= i < |runs| ==> !Crowded(runs[i])
    {
      r := Placed;
      for i := 0 to |runs|
        invariant r == Placed && Sound(tables) && |tables.sessions| == i
        invariant forall k :: 0 <= k < i ==> tables.sessions[k] == SessionOf(runs[k], anchor) && !Crowded(runs[k])
        invariant forall id :: id in tables.intervals ==> exists k :: 0 <= k < i && id.run == runs[k].number
      {
        r := BuildOne(runs[i], isSpace);
        if r != Placed {
          return;
        }
      }
    }
  }

  /** A batch that could be built passes its validator exactly when its last session is over a second ago. */
  method BuildAndValidate(runs: seq<RunSpec>, anchor: int, now: int, isSpace: Spaces) returns (r: Outcome, fault: Option<Fault>)
    requires forall i :: 0 <= i < |runs| ==> runs[i].pace + 95 >= 60
    requires forall i, j :: 0 <= i < j < |runs| ==> runs[i].number != runs[j].number
    ensures r != Overflow
    ensures r == Placed ==> (fault == None <==> forall i :: 0 <= i < |runs| ==> Finish(runs[i], anchor) < now - NS)
    ensures (forall i :: 0 <= i < |runs| ==> Roomy(runs[i])) ==> r == Placed
    ensures r == Placed ==> forall i :: 0 <= i < |runs| ==> !Crowded(runs[i])
  {
    var batch := new Batch(anchor);
    r := batch.Build(runs, isSpace);
    fault := None;
    if r == Placed {
      SoundIsLinked(batch.tables);
      fault := Validate(batch.tables, now);
      assert forall i :: 0 <= i < |runs| ==> batch.tables.sessions[i] in batch.tables.sessions;
    }
  }
}
