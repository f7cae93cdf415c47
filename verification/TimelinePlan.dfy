/**
 What the operations of a run are, in kind and order, and what its events report of them: the characters typed in
 each field, the requests, the absences, the copied and pasted texts and the answers.
 */
module TimelinePlan {
  import opened Common
  import opened Timeline
  import EssayPlan

  datatype Chat = Chat(position: int, user: string, paste: string)

  datatype Question = Question(position: int, id: int, content: string)

  datatype RunSpec = RunSpec(number: int, minutes: int, delayed: bool, reminder: bool, pace: int,
                             chats: seq<Chat>, away: seq<nat>, essay: string, questions: seq<Question>)

  // ---------------------------------------------------------------- the plan of a task

  /** An operation without its draws: what is typed is known by the number of characters it leaves. */
  datatype Sort =
    | Types(net: int, field: Field, question: Option<int>)
    | Asks
    | Leaves(seconds: nat)
    | Pastes(length: nat)
    | Copies(length: nat)
    | Answers(id: int)

  function SortOf(op: Op): Sort {
    match op
    case Typing(presses, field, question) => Types(Net(presses), field, question)
    case Ask(_) => Asks
    case Away(seconds) => Leaves(seconds)
    case Paste(length) => Pastes(length)
    case Copy(length) => Copies(length)
    case Answer(id) => Answers(id)
  }

  function Sorts(ops: seq<Op>): seq<Sort> {
    if ops == [] then [] else Sorts(ops[..|ops| - 1]) + [SortOf(ops[|ops| - 1])]
  }

  lemma SortsOneMore(ops: seq<Op>, op: Op)
    ensures Sorts(ops + [op]) == Sorts(ops) + [SortOf(op)]
  {
  }

  /** The most, or the least, time that an operation can be drawn to take. */
  function TimeOf(s: Sort, pace: int, delayed: bool, slow: bool): int {
    match s
    case Types(net, _, _) => if net < 0 then 0 else TypingTime(net, pace, slow) * MS
    case Asks => ((if slow then 4000 else 2400) + (if delayed then 3000 else 0)) * MS
    case Leaves(seconds) => seconds * NS
    case _ => NS
  }

  function PlanTime(plan: seq<Sort>, pace: int, delayed: bool, slow: bool): int {
    if plan == [] then 0 else PlanTime(plan[..|plan| - 1], pace, delayed, slow) + TimeOf(plan[|plan| - 1], pace, delayed, slow)
  }

  lemma PlanTimeOneMore(plan: seq<Sort>, s: Sort, pace: int, delayed: bool, slow: bool)
    ensures PlanTime(plan + [s], pace, delayed, slow) == PlanTime(plan, pace, delayed, slow) + TimeOf(s, pace, delayed, slow)
  {
  }

  ghost predicate Timed(op: Op, pace: int, delayed: bool) {
    TimeOf(SortOf(op), pace, delayed, false) <= Duration(op) <= TimeOf(SortOf(op), pace, delayed, true)
  }

  ghost predicate AllTimed(ops: seq<Op>, plan: seq<Sort>, pace: int, delayed: bool) {
    PlanTime(plan, pace, delayed, false) <= Needed(ops) <= PlanTime(plan, pace, delayed, true)
  }

  lemma TimedOneMore(ops: seq<Op>, op: Op, plan: seq<Sort>, pace: int, delayed: bool)
    requires AllTimed(ops, plan, pace, delayed) && Timed(op, pace, delayed)
    ensures AllTimed(ops + [op], plan + [SortOf(op)], pace, delayed)
  {
    PlanTimeOneMore(plan, SortOf(op), pace, delayed, false);
    PlanTimeOneMore(plan, SortOf(op), pace, delayed, true);
    assert (ops + [op])[..|ops|] == ops;
  }

  /** The time of a task in a session: its share. */
  function TaskTime(run: RunSpec, position: int): int
    requires 0 <= position < 5
  {
    Share(run.minutes * 60 * NS - 90 * NS, WEIGHTS[position])
  }

  /** Whatever is drawn, the operations of the three tasks fit. */
  predicate Roomy(run: RunSpec) {
    forall p :: p in {1, 2, 4} ==> PlanTime(Plan(run, p), run.pace, run.delayed, true) + 10 * NS < TaskTime(run, p)
  }

  /** Whatever is drawn, those of some task do not. */
  predicate Crowded(run: RunSpec) {
    exists p :: p in {1, 2, 4} && PlanTime(Plan(run, p), run.pace, run.delayed, false) + 10 * NS >= TaskTime(run, p)
  }

  function ChatsAt(chats: seq<Chat>, position: int): seq<Chat> {
    if chats == [] then []
    else ChatsAt(chats[..|chats| - 1], position) + (if chats[|chats| - 1].position == position then [chats[|chats| - 1]] else [])
  }

  function QuestionsAt(questions: seq<Question>, position: int): seq<Question> {
    if questions == [] then [] else
      var last := questions[|questions| - 1];
      QuestionsAt(questions[..|questions| - 1], position) + (if last.position == position then [last] else [])
  }

  /** All texts that the chats paste into the essay. */
  function PastedText(chats: seq<Chat>): string {
    if chats == [] then "" else PastedText(chats[..|chats| - 1]) + chats[|chats| - 1].paste
  }

  /** run['essay'].replace(pasted, '', 1) */
  function ReplaceOnce(text: string, part: string): string {
    match EssayPlan.Find(text, part)
    case None => text
    case Some(i) => text[..i] + text[i + |part|..]
  }

  /** What is typed of the essay is as long as the essay without the pasted text. */
  lemma TypedLength(essay: string, pasted: string)
    ensures |ReplaceOnce(essay, pasted)| == |essay| - (if exists i: nat :: EssayPlan.At(essay, pasted, i) then |pasted| else 0)
  {
    if EssayPlan.Find(essay, pasted).None? {
      EssayPlan.NeverThere(essay, pasted);
    }
  }

  /** len(run['essay'].split('.')[0] + '.') */
  function FirstSentence(essay: string): nat {
    match EssayPlan.Find(essay, ".")
    case None => |essay| + 1
    case Some(i) => i + 1
  }

  /** Each chat is typed and asked. */
  function ChatPlan(chats: seq<Chat>): seq<Sort> {
    if chats == [] then []
    else ChatPlan(chats[..|chats| - 1]) + [Types(|chats[|chats| - 1].user|, ChatField, None), Asks]
  }

  function AwayPlan(away: seq<nat>): seq<Sort> {
    if away == [] then [] else AwayPlan(away[..|away| - 1]) + [Leaves(away[|away| - 1])]
  }

  function PastePlan(pasted: string): seq<Sort> {
    if pasted == "" then [] else [Pastes(|pasted|)]
  }

  predicate CopiesItsEssay(number: int) {
    number in {1, 4, 7, 8, 9}
  }

  function CopyPlan(essay: string, copies: bool): seq<Sort> {
    if copies then [Copies(FirstSentence(essay))] else []
  }

  /** What of the essay is typed. */
  function TypedOfEssay(essay: string, pasted: string): string {
    if pasted == "" then essay else ReplaceOnce(essay, pasted)
  }

  /** Essay: the absences, one paste of all pasted texts, the rest typed, and for some runs a copy. */
  function EssayPlanOf(away: seq<nat>, essay: string, pasted: string, copies: bool): seq<Sort> {
    AwayPlan(away) + PastePlan(pasted) + [Types(|TypedOfEssay(essay, pasted)|, EssayField, None)] + CopyPlan(essay, copies)
  }

  function ContentPlan(q: Question): seq<Sort> {
    if q.content == "" then [] else [Types(|q.content|, QuestionField, Some(q.id))]
  }

  /** Each question's text is typed, if it has one, and answered. */
  function QuestionPlan(questions: seq<Question>): seq<Sort> {
    if questions == [] then []
    else
      var last := questions[|questions| - 1];
      QuestionPlan(questions[..|questions| - 1]) + ContentPlan(last) + [Answers(last.id)]
  }

  /** The operations of a task in kind and order. */
  function Plan(run: RunSpec, position: int): seq<Sort> {
    ChatPlan(ChatsAt(run.chats, position))
      + if position == 2 then EssayPlanOf(run.away, run.essay, PastedText(ChatsAt(run.chats, position)), CopiesItsEssay(run.number))
        else QuestionPlan(QuestionsAt(run.questions, position))
  }

  /** The chats of a task, in their order: the two equations determine them. */
  lemma {:induction false} ChatsAtExactly(a: seq<Chat>, b: seq<Chat>, c: Chat, position: int)
    ensures ChatsAt(a + b, position) == ChatsAt(a, position) + ChatsAt(b, position)
    ensures ChatsAt([c], position) == if c.position == position then [c] else []
    decreases |b|
  {
    assert [c][..0] == [] && ChatsAt([], position) == [];
    if b == [] {
      assert a + b == a;
    } else {
      assert (a + b)[..|a + b| - 1] == a + b[..|b| - 1];
      ChatsAtExactly(a, b[..|b| - 1], c, position);
    }
  }

  lemma {:induction false} QuestionsAtExactly(a: seq<Question>, b: seq<Question>, q: Question, position: int)
    ensures QuestionsAt(a + b, position) == QuestionsAt(a, position) + QuestionsAt(b, position)
    ensures QuestionsAt([q], position) == if q.position == position then [q] else []
    decreases |b|
  {
    assert [q][..0] == [] && QuestionsAt([], position) == [];
    if b == [] {
      assert a + b == a;
    } else {
      assert (a + b)[..|a + b| - 1] == a + b[..|b| - 1];
      QuestionsAtExactly(a, b[..|b| - 1], q, position);
    }
  }

  lemma {:induction false} PastedTextExactly(a: seq<Chat>, b: seq<Chat>, c: Chat)
    ensures PastedText(a + b) == PastedText(a) + PastedText(b) && PastedText([c]) == c.paste
    decreases |b|
  {
    assert [c][..0] == [] && PastedText([]) == "";
    if b == [] {
      assert a + b == a;
    } else {
      assert (a + b)[..|a + b| - 1] == a + b[..|b| - 1];
      PastedTextExactly(a, b[..|b| - 1], c);
    }
  }

  // ---------------------------------------------------------------- counting

  /** What can be counted in events. */
  datatype Count =
    | KeysIn(field: Field, question: Option<int>)  // characters left by the keystrokes in a field
    | OfKind(kind: EventKind)
    | AmountOf(kind: EventKind)

  function Weight(e: Event, c: Count): int {
    match c
    case KeysIn(field, question) =>
      if e.kind == Keystroke && e.field == field && e.question == question then (if e.key == Some(BackspaceKey) then -1 else 1) else 0
    case OfKind(kind) => if e.kind == kind then 1 else 0
    case AmountOf(kind) => if e.kind == kind then e.amount else 0
  }

  function Tally(events: seq<Event>, c: Count): int {
    if events == [] then 0 else Tally(events[..|events| - 1], c) + Weight(events[|events| - 1], c)
  }

  lemma {:induction false} TallyConcat(a: seq<Event>, b: seq<Event>, c: Count)
    ensures Tally(a + b, c) == Tally(a, c) + Tally(b, c)
    decreases |b|
  {
    if b == [] {
      assert a + b == a;
    } else {
      assert (a + b)[..|a + b| - 1] == a + b[..|b| - 1];
      TallyConcat(a, b[..|b| - 1], c);
    }
  }

  lemma TallyOneMore(events: seq<Event>, e: Event, c: Count)
    ensures Tally(events + [e], c) == Tally(events, c) + Weight(e, c)
  {
  }

  /** What an operation adds to a count; the number of keystrokes depends on the draws. */
  function Part(s: Sort, c: Count): int {
    match s
    case Types(net, field, question) => if c == KeysIn(field, question) then net else 0
    case Asks => if c == OfKind(FirstVisible) || c == OfKind(CompletedVisible) then 1 else 0
    case Leaves(seconds) =>
      if c == OfKind(FocusAway) || c == OfKind(FocusReturn) || c == AmountOf(VisibilityChange) then 1
      else if c == OfKind(VisibilityChange) then 2
      else if c == AmountOf(FocusReturn) then seconds * 1000
      else 0
    case Pastes(length) => if c == OfKind(Pasted) then 1 else if c == AmountOf(Pasted) then length else 0
    case Copies(length) => if c == OfKind(Copied) then 1 else if c == AmountOf(Copied) then length else 0
    case Answers(_) => if c == OfKind(AnswerChange) then 1 else 0
  }

  function Total(plan: seq<Sort>, c: Count): int {
    if plan == [] then 0 else Total(plan[..|plan| - 1], c) + Part(plan[|plan| - 1], c)
  }

  lemma {:induction false} TotalConcat(a: seq<Sort>, b: seq<Sort>, c: Count)
    ensures Total(a + b, c) == Total(a, c) + Total(b, c)
    decreases |b|
  {
    if b == [] {
      assert a + b == a;
    } else {
      assert (a + b)[..|a + b| - 1] == a + b[..|b| - 1];
      TotalConcat(a, b[..|b| - 1], c);
    }
  }

  lemma TotalOne(s: Sort, c: Count)
    ensures Total([s], c) == Part(s, c)
  {
    assert [s][..0] == [] && Total([], c) == 0;
  }

  lemma {:induction false} PressesTally(presses: seq<Press>, task: TaskId, field: Field, question: Option<int>, at: int, c: Count)
    requires c != OfKind(Keystroke)
    ensures Tally(PressEvents(presses, task, field, question, at), c) == if c == KeysIn(field, question) then Net(presses) else 0
  {
    if presses != [] {
      var init, last := presses[..|presses| - 1], presses[|presses| - 1];
      PressesTally(init, task, field, question, at, c);
      TallyOneMore(PressEvents(init, task, field, question, at), KeyEvent(last, at + Intervals(presses) * MS, task, field, question), c);
    }
  }

  lemma TallyTwo(a: Event, b: Event, c: Count)
    ensures Tally([a], c) == Weight(a, c) && Tally([a, b], c) == Weight(a, c) + Weight(b, c)
  {
    assert [a][..0] == [] && Tally([], c) == 0;
    assert [a, b][..1] == [a];
  }

  lemma AwayTally(seconds: nat, task: TaskId, delayed: bool, at: int, c: Count)
    ensures Tally(OpEvents(Away(seconds), task, delayed, at), c) == Part(Leaves(seconds), c)
  {
    var events := OpEvents(Away(seconds), task, delayed, at);
    TallyTwo(events[0], events[1], c);
    TallyTwo(events[2], events[3], c);
    assert events == [events[0], events[1]] + [events[2], events[3]];
    TallyConcat([events[0], events[1]], [events[2], events[3]], c);
  }

  lemma AskTally(duration: int, task: TaskId, delayed: bool, at: int, c: Count)
    ensures Tally(OpEvents(Ask(duration), task, delayed, at), c) == Part(Asks, c)
  {
    var events := OpEvents(Ask(duration), task, delayed, at);
    TallyTwo(events[0], events[1], c);
  }

  /** The events of an operation report it. */
  lemma OpTally(op: Op, task: TaskId, delayed: bool, at: int, c: Count)
    requires c != OfKind(Keystroke)
    ensures Tally(OpEvents(op, task, delayed, at), c) == Part(SortOf(op), c)
  {
    match op
    case Typing(presses, field, question) => PressesTally(presses, task, field, question, at, c);
    case Ask(duration) => AskTally(duration, task, delayed, at, c);
    case Away(seconds) => AwayTally(seconds, task, delayed, at, c);
    case _ =>
      var e := OpEvents(op, task, delayed, at)[0];
      TallyTwo(e, e, c);
  }

  /** The events of a task report its operations. */
  lemma {:induction false} TaskTally(ops: seq<Op>, task: TaskId, delayed: bool, from: int, gap: int, c: Count)
    requires c != OfKind(Keystroke)
    ensures Tally(TaskEvents(ops, task, delayed, from, gap), c) == Total(Sorts(ops), c)
  {
    if ops != [] {
      var init, last := ops[..|ops| - 1], ops[|ops| - 1];
      var at := NextStart(init, from, gap);
      TaskTally(init, task, delayed, from, gap, c);
      OpTally(last, task, delayed, at, c);
      TallyConcat(TaskEvents(init, task, delayed, from, gap), OpEvents(last, task, delayed, at), c);
      TotalConcat(Sorts(init), [SortOf(last)], c);
      TotalOne(SortOf(last), c);
    }
  }

  // ---------------------------------------------------------------- what a plan comes to

  /** All characters of the chats' messages. */
  function Letters(chats: seq<Chat>): nat {
    if chats == [] then 0 else Letters(chats[..|chats| - 1]) + |chats[|chats| - 1].user|
  }

  function ChatPart(chats: seq<Chat>, c: Count): nat {
    if c == KeysIn(ChatField, None) then Letters(chats)
    else if c == OfKind(FirstVisible) || c == OfKind(CompletedVisible) then |chats|
    else 0
  }

  lemma {:induction false} ChatPlanTotal(chats: seq<Chat>, c: Count)
    ensures Total(ChatPlan(chats), c) == ChatPart(chats, c)
  {
    if chats != [] {
      var typing := Types(|chats[|chats| - 1].user|, ChatField, None);
      ChatPlanTotal(chats[..|chats| - 1], c);
      TotalConcat(ChatPlan(chats[..|chats| - 1]), [typing, Asks], c);
      TotalTwo(typing, Asks, c);
    }
  }

  lemma TotalTwo(a: Sort, b: Sort, c: Count)
    ensures Total([a, b], c) == Part(a, c) + Part(b, c)
  {
    TotalOne(a, c);
    assert [a, b][..1] == [a];
  }

  function Sum(numbers: seq<nat>): nat {
    if numbers == [] then 0 else Sum(numbers[..|numbers| - 1]) + numbers[|numbers| - 1]
  }

  function AwayPart(away: seq<nat>, c: Count): nat {
    if c == OfKind(FocusAway) || c == OfKind(FocusReturn) || c == AmountOf(VisibilityChange) then |away|
    else if c == OfKind(VisibilityChange) then 2 * |away|
    else if c == AmountOf(FocusReturn) then 1000 * Sum(away)
    else 0
  }

  lemma {:induction false} AwayPlanTotal(away: seq<nat>, c: Count)
    ensures Total(AwayPlan(away), c) == AwayPart(away, c)
  {
    if away != [] {
      AwayPlanTotal(away[..|away| - 1], c);
      TotalConcat(AwayPlan(away[..|away| - 1]), [Leaves(away[|away| - 1])], c);
      TotalOne(Leaves(away[|away| - 1]), c);
    }
  }

  /** All characters typed for a question. */
  function ContentOf(questions: seq<Question>, id: int): nat {
    if questions == [] then 0
    else ContentOf(questions[..|questions| - 1], id) + (if questions[|questions| - 1].id == id then |questions[|questions| - 1].content| else 0)
  }

  lemma ContentPlanTotal(q: Question, c: Count)
    ensures Total(ContentPlan(q), c) == if c == KeysIn(QuestionField, Some(q.id)) then |q.content| else 0
  {
    if q.content != "" {
      TotalOne(Types(|q.content|, QuestionField, Some(q.id)), c);
    }
  }

  function QuestionPart(questions: seq<Question>, c: Count): nat {
    if c.KeysIn? && c.field == QuestionField && c.question.Some? then ContentOf(questions, c.question.value)
    else if c == OfKind(AnswerChange) then |questions|
    else 0
  }

  lemma {:induction false} QuestionPlanTotal(questions: seq<Question>, c: Count)
    ensures Total(QuestionPlan(questions), c) == QuestionPart(questions, c)
  {
    if questions != [] {
      var init, last := questions[..|questions| - 1], questions[|questions| - 1];
      QuestionPlanTotal(init, c);
      ContentPlanTotal(last, c);
      TotalOne(Answers(last.id), c);
      TotalConcat(QuestionPlan(init), ContentPlan(last), c);
      TotalConcat(QuestionPlan(init) + ContentPlan(last), [Answers(last.id)], c);
    }
  }

  /** What a run is made of, task by task. */
  datatype Material = Material(
    first: seq<Chat>, second: seq<Chat>, third: seq<Chat>,  // the chats of the three tasks
    earlier: seq<Question>, later: seq<Question>,           // the questions of the first and the last
    away: seq<nat>, essay: string, pasted: string, copies: bool
  )

  function MaterialOf(run: RunSpec): Material {
    Material(ChatsAt(run.chats, 1), ChatsAt(run.chats, 2), ChatsAt(run.chats, 4),
             QuestionsAt(run.questions, 1), QuestionsAt(run.questions, 4),
             run.away, run.essay, PastedText(ChatsAt(run.chats, 2)), CopiesItsEssay(run.number))
  }

  /** What the essay adds to a count, apart from the absences. */
  function EssayPart(essay: string, pasted: string, copies: bool, c: Count): int {
    if c == KeysIn(EssayField, None) then |TypedOfEssay(essay, pasted)|
    else if c == OfKind(Pasted) then (if pasted == "" then 0 else 1)
    else if c == AmountOf(Pasted) then |pasted|
    else if c == OfKind(Copied) then (if copies then 1 else 0)
    else if c == AmountOf(Copied) then (if copies then FirstSentence(essay) else 0)
    else 0
  }

  lemma PasteTotal(pasted: string, c: Count)
    ensures Total(PastePlan(pasted), c) ==
      if c == OfKind(Pasted) then (if pasted == "" then 0 else 1) else if c == AmountOf(Pasted) then |pasted| else 0
  {
    TotalOne(Pastes(|pasted|), c);
  }

  lemma CopyTotal(essay: string, copies: bool, c: Count)
    ensures Total(CopyPlan(essay, copies), c) ==
      if !copies then 0 else if c == OfKind(Copied) then 1 else if c == AmountOf(Copied) then FirstSentence(essay) else 0
  {
    TotalOne(Copies(FirstSentence(essay)), c);
  }

  lemma TotalFour(a: seq<Sort>, b: seq<Sort>, s: Sort, d: seq<Sort>, c: Count)
    ensures Total(a + b + [s] + d, c) == Total(a, c) + Total(b, c) + Part(s, c) + Total(d, c)
  {
    TotalConcat(a, b, c);
    TotalConcat(a + b, [s], c);
    TotalConcat(a + b + [s], d, c);
    TotalOne(s, c);
  }

  lemma EssayPlanTotal(away: seq<nat>, essay: string, pasted: string, copies: bool, c: Count)
    ensures Total(EssayPlanOf(away, essay, pasted, copies), c) == AwayPart(away, c) + EssayPart(essay, pasted, copies, c)
  {
    var typing := Types(|TypedOfEssay(essay, pasted)|, EssayField, None);
    TotalFour(AwayPlan(away), PastePlan(pasted), typing, CopyPlan(essay, copies), c);
    AwayPlanTotal(away, c);
    PasteTotal(pasted, c);
    CopyTotal(essay, copies, c);
  }

  /** What a run's operations come to. */
  function RunPart(m: Material, c: Count): int {
    ChatPart(m.first, c) + ChatPart(m.second, c) + ChatPart(m.third, c) + QuestionPart(m.earlier, c) + QuestionPart(m.later, c)
      + AwayPart(m.away, c) + EssayPart(m.essay, m.pasted, m.copies, c)
  }

  lemma QuestionTaskTotal(chats: seq<Chat>, questions: seq<Question>, c: Count)
    ensures Total(ChatPlan(chats) + QuestionPlan(questions), c) == ChatPart(chats, c) + QuestionPart(questions, c)
  {
    TotalConcat(ChatPlan(chats), QuestionPlan(questions), c);
    ChatPlanTotal(chats, c);
    QuestionPlanTotal(questions, c);
  }

  lemma EssayTaskTotal(m: Material, c: Count)
    ensures Total(ChatPlan(m.second) + EssayPlanOf(m.away, m.essay, m.pasted, m.copies), c)
      == ChatPart(m.second, c) + AwayPart(m.away, c) + EssayPart(m.essay, m.pasted, m.copies, c)
  {
    TotalConcat(ChatPlan(m.second), EssayPlanOf(m.away, m.essay, m.pasted, m.copies), c);
    ChatPlanTotal(m.second, c);
    EssayPlanTotal(m.away, m.essay, m.pasted, m.copies, c);
  }

  lemma RunPlanTotal(run: RunSpec, c: Count)
    ensures Total(Plan(run, 1), c) + Total(Plan(run, 2), c) + Total(Plan(run, 4), c) == RunPart(MaterialOf(run), c)
  {
    var m := MaterialOf(run);
    QuestionTaskTotal(m.first, m.earlier, c);
    EssayTaskTotal(m, c);
    QuestionTaskTotal(m.third, m.later, c);
  }

  // ---------------------------------------------------------------- what a run reports

  /** Counts that the plan determines. */
  predicate Planned(c: Count) {
    c.OfKind? ==> c.kind !in {Keystroke, WarningDisplayed, WarningAcknowledged}
  }

  /** The events report the plan. */
  ghost predicate Reflects(events: seq<Event>, plan: seq<Sort>) {
    forall c: Count :: Planned(c) ==> Tally(events, c) == Total(plan, c)
  }

  lemma TaskReflects(ops: seq<Op>, task: TaskId, delayed: bool, from: int, gap: int)
    ensures Reflects(TaskEvents(ops, task, delayed, from, gap), Sorts(ops))
  {
    forall c: Count | Planned(c)
      ensures Tally(TaskEvents(ops, task, delayed, from, gap), c) == Total(Sorts(ops), c)
    {
      TaskTally(ops, task, delayed, from, gap, c);
    }
  }

  /** What a reader of a run's events finds: everything is typed that is not pasted, each chat and each question is
      reported, and every absence has its return. */
  ghost predicate Reported(m: Material, events: seq<Event>) {
    TypingReported(m, events) && EssayReported(m, events) && AwayReported(m, events) && RepliesReported(m, events)
  }

  ghost predicate RepliesReported(m: Material, events: seq<Event>) {
    && Tally(events, OfKind(FirstVisible)) == |m.first| + |m.second| + |m.third|
    && Tally(events, OfKind(CompletedVisible)) == |m.first| + |m.second| + |m.third|
    && Tally(events, OfKind(AnswerChange)) == |m.earlier| + |m.later|
  }

  ghost predicate TypingReported(m: Material, events: seq<Event>) {
    && Tally(events, KeysIn(ChatField, None)) == Letters(m.first) + Letters(m.second) + Letters(m.third)
    && forall id: int :: Tally(events, KeysIn(QuestionField, Some(id))) == ContentOf(m.earlier, id) + ContentOf(m.later, id)
  }

  ghost predicate EssayReported(m: Material, events: seq<Event>) {
    && Tally(events, KeysIn(EssayField, None)) == |m.essay| - (if exists i: nat :: EssayPlan.At(m.essay, m.pasted, i) then |m.pasted| else 0)
    && Tally(events, OfKind(Pasted)) == (if m.pasted == "" then 0 else 1) && Tally(events, AmountOf(Pasted)) == |m.pasted|
    && Tally(events, OfKind(Copied)) == (if m.copies then 1 else 0)
    && Tally(events, AmountOf(Copied)) == (if m.copies then FirstSentence(m.essay) else 0)
  }

  ghost predicate AwayReported(m: Material, events: seq<Event>) {
    && Tally(events, OfKind(FocusAway)) == |m.away| && Tally(events, OfKind(FocusReturn)) == |m.away|
    && Tally(events, AmountOf(FocusReturn)) == 1000 * Sum(m.away)
    && Tally(events, OfKind(VisibilityChange)) == 2 * |m.away| && Tally(events, AmountOf(VisibilityChange)) == |m.away|
  }

  ghost predicate Counts(m: Material, events: seq<Event>) {
    forall c: Count :: Planned(c) ==> Tally(events, c) == RunPart(m, c)
  }

  lemma CountOne(m: Material, events: seq<Event>, c: Count)
    requires Counts(m, events) && Planned(c)
    ensures Tally(events, c) == RunPart(m, c)
  {
  }

  lemma CountsTyping(m: Material, events: seq<Event>)
    requires Counts(m, events)
    ensures TypingReported(m, events)
  {
    CountOne(m, events, KeysIn(ChatField, None));
    forall id: int
      ensures Tally(events, KeysIn(QuestionField, Some(id))) == ContentOf(m.earlier, id) + ContentOf(m.later, id)
    {
      CountOne(m, events, KeysIn(QuestionField, Some(id)));
    }
  }

  lemma CountsEssay(m: Material, events: seq<Event>)
    requires Counts(m, events)
    ensures EssayReported(m, events)
  {
    TypedLength(m.essay, m.pasted);
    CountOne(m, events, KeysIn(EssayField, None));
    CountOne(m, events, OfKind(Pasted));
    CountOne(m, events, AmountOf(Pasted));
    CountOne(m, events, OfKind(Copied));
    CountOne(m, events, AmountOf(Copied));
  }

  lemma CountsAway(m: Material, events: seq<Event>)
    requires Counts(m, events)
    ensures AwayReported(m, events)
  {
    CountOne(m, events, OfKind(FocusAway));
    CountOne(m, events, OfKind(FocusReturn));
    CountOne(m, events, AmountOf(FocusReturn));
    CountOne(m, events, OfKind(VisibilityChange));
    CountOne(m, events, AmountOf(VisibilityChange));
  }

  lemma CountsAreReported(m: Material, events: seq<Event>)
    requires Counts(m, events)
    ensures Reported(m, events)
  {
    CountsTyping(m, events);
    CountsEssay(m, events);
    CountsAway(m, events);
    CountsReplies(m, events);
  }

  lemma CountsReplies(m: Material, events: seq<Event>)
    requires Counts(m, events)
    ensures RepliesReported(m, events)
  {
    CountOne(m, events, OfKind(FirstVisible));
    CountOne(m, events, OfKind(CompletedVisible));
    CountOne(m, events, OfKind(AnswerChange));
  }

  // ---------------------------------------------------------------- requests and answers of a plan

  /** The questions answered, in order. */
  function AnswersOf(plan: seq<Sort>): seq<int> {
    if plan == [] then []
    else AnswersOf(plan[..|plan| - 1]) + (if plan[|plan| - 1].Answers? then [plan[|plan| - 1].id] else [])
  }

  lemma {:induction false} AnswersOfConcat(a: seq<Sort>, b: seq<Sort>)
    ensures AnswersOf(a + b) == AnswersOf(a) + AnswersOf(b)
    decreases |b|
  {
    if b == [] {
      assert a + b == a && AnswersOf(a) + [] == AnswersOf(a);
    } else {
      var init, last := b[..|b| - 1], b[|b| - 1];
      assert (a + b)[..|a + b| - 1] == a + init;
      AnswersOfConcat(a, init);
      Assoc(AnswersOf(a), AnswersOf(init), if last.Answers? then [last.id] else []);
    }
  }

  lemma {:induction false} NoAnswersOf(plan: seq<Sort>)
    requires forall s :: s in plan ==> !s.Answers?
    ensures AnswersOf(plan) == []
  {
    if plan != [] {
      assert plan[|plan| - 1] in plan;
      NoAnswersOf(plan[..|plan| - 1]);
    }
  }

  lemma {:induction false} ChatsAnswerNothing(chats: seq<Chat>)
    ensures forall s :: s in ChatPlan(chats) ==> !s.Answers?
  {
    if chats != [] {
      ChatsAnswerNothing(chats[..|chats| - 1]);
    }
  }

  lemma {:induction false} AwayAnswersNothing(away: seq<nat>)
    ensures forall s :: s in AwayPlan(away) ==> !s.Answers?
  {
    if away != [] {
      AwayAnswersNothing(away[..|away| - 1]);
    }
  }

  function Ids(questions: seq<Question>): seq<int> {
    seq(|questions|, i requires 0 <= i < |questions| => questions[i].id)
  }

  lemma OneAnswered(before: seq<Sort>, content: seq<Sort>, id: int)
    requires forall s :: s in content ==> !s.Answers?
    ensures AnswersOf(before + content + [Answers(id)]) == AnswersOf(before) + [id]
  {
    AnswersOfConcat(before, content);
    NoAnswersOf(content);
    assert (before + content + [Answers(id)])[..|before + content|] == before + content;
  }

  lemma IdsOneMore(questions: seq<Question>, q: Question)
    ensures Ids(questions + [q]) == Ids(questions) + [q.id]
  {
  }

  lemma {:induction false} QuestionsAnswered(questions: seq<Question>)
    ensures AnswersOf(QuestionPlan(questions)) == Ids(questions)
  {
    if questions != [] {
      var init, last := questions[..|questions| - 1], questions[|questions| - 1];
      QuestionsAnswered(init);
      OneAnswered(QuestionPlan(init), ContentPlan(last), last.id);
      IdsOneMore(init, last);
      assert questions == init + [last];
    }
  }

  /** What a task of the run is expected to report. */
  function ExpectedAnswers(run: RunSpec, position: int): seq<int> {
    if position == 2 then [] else Ids(QuestionsAt(run.questions, position))
  }

  lemma PlanAnswers(run: RunSpec, position: int)
    ensures AnswersOf(Plan(run, position)) == ExpectedAnswers(run, position)
  {
    var chats := ChatPlan(ChatsAt(run.chats, position));
    ChatsAnswerNothing(ChatsAt(run.chats, position));
    NoAnswersOf(chats);
    if position == 2 {
      AwayAnswersNothing(run.away);
      NoAnswersOf(Plan(run, position));
    } else {
      QuestionsAnswered(QuestionsAt(run.questions, position));
      AnswersOfConcat(chats, QuestionPlan(QuestionsAt(run.questions, position)));
    }
  }

  lemma OnlyChatsAsk(m: Material, chats: seq<Chat>, questions: seq<Question>, c: Count)
    requires c == OfKind(FirstVisible)
    ensures ChatPart(chats, c) == |chats| && QuestionPart(questions, c) == 0
    ensures AwayPart(m.away, c) + EssayPart(m.essay, m.pasted, m.copies, c) == 0
  {
  }

  lemma PlanAsks(run: RunSpec, m: Material, position: int, c: Count)
    requires c == OfKind(FirstVisible) && m == MaterialOf(run)
    ensures Total(Plan(run, position), c) == |ChatsAt(run.chats, position)|
  {
    var chats, questions := ChatsAt(run.chats, position), QuestionsAt(run.questions, position);
    OnlyChatsAsk(m, chats, questions, c);
    if position == 2 {
      EssayTaskTotal(m, c);
      assert Plan(run, position) == ChatPlan(m.second) + EssayPlanOf(m.away, m.essay, m.pasted, m.copies);
    } else {
      QuestionTaskTotal(chats, questions, c);
    }
  }
}
