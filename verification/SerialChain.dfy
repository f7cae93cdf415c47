/**
 runSerial: every job is chained to the promise of the job submitted before it, whether that one is
 fulfilled or rejected.  A job suspends at every storage access; while it is suspended other jobs may be
 submitted, also by the job itself.  A job may also await one of these promises.  The scheduler may resume any
 job whose predecessor and whose awaited promise have settled.
 */
module SerialChain {
  import opened Common

  /** What a job does between two suspensions: the new shared store, its own continuation (None when its
      promise settles), and the jobs it submits. */
  datatype Turn<L, S> = Turn(store: S, next: Option<L>, submits: seq<L>)

  /** A job chained to promise number `after` that awaits promise number `waits`; promise 0 is
      Promise.resolve(), promise i + 1 that of task i. */
  datatype Task<L> = Task(after: nat, rest: Option<L>, waits: nat)

  /** `tail` is the variable `serial`: the promise the next job is chained to. */
  datatype Chain<L, S> = Chain(store: S, tasks: seq<Task<L>>, tail: nat)

  /** A job is submitted, or a job runs a turn and then awaits a promise (0: a storage access only). */
  datatype Action<L> = Submit(job: L) | Resume(task: nat, waits: nat)

  predicate Settled<L, S>(c: Chain<L, S>, promise: nat) {
    promise == 0 || (promise <= |c.tasks| && c.tasks[promise - 1].rest.None?)
  }

  predicate Enabled<L, S>(c: Chain<L, S>, a: Action<L>) {
    a.Resume? ==>
      && a.task < |c.tasks| && c.tasks[a.task].rest.Some?
      && Settled(c, c.tasks[a.task].after) && Settled(c, c.tasks[a.task].waits)
  }

  function RunSerial<L, S>(c: Chain<L, S>, job: L): Chain<L, S> {
    c.(tasks := c.tasks + [Task(c.tail, Some(job), 0)], tail := |c.tasks| + 1)
  }

  function SubmitAll<L, S>(c: Chain<L, S>, jobs: seq<L>): Chain<L, S>
    decreases |jobs|
  {
    if jobs == [] then c else SubmitAll(RunSerial(c, jobs[0]), jobs[1..])
  }

  function Act<L, S>(step: (L, S) -> Turn<L, S>, c: Chain<L, S>, a: Action<L>): Chain<L, S>
    requires Enabled(c, a)
  {
    match a
    case Submit(job) => RunSerial(c, job)
    case Resume(i, waits) =>
      var turn := step(c.tasks[i].rest.value, c.store);
      SubmitAll(c.(store := turn.store, tasks := c.tasks[i := c.tasks[i].(rest := turn.next, waits := waits)]), turn.submits)
  }

  /** The jobs that an action submits, in order. */
  function Submitted<L, S>(step: (L, S) -> Turn<L, S>, c: Chain<L, S>, a: Action<L>): seq<L>
    requires Enabled(c, a)
  {
    match a
    case Submit(job) => [job]
    case Resume(i, _) => step(c.tasks[i].rest.value, c.store).submits
  }

  predicate Schedule<L, S>(step: (L, S) -> Turn<L, S>, c: Chain<L, S>, actions: seq<Action<L>>)
    decreases |actions|
  {
    actions == [] || (Enabled(c, actions[0]) && Schedule(step, Act(step, c, actions[0]), actions[1..]))
  }

  function Run<L, S>(step: (L, S) -> Turn<L, S>, c: Chain<L, S>, actions: seq<Action<L>>): Chain<L, S>
    requires Schedule(step, c, actions)
    decreases |actions|
  {
    if actions == [] then c else Run(step, Act(step, c, actions[0]), actions[1..])
  }

  /** All jobs in the order of submission. */
  function Jobs<L, S>(step: (L, S) -> Turn<L, S>, c: Chain<L, S>, actions: seq<Action<L>>): seq<L>
    requires Schedule(step, c, actions)
    decreases |actions|
  {
    if actions == [] then []
    else Submitted(step, c, actions[0]) + Jobs(step, Act(step, c, actions[0]), actions[1..])
  }

  // ---------------------------------------------------------------- one job at a time

  /** A job alone on the store for n turns. */
  function Alone<L, S>(step: (L, S) -> Turn<L, S>, job: L, store: S, n: nat): (Option<L>, S) {
    if n == 0 then (Some(job), store) else
      var turn := step(job, store);
      if turn.next.None? then (None, turn.store) else Alone(step, turn.next.value, turn.store, n - 1)
  }

  lemma {:induction false} AloneOneMore<L, S>(step: (L, S) -> Turn<L, S>, job: L, store: S, n: nat)
    requires Alone(step, job, store, n).0.Some?
    ensures var r := Alone(step, job, store, n); var turn := step(r.0.value, r.1);
      Alone(step, job, store, n + 1) == (turn.next, turn.store)
  {
    if n > 0 {
      var turn := step(job, store);
      AloneOneMore(step, turn.next.value, turn.store, n - 1);
    }
  }

  /** Running the jobs one after the other, each to its end, leads from one store to the other. */
  ghost predicate OneByOne<L, S(!new)>(step: (L, S) -> Turn<L, S>, from: S, jobs: seq<L>, to: S)
    decreases |jobs|
  {
    if jobs == [] then from == to else
      var init, last := jobs[..|jobs| - 1], jobs[|jobs| - 1];
      exists middle: S :: OneByOne(step, from, init, middle) && Finishes(step, last, middle, to)
  }

  ghost predicate Finishes<L, S>(step: (L, S) -> Turn<L, S>, job: L, from: S, to: S) {
    exists n: nat :: Alone(step, job, from, n) == (None, to)
  }

  // ---------------------------------------------------------------- the chain runs one job at a time

  /** The first `done` jobs have run one by one to `middle`; the next has run n turns alone; the rest wait. */
  ghost predicate Serial<L, S(!new)>(step: (L, S) -> Turn<L, S>, from: S, jobs: seq<L>, c: Chain<L, S>,
                                     done: nat, middle: S, n: nat)
  {
    && |c.tasks| == |jobs| == c.tail && done <= |jobs|
    && (forall i :: 0 <= i < |jobs| ==> c.tasks[i].after == i)
    && (forall i :: 0 <= i < done ==> c.tasks[i].rest.None?)
    && (forall i :: done < i < |jobs| ==> c.tasks[i].rest == Some(jobs[i]) && c.tasks[i].waits == 0)
    && OneByOne(step, from, jobs[..done], middle)
    && (if done == |jobs| then c.store == middle
        else c.tasks[done].rest.Some? && Alone(step, jobs[done], middle, n) == (c.tasks[done].rest, c.store))
  }

  lemma {:induction false} SubmitKeepsSerial<L, S(!new)>(step: (L, S) -> Turn<L, S>, from: S, jobs: seq<L>, c: Chain<L, S>,
                                      done: nat, middle: S, n: nat, job: L)
    returns (m: nat)
    requires Serial(step, from, jobs, c, done, middle, n)
    ensures Serial(step, from, jobs + [job], RunSerial(c, job), done, middle, m)
  {
    m := if done == |jobs| then 0 else n;
    assert (jobs + [job])[..done] == jobs[..done];
  }

  lemma {:induction false} SubmitAllKeepsSerial<L, S(!new)>(step: (L, S) -> Turn<L, S>, from: S, jobs: seq<L>, c: Chain<L, S>,
                                         done: nat, middle: S, n: nat, more: seq<L>)
    returns (m: nat)
    requires Serial(step, from, jobs, c, done, middle, n)
    ensures Serial(step, from, jobs + more, SubmitAll(c, more), done, middle, m)
    decreases |more|
  {
    if more == [] {
      m := n;
      assert jobs + more == jobs;
    } else {
      m := SubmitKeepsSerial(step, from, jobs, c, done, middle, n, more[0]);
      m := SubmitAllKeepsSerial(step, from, jobs + [more[0]], RunSerial(c, more[0]), done, middle, m, more[1..]);
      assert jobs + more == jobs + [more[0]] + more[1..];
    }
  }

  /** Mutual exclusion and progress: only the first job that has not settled can be resumed, and it can exactly
      if it does not await its own promise or a later one. */
  lemma OnlyFirstResumable<L, S(!new)>(step: (L, S) -> Turn<L, S>, from: S, jobs: seq<L>, c: Chain<L, S>,
                                       done: nat, middle: S, n: nat)
    requires Serial(step, from, jobs, c, done, middle, n)
    ensures forall i: nat, waits: nat :: Enabled(c, Resume(i, waits)) <==> i == done < |jobs| && c.tasks[done].waits <= done
  {
  }

  lemma OneByOneMore<L, S(!new)>(step: (L, S) -> Turn<L, S>, from: S, jobs: seq<L>, middle: S, job: L, n: nat, to: S)
    requires OneByOne(step, from, jobs, middle) && Alone(step, job, middle, n) == (None, to)
    ensures OneByOne(step, from, jobs + [job], to)
  {
    assert (jobs + [job])[..|jobs|] == jobs;
    assert Finishes(step, job, middle, to);
  }

  /** The chain after a job's turn, before the jobs it submits. */
  function Turned<L, S>(c: Chain<L, S>, i: nat, turn: Turn<L, S>, waits: nat): Chain<L, S>
    requires i < |c.tasks|
  {
    c.(store := turn.store, tasks := c.tasks[i := c.tasks[i].(rest := turn.next, waits := waits)])
  }

  lemma TurnKeepsSerial<L, S(!new)>(step: (L, S) -> Turn<L, S>, from: S, jobs: seq<L>, c: Chain<L, S>,
                                    done: nat, middle: S, n: nat, waits: nat)
    returns (done': nat, middle': S, n': nat)
    requires Serial(step, from, jobs, c, done, middle, n) && done < |jobs|
    ensures Serial(step, from, jobs, Turned(c, done, step(c.tasks[done].rest.value, c.store), waits), done', middle', n')
  {
    var turn := step(c.tasks[done].rest.value, c.store);
    AloneOneMore(step, jobs[done], middle, n);
    if turn.next.None? {
      OneByOneMore(step, from, jobs[..done], middle, jobs[done], n + 1, turn.store);
      assert jobs[..done + 1] == jobs[..done] + [jobs[done]];
      done', middle', n' := done + 1, turn.store, 0;
    } else {
      done', middle', n' := done, middle, n + 1;
    }
  }

  lemma {:induction false} ActKeepsSerial<L, S(!new)>(step: (L, S) -> Turn<L, S>, from: S, jobs: seq<L>, c: Chain<L, S>,
                                   done: nat, middle: S, n: nat, a: Action<L>)
    returns (done': nat, middle': S, n': nat)
    requires Serial(step, from, jobs, c, done, middle, n) && Enabled(c, a)
    ensures Serial(step, from, jobs + Submitted(step, c, a), Act(step, c, a), done', middle', n')
  {
    done', middle' := done, middle;
    match a {
      case Submit(job) =>
        n' := SubmitKeepsSerial(step, from, jobs, c, done, middle, n, job);
      case Resume(i, waits) =>
        OnlyFirstResumable(step, from, jobs, c, done, middle, n);
        var turn := step(c.tasks[i].rest.value, c.store);
        done', middle', n' := TurnKeepsSerial(step, from, jobs, c, done, middle, n, waits);
        n' := SubmitAllKeepsSerial(step, from, jobs, Turned(c, i, turn, waits), done', middle', n', turn.submits);
    }
  }

  lemma {:induction false} RunKeepsSerial<L, S(!new)>(step: (L, S) -> Turn<L, S>, from: S, jobs: seq<L>, c: Chain<L, S>,
                                   done: nat, middle: S, n: nat, actions: seq<Action<L>>)
    returns (done': nat, middle': S, n': nat)
    requires Serial(step, from, jobs, c, done, middle, n) && Schedule(step, c, actions)
    ensures Serial(step, from, jobs + Jobs(step, c, actions), Run(step, c, actions), done', middle', n')
    decreases |actions|
  {
    if actions == [] {
      done', middle', n' := done, middle, n;
      assert jobs + [] == jobs;
    } else {
      var v := Act(step, c, actions[0]);
      var more := Submitted(step, c, actions[0]);
      done', middle', n' := ActKeepsSerial(step, from, jobs, c, done, middle, n, actions[0]);
      done', middle', n' := RunKeepsSerial(step, from, jobs + more, v, done', middle', n', actions[1..]);
      Assoc(jobs, more, Jobs(step, v, actions[1..]));
    }
  }

  /** The first job that has not settled. */
  ghost predicate FirstLeft<L, S>(c: Chain<L, S>, i: nat) {
    i < |c.tasks| && c.tasks[i].rest.Some? && forall j :: 0 <= j < i ==> c.tasks[j].rest.None?
  }

  /** Refinement: at any moment, also that of the worker's death, the store is what the first jobs produce one at a
      time in the order of their submission, followed by a number of turns of the next job alone; when every job
      has settled, it is what all of them produce one at a time. */
  lemma EveryScheduleIsSerial<L, S(!new)>(step: (L, S) -> Turn<L, S>, from: S, actions: seq<Action<L>>)
    returns (done: nat, middle: S, n: nat)
    requires Schedule(step, Chain(from, [], 0), actions)
    ensures var c := Run(step, Chain(from, [], 0), actions);
      var jobs := Jobs(step, Chain(from, [], 0), actions);
      && Serial(step, from, jobs, c, done, middle, n)
      && ((forall t :: t in c.tasks ==> t.rest.None?) ==> OneByOne(step, from, jobs, c.store))
  {
    var start := Chain(from, [], 0);
    var jobs := Jobs(step, start, actions);
    var c := Run(step, start, actions);
    assert Serial(step, from, [], start, 0, from, 0);
    done, middle, n := RunKeepsSerial(step, from, [], start, 0, from, 0, actions);
    assert [] + jobs == jobs;
    if done == |jobs| {
      assert jobs[..done] == jobs;
    } else {
      assert c.tasks[done] in c.tasks;
    }
  }

  /** Progress: the first job that has not settled can go on exactly if it does not await its own promise or a
      later one, and no other job can. */
  lemma GoesOnExactly<L, S(!new)>(step: (L, S) -> Turn<L, S>, from: S, actions: seq<Action<L>>, i: nat, j: nat, waits: nat)
    requires Schedule(step, Chain(from, [], 0), actions) && FirstLeft(Run(step, Chain(from, [], 0), actions), i)
    ensures var c := Run(step, Chain(from, [], 0), actions);
      Enabled(c, Resume(j, waits)) <==> j == i && c.tasks[i].waits <= i
  {
    var start := Chain(from, [], 0);
    var done, middle, n := EveryScheduleIsSerial(step, from, actions);
    OnlyFirstResumable(step, from, Jobs(step, start, actions), Run(step, start, actions), done, middle, n);
  }

  /** Deadlock: once the first unsettled job awaits its own promise or a later one, such as that of a flush it
      has just submitted, no job ever runs again; further jobs only queue up. */
  lemma {:induction false} AwaitingLaterIsForEver<L, S(!new)>(step: (L, S) -> Turn<L, S>, from: S, jobs: seq<L>, c: Chain<L, S>,
      done: nat, middle: S, n: nat, actions: seq<Action<L>>)
    requires Serial(step, from, jobs, c, done, middle, n) && done < |jobs| && c.tasks[done].waits > done
    requires Schedule(step, c, actions)
    ensures Run(step, c, actions).store == c.store && c.tasks <= Run(step, c, actions).tasks
    decreases |actions|
  {
    if actions != [] {
      OnlyFirstResumable(step, from, jobs, c, done, middle, n);
      var job := actions[0].job;
      var m := SubmitKeepsSerial(step, from, jobs, c, done, middle, n, job);
      AwaitingLaterIsForEver(step, from, jobs + [job], RunSerial(c, job), done, middle, m, actions[1..]);
    }
  }

  /** The jobs of the worker: none awaits a promise of the chain; the flush that enqueueUnlocked submits is
      not awaited. */
  ghost predicate AwaitsNothing<L>(actions: seq<Action<L>>) {
    forall a :: a in actions && a.Resume? ==> a.waits == 0
  }

  ghost predicate NoneWaits<L, S>(c: Chain<L, S>) {
    forall i :: 0 <= i < |c.tasks| ==> c.tasks[i].waits == 0
  }

  lemma {:induction false} SubmitAllKeepsNoneWaits<L, S>(c: Chain<L, S>, jobs: seq<L>)
    requires NoneWaits(c)
    ensures NoneWaits(SubmitAll(c, jobs))
    decreases |jobs|
  {
    if jobs != [] {
      SubmitAllKeepsNoneWaits(RunSerial(c, jobs[0]), jobs[1..]);
    }
  }

  lemma {:induction false} RunKeepsNoneWaits<L, S>(step: (L, S) -> Turn<L, S>, c: Chain<L, S>, actions: seq<Action<L>>)
    requires NoneWaits(c) && Schedule(step, c, actions) && AwaitsNothing(actions)
    ensures NoneWaits(Run(step, c, actions))
    decreases |actions|
  {
    if actions != [] {
      var a := actions[0];
      assert a in actions;
      if a.Resume? {
        var turn := step(c.tasks[a.task].rest.value, c.store);
        SubmitAllKeepsNoneWaits(Turned(c, a.task, turn, a.waits), turn.submits);
      }
      RunKeepsNoneWaits(step, Act(step, c, a), actions[1..]);
    }
  }

  /** So the worker's chain is never stuck: as long as a job has not settled, the first such job can go on. */
  lemma NeverStuck<L, S(!new)>(step: (L, S) -> Turn<L, S>, from: S, actions: seq<Action<L>>, i: nat)
    requires Schedule(step, Chain(from, [], 0), actions) && AwaitsNothing(actions)
    requires FirstLeft(Run(step, Chain(from, [], 0), actions), i)
    ensures Enabled(Run(step, Chain(from, [], 0), actions), Resume(i, 0))
  {
    RunKeepsNoneWaits(step, Chain(from, [], 0), actions);
    GoesOnExactly(step, from, actions, i, i, 0);
  }
}
