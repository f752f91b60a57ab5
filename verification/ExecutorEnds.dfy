/** Every job ends: its own steps are bounded by its plan, and while it is not done one is possible. */
module ExecutorEnds {
  import opened Wrappers
  import opened Orders
  import opened Models
  import opened Fingerprints
  import opened Planner
  import opened PlannerProperties
  import opened Caches
  import opened CacheProperties
  import opened Rollbacks
  import opened Executor
  import opened ExecutorInvariant
  import opened ExecutorSteps
  import opened ExecutorRuns

  // How much a job can still do.

  function OpLeft(op: Op): nat {
    if op.outcome.Some? || op.attempts + |op.answers| >= 6 then 0 else 6 - op.attempts - |op.answers|
  }

  function OpsLeft(ops: seq<Op>): nat {
    if ops == [] then 0 else OpsLeft(ops[..|ops| - 1]) + OpLeft(ops[|ops| - 1])
  }

  function TaskLeft(t: Task): nat {
    if t.pc.Queued? then 2 else if t.pc.Finished? then 0 else 1
  }

  function TasksLeft(tasks: seq<Task>): nat {
    if tasks == [] then 0 else TasksLeft(tasks[..|tasks| - 1]) + TaskLeft(tasks[|tasks| - 1])
  }

  /** An upper bound on the steps a job has left. */
  function Remaining(job: Job): nat {
    match job.phase
    case Rereading(todo) => |todo| + 1 + 2 * |job.ops| + OpsLeft(job.ops)
    case Writing => 1 + TasksLeft(job.tasks) + OpsLeft(job.ops)
    case Done(_) => 0
  }

  /** No operation has more left than before. */
  ghost predicate NoMore(ops: seq<Op>, now: seq<Op>) {
    |now| == |ops| && forall i | 0 <= i < |ops| :: OpLeft(now[i]) <= OpLeft(ops[i])
  }

  lemma {:induction false} SumShrinks(ops: seq<Op>, now: seq<Op>)
    requires NoMore(ops, now)
    ensures OpsLeft(now) <= OpsLeft(ops)
    ensures forall i | 0 <= i < |ops| && OpLeft(now[i]) < OpLeft(ops[i]) :: OpsLeft(now) < OpsLeft(ops)
  {
    hide OpLeft;
    if ops != [] {
      SumShrinks(ops[..|ops| - 1], now[..|ops| - 1]);
      forall i | 0 <= i < |ops| && OpLeft(now[i]) < OpLeft(ops[i]) ensures OpsLeft(now) < OpsLeft(ops) {
        if i < |ops| - 1 {
          assert OpLeft(now[..|ops| - 1][i]) < OpLeft(ops[..|ops| - 1][i]);
        }
      }
    }
  }

  /** One operation with less left makes the sum less. */
  lemma OneSmaller(ops: seq<Op>, place: nat, op: Op)
    requires place < |ops| && OpLeft(op) < OpLeft(ops[place])
    ensures OpsLeft(ops[place := op]) < OpsLeft(ops)
  {
    hide OpLeft;
    SumShrinks(ops, ops[place := op]);
    assert OpLeft(ops[place := op][place]) < OpLeft(ops[place]);
  }

  lemma {:induction false} TaskChanges(tasks: seq<Task>, t: nat, task: Task)
    requires t < |tasks|
    ensures TasksLeft(tasks[t := task]) == TasksLeft(tasks) - TaskLeft(tasks[t]) + TaskLeft(task)
    ensures TasksLeft(tasks) >= TaskLeft(tasks[t])
  {
    hide TaskLeft;
    var front, after := tasks[..|tasks| - 1], tasks[t := task];
    if t < |tasks| - 1 {
      TaskChanges(front, t, task);
      assert after[..|after| - 1] == front[t := task];
    } else {
      assert after[..|after| - 1] == front;
    }
  }

  lemma {:induction false} ProceedShrinks(ops: seq<Op>, stop: Option<JobStatus>, mine: seq<nat>, k: nat,
          attempted: bool)
    requires k <= |mine| && forall i | i in mine :: i < |ops|
    requires forall p | k <= p < |mine| :: mine[p] < |ops| && ops[mine[p]].attempts == 0
    ensures NoMore(ops, Proceed(ops, stop, mine, k, attempted).0)
    decreases |mine| - k
  {
    if k < |mine| {
      assert mine[k] in mine;
      if stop.Some? {
        var next := ops[mine[k] := ops[mine[k]].(outcome := Some(NotAttempted(stop.value)))];
        ProceedShrinks(next, stop, mine, k + 1, attempted);
      }
    }
  }

  lemma {:induction false} FewDevices(ops: seq<Op>)
    ensures |DevicesOf(ops)| <= |ops|
  {
    if ops != [] {
      FewDevices(ops[..|ops| - 1]);
    }
  }

  lemma {:induction false} QueuedLeft(tasks: seq<Task>)
    requires forall t | t in tasks :: t.pc.Queued?
    ensures TasksLeft(tasks) == 2 * |tasks|
  {
    if tasks != [] {
      QueuedLeft(tasks[..|tasks| - 1]);
    }
  }

  lemma {:induction false} AtMostSixEach(ops: seq<Op>)
    ensures OpsLeft(ops) <= 6 * |ops|
  {
    if ops != [] {
      AtMostSixEach(ops[..|ops| - 1]);
    }
  }

  // Each step uses some of it up.

  lemma PrepareLeavesLess(job: Job, c: Cache, replan: Plan)
    requires job.phase.Rereading? && job.phase.todo != []
    ensures Remaining(Prepare(job, c, replan)) < Remaining(job)
    ensures Remaining(Prepare(job, c, replan)) <= 1 + 8 * |job.ops|
  {
    hide SnapshotOf;
    hide DevicesOf;
    hide Mine;
    hide IsStale;
    var ops := MarkStale(job.request.plan, replan, job.ops);
    SumShrinks(job.ops, ops);
    FewDevices(ops);
    QueuedLeft(TasksOf(ops, DevicesOf(ops)));
    AtMostSixEach(ops);
  }

  lemma AcquireLeavesLess(cfg: Config, job: Job, t: nat)
    requires JobInv(cfg, job) && job.phase.Writing? && TaskInRange(job, t) && job.tasks[t].pc.Queued? && job.free > 0
    ensures Remaining(AcquireJob(job, t)) < Remaining(job)
  {
    hide OpsSound;
    hide AllTaken;
    hide Approved;
    hide SnapshotOf;
    hide CacheInv;
    hide Exact;
    hide Proceed;
    hide OneTaskEach;
    var task := job.tasks[t];
    assert TaskInv(job.ops, task);
    ProceedShrinks(job.ops, job.stop, task.mine, 0, false);
    StillTalking(job.ops, job.stop, task.mine, 0, false);
    var r := Proceed(job.ops, job.stop, task.mine, 0, false);
    SumShrinks(job.ops, r.0);
    TaskChanges(job.tasks, t, task.(pc := r.1, attempted := r.2));
  }

  /** The write in hand has something left, and the ones after it made no call yet. */
  lemma InHandHasSomeLeft(cfg: Config, job: Job, t: nat)
    requires JobInv(cfg, job) && job.phase.Writing? && TaskInRange(job, t)
    requires job.tasks[t].pc.Calling? || job.tasks[t].pc.Sleeping?
    ensures
      var task, k := job.tasks[t], job.tasks[t].pc.k;
      && Indexes(job.ops, task.mine)
      && task.mine[k] in task.mine && task.mine[k] < |job.ops|
      && job.ops[task.mine[k]].outcome.None? && OpLeft(job.ops[task.mine[k]]) > 0
      && job.ops[task.mine[k]].attempts + |job.ops[task.mine[k]].answers| < 6
      && forall p | k + 1 <= p < |task.mine| :: job.ops[task.mine[p]].attempts == 0
  {
    hide AllTaken;
    hide Approved;
    hide SnapshotOf;
    hide CacheInv;
    hide Exact;
    hide OneTaskEach;
    hide OpStanding;
    var task, k := job.tasks[t], job.tasks[t].pc.k;
    assert TaskInv(job.ops, task);
    TaskHasIndexes(job.ops, task);
    assert task.mine[k] in task.mine && OpSound(job.ops[task.mine[k]]);
  }

  /** Going on after the write in hand was decided. */
  lemma DecidedLeavesLess(cfg: Config, job: Job, t: nat, op: Op)
    requires JobInv(cfg, job) && job.phase.Writing? && TaskInRange(job, t)
    requires job.tasks[t].pc.Calling? || job.tasks[t].pc.Sleeping?
    requires op.outcome.Some?
    ensures
      var task, k := job.tasks[t], job.tasks[t].pc.k;
      var ops := job.ops[task.mine[k] := op];
      && (forall i | i in task.mine :: i < |ops|)
      && Remaining(WithTask(job, t, Proceed(ops, job.stop, task.mine, k + 1, task.attempted))) < Remaining(job)
  {
    hide JobInv;
    hide Proceed;
    hide NoMore;
    hide OpsLeft;
    hide TasksLeft;
    var task, k := job.tasks[t], job.tasks[t].pc.k;
    InHandHasSomeLeft(cfg, job, t);
    var place := task.mine[k];
    var ops := job.ops[place := op];
    OneSmaller(job.ops, place, op);
    forall p | k + 1 <= p < |task.mine| ensures task.mine[p] < |ops| && ops[task.mine[p]].attempts == 0 {
      assert task.mine[k] != task.mine[p];
    }
    ProceedShrinks(ops, job.stop, task.mine, k + 1, task.attempted);
    StillTalking(ops, job.stop, task.mine, k + 1, task.attempted);
    var r := Proceed(ops, job.stop, task.mine, k + 1, task.attempted);
    SumShrinks(ops, r.0);
    TaskChanges(job.tasks, t, task.(pc := r.1, attempted := r.2));
  }

  /** One more call or one more answer for the write in hand. */
  lemma OneMoreLeavesLess(cfg: Config, job: Job, t: nat, op: Op, pc: Pc)
    requires JobInv(cfg, job) && job.phase.Writing? && TaskInRange(job, t)
    requires job.tasks[t].pc.Calling? || job.tasks[t].pc.Sleeping?
    requires pc.Calling? || pc.Sleeping?
    requires
      var was := job.ops[job.tasks[t].mine[job.tasks[t].pc.k]];
      op.outcome.None? && op.attempts + |op.answers| == was.attempts + |was.answers| + 1
    ensures
      var task := job.tasks[t];
      Remaining(WithTask(job, t, (job.ops[task.mine[task.pc.k] := op], pc, task.attempted))) < Remaining(job)
  {
    hide JobInv;
    hide OpsLeft;
    hide TasksLeft;
    InHandHasSomeLeft(cfg, job, t);
    var task, k := job.tasks[t], job.tasks[t].pc.k;
    OneSmaller(job.ops, task.mine[k], op);
    TaskChanges(job.tasks, t, task.(pc := pc, attempted := task.attempted));
  }

  lemma AnswerLeavesLess(cfg: Config, job: Job, t: nat, status: WriteStatus)
    requires JobInv(cfg, job) && job.phase.Writing? && TaskInRange(job, t) && job.tasks[t].pc.Calling?
    ensures Remaining(AnswerJob(job, t, status)) < Remaining(job)
  {
    hide JobInv;
    hide Remaining;
    hide Proceed;
    var task, k := job.tasks[t], job.tasks[t].pc.k;
    assert task.mine[k] in task.mine;
    InHandHasSomeLeft(cfg, job, t);
    var op := job.ops[task.mine[k]];
    if TriesAgain(op, status) {
      OneMoreLeavesLess(cfg, job, t, AnsweredOp(op, status), Sleeping(k));
    } else {
      DecidedLeavesLess(cfg, job, t, AnsweredOp(op, status));
    }
  }

  lemma WakeLeavesLess(cfg: Config, job: Job, t: nat)
    requires JobInv(cfg, job) && job.phase.Writing? && TaskInRange(job, t) && job.tasks[t].pc.Sleeping?
    ensures Remaining(WakeJob(job, t)) < Remaining(job)
  {
    hide JobInv;
    hide Remaining;
    hide Proceed;
    var task, k := job.tasks[t], job.tasks[t].pc.k;
    assert task.mine[k] in task.mine;
    InHandHasSomeLeft(cfg, job, t);
    var op := WokenOp(job.ops[task.mine[k]], job.stop);
    if job.stop.Some? {
      DecidedLeavesLess(cfg, job, t, op);
    } else {
      OneMoreLeavesLess(cfg, job, t, op, Calling(k));
    }
  }

  lemma DeepReadLeavesLess(job: Job, t: nat, answer: Option<ObservedDevice>)
    requires job.phase.Writing? && TaskInRange(job, t) && job.tasks[t].pc.Verifying?
    ensures Remaining(DeepReadJob(job, t, answer)) < Remaining(job)
  {
    hide Holds;
    hide Fingerprint;
    var ops := VerifyAll(job.ops, job.tasks[t].mine, answer);
    SumShrinks(job.ops, ops);
    TaskChanges(job.tasks, t, job.tasks[t].(pc := Finished, read := Some(answer)));
  }

  // Whole runs.

  predicate OwnStep(a: Action, j: nat) {
    (a.Reread? || a.Acquire? || a.Answer? || a.Wake? || a.DeepRead? || a.Conclude?) && a.job == j
  }

  lemma OwnStepLeavesLess(cfg: Config, s: State, a: Action, j: nat)
    requires RunnerInv(cfg, s) && InRange(s) && Enabled(cfg, s, a) && OwnStep(a, j)
    ensures j < |s.jobs| && |Effect(cfg, s, a).jobs| == |s.jobs|
    ensures Remaining(Effect(cfg, s, a).jobs[j]) < Remaining(s.jobs[j])
  {
    hide JobInv;
    hide CacheInv;
    hide Exact;
    hide Prepare;
    hide Resolve;
    hide Answered;
    hide Honest;
    hide Replans;
    hide TaskInRange;
    hide AcquireJob;
    hide AnswerJob;
    hide WakeJob;
    hide DeepReadJob;
    hide StatusOf;
    match a
    case Reread(_, answer, replan) =>
      if |s.jobs[j].phase.todo| == 1 {
        PrepareLeavesLess(s.jobs[j], Answered(s.cache, s.jobs[j].phase.todo[0], answer), replan);
      }
    case Acquire(_, t) =>
      assert TaskInRange(s.jobs[j], t);
      AcquireLeavesLess(cfg, s.jobs[j], t);
    case Answer(_, t, status) =>
      assert TaskInRange(s.jobs[j], t);
      AnswerLeavesLess(cfg, s.jobs[j], t, status);
    case Wake(_, t) =>
      assert TaskInRange(s.jobs[j], t);
      WakeLeavesLess(cfg, s.jobs[j], t);
    case DeepRead(_, t, answer) =>
      assert TaskInRange(s.jobs[j], t);
      DeepReadLeavesLess(s.jobs[j], t, Cached(s.cache, s.jobs[j].tasks[t].device, answer));
    case Conclude(_) =>
  }

  lemma OtherStepsLeaveAsMuch(cfg: Config, s: State, a: Action, j: nat)
    requires InRange(s) && Enabled(cfg, s, a) && !OwnStep(a, j) && j < |s.jobs|
    ensures j < |Effect(cfg, s, a).jobs| && Remaining(Effect(cfg, s, a).jobs[j]) == Remaining(s.jobs[j])
  {
    hide Prepare;
    hide Resolve;
    hide Answered;
    hide Honest;
    hide Replans;
    hide Next;
    hide AcquireJob;
    hide AnswerJob;
    hide WakeJob;
    hide DeepReadJob;
    hide StatusOf;
    hide StartOps;
    hide DevicesOf;
    hide TaskInRange;
    hide OpsLeft;
    hide TasksLeft;
    if a.Acquire? || a.Answer? || a.Wake? || a.DeepRead? {
      assert TaskInRange(s.jobs[a.job], a.task);
    }
  }

  function OwnSteps(actions: seq<Action>, j: nat): nat {
    if actions == [] then 0
    else OwnSteps(actions[..|actions| - 1], j) + if OwnStep(actions[|actions| - 1], j) then 1 else 0
  }

  /** Whatever else happens, the steps a job takes from here on are no more than it has left. */
  lemma {:induction false} OwnStepsAreFew(cfg: Config, states: seq<State>, actions: seq<Action>, i: nat, m: nat, j: nat)
    requires IsRun(cfg, states, actions) && Init(states[0]) && i <= m < |states| && j < |states[i].jobs|
    ensures j < |states[m].jobs|
    ensures OwnSteps(actions[i..m], j) + Remaining(states[m].jobs[j]) <= Remaining(states[i].jobs[j])
  {
    hide Effect;
    hide Enabled;
    hide InRange;
    hide Init;
    hide RunnerInv;
    hide Remaining;
    if i < m {
      OwnStepsAreFew(cfg, states, actions, i, m - 1, j);
      assert actions[i..m][..m - 1 - i] == actions[i..m - 1];
      assert IsStep(cfg, states[m - 1], actions[m - 1], states[m]);
      if OwnStep(actions[m - 1], j) {
        RunsKeepInv(cfg, states, actions, m - 1);
        OwnStepLeavesLess(cfg, states[m - 1], actions[m - 1], j);
      } else {
        OtherStepsLeaveAsMuch(cfg, states[m - 1], actions[m - 1], j);
      }
    }
  }

  /** A job that has just begun has at most nine steps for each item of its plan, and one more. */
  lemma NewJobsAreBounded(cfg: Config, s: State, request: Request, replan: Plan)
    ensures
      var next := Begin(cfg, s, request, replan);
      |next.jobs| == |s.jobs| + 1 && Remaining(next.jobs[|s.jobs|]) <= 9 * |request.plan.items| + 1
  {
    hide Prepare;
    hide Resolve;
    hide Writable;
    var job := Fresh(cfg, s.cache, request);
    FewDevices(job.ops);
    AtMostSixEach(job.ops);
    if DevicesOf(job.ops) == [] {
      FreshLeavesLittle(cfg, s.cache, request, replan);
    }
  }

  lemma FreshLeavesLittle(cfg: Config, c: Cache, request: Request, replan: Plan)
    ensures Remaining(Prepare(Fresh(cfg, c, request), c, replan)) <= 8 * |request.plan.items| + 1
  {
    hide SnapshotOf;
    hide DevicesOf;
    hide Mine;
    hide IsStale;
    hide Writable;
    var job := Fresh(cfg, c, request);
    var ops := MarkStale(job.request.plan, replan, job.ops);
    FewDevices(ops);
    QueuedLeft(TasksOf(ops, DevicesOf(ops)));
    AtMostSixEach(ops);
  }

  // No job is ever stuck.

  lemma ReplanExists(c: Cache, request: Request) returns (replan: Plan)
    ensures Replans(c, request, replan)
  {
    hide PlanInputs;
    hide IsPlan;
    hide Keyed;
    hide Narrowed;
    var inp := PlanInputs(c, request.scope, request.selected, request.desired);
    PlanInputsKeyed(c, request.scope, request.selected, request.desired);
    var whole := PlanExists(inp);
    replan := whole.(items := Narrowed(whole.items, request.scope, request.selected));
    assert Narrows(c, request.scope, request.selected, request.desired, replan, whole);
  }

  lemma IdleMeansFree(cfg: Config, job: Job)
    requires JobInv(cfg, job) && job.phase.Writing? && forall t | t in job.tasks :: !InConversation(t)
    ensures job.free == cfg.maxDevices
  {
    hide OpsSound;
    hide AllTaken;
    hide Approved;
    hide SnapshotOf;
    hide CacheInv;
    hide Exact;
    hide OneTaskEach;
    hide TaskInv;
    NobodyBusy(job.tasks);
  }

  /** While a job is not done, one of its own steps can happen next. */
  lemma JobsAreNeverStuck(cfg: Config, s: State, j: nat) returns (a: Action)
    requires RunnerInv(cfg, s) && j < |s.jobs| && !s.jobs[j].phase.Done? && cfg.maxDevices > 0
    ensures OwnStep(a, j) && Enabled(cfg, s, a)
  {
    hide CacheInv;
    hide Exact;
    hide Resolve;
    hide Replans;
    hide AtWork;
    hide OpsSound;
    var job := s.jobs[j];
    assert JobInv(cfg, job);
    if job.phase.Rereading? {
      var replan := ReplanExists(Answered(s.cache, job.phase.todo[0], None), job.request);
      a := Reread(j, None, replan);
    } else if talking :| 0 <= talking < |job.tasks| && InConversation(job.tasks[talking]) {
      var pc := job.tasks[talking].pc;
      a := if pc.Calling? then Answer(j, talking, WriteFailed)
        else if pc.Sleeping? then Wake(j, talking)
        else DeepRead(j, talking, None);
    } else {
      IdleMeansFree(cfg, job);
      if queued :| 0 <= queued < |job.tasks| && job.tasks[queued].pc.Queued? {
        a := Acquire(j, queued);
      } else {
        a := Conclude(j);
      }
    }
  }

  lemma OneMoreStep(cfg: Config, a: Action, states: seq<State>, actions: seq<Action>, s: State)
    requires IsRun(cfg, states, actions) && IsStep(cfg, s, a, states[0])
    ensures IsRun(cfg, [s] + states, [a] + actions)
  {
    hide Effect;
    hide Enabled;
    hide InRange;
    var more, acts := [s] + states, [a] + actions;
    forall i | 0 <= i < |acts| ensures IsStep(cfg, more[i], acts[i], more[i + 1]) {
      if i > 0 {
        assert IsStep(cfg, states[i - 1], actions[i - 1], states[i]);
      }
    }
  }

  /** From any state it can be in, a job can be run to its end by its own steps alone. */
  lemma {:induction false} JobsCanFinish(cfg: Config, s: State, j: nat) returns (states: seq<State>,
          actions: seq<Action>)
    requires RunnerInv(cfg, s) && j < |s.jobs| && cfg.maxDevices > 0
    ensures IsRun(cfg, states, actions) && states[0] == s
    ensures j < |states[|actions|].jobs| && states[|actions|].jobs[j].phase.Done?
    ensures forall a | a in actions :: OwnStep(a, j)
    decreases Remaining(s.jobs[j])
  {
    hide Effect;
    hide Enabled;
    hide InRange;
    hide RunnerInv;
    hide Remaining;
    if s.jobs[j].phase.Done? {
      states, actions := [s], [];
    } else {
      InvIsInRange(cfg, s);
      var a := JobsAreNeverStuck(cfg, s, j);
      OwnStepLeavesLess(cfg, s, a, j);
      StepKeepsRunnerInv(cfg, s, a);
      var later, rest := JobsCanFinish(cfg, Effect(cfg, s, a), j);
      OneMoreStep(cfg, a, later, rest, s);
      states, actions := [s] + later, [a] + rest;
    }
  }
}
