/** The deep read of a device comes after the last call to it, and nothing about it changes afterwards. */
module ExecutorReads {
  import opened Wrappers
  import opened Models
  import opened Caches
  import opened CacheProperties
  import opened Rollbacks
  import opened Executor
  import opened ExecutorInvariant
  import opened ExecutorSteps
  import opened ExecutorRuns

  // A coroutine's step touches its own operations only.

  lemma {:induction false} ProceedIsMine(ops: seq<Op>, stop: Option<JobStatus>, mine: seq<nat>, k: nat, attempted: bool)
    requires k <= |mine| && Indexes(ops, mine) && forall i | i in mine :: i < |ops|
    ensures OnlyMine(ops, Proceed(ops, stop, mine, k, attempted).0, mine)
    decreases |mine| - k
  {
    hide OnlyMine;
    if k == |mine| {
      SameIsMine(ops, mine);
    } else {
      assert mine[k] in mine;
      var op := ops[mine[k]];
      if stop.Some? {
        var next := ops[mine[k] := op.(outcome := Some(NotAttempted(stop.value)))];
        OneChangeIsMine(ops, mine, k, op.(outcome := Some(NotAttempted(stop.value))));
        ProceedIsMine(next, stop, mine, k + 1, attempted);
        MineTwice(ops, next, Proceed(next, stop, mine, k + 1, attempted).0, mine);
      } else {
        OneChangeIsMine(ops, mine, k, op.(attempts := 1));
      }
    }
  }

  lemma SameIsMine(ops: seq<Op>, mine: seq<nat>)
    ensures OnlyMine(ops, ops, mine)
  {
  }

  /** One operation in hand changed, and the coroutine went on. */
  lemma ChangedThenProceeds(ops: seq<Op>, stop: Option<JobStatus>, mine: seq<nat>, k: nat, op: Op, attempted: bool)
    requires k < |mine| && Indexes(ops, mine) && op.item == ops[mine[k]].item
    requires forall i | i in mine :: i < |ops|
    ensures OnlyMine(ops, ops[mine[k] := op], mine)
    ensures OnlyMine(ops, Proceed(ops[mine[k] := op], stop, mine, k + 1, attempted).0, mine)
  {
    hide OnlyMine;
    hide Proceed;
    OneChangeIsMine(ops, mine, k, op);
    var next := ops[mine[k] := op];
    ProceedIsMine(next, stop, mine, k + 1, attempted);
    MineTwice(ops, next, Proceed(next, stop, mine, k + 1, attempted).0, mine);
  }

  /** What any step of coroutine `t` leaves of its job: the other coroutines, and their operations. */
  ghost predicate OnlyTask(job: Job, next: Job, t: nat) {
    && t < |job.tasks| && |next.tasks| == |job.tasks| && OnlyMine(job.ops, next.ops, job.tasks[t].mine)
    && (forall u | 0 <= u < |job.tasks| && u != t :: next.tasks[u] == job.tasks[u])
    && next.tasks[t].mine == job.tasks[t].mine && next.tasks[t].device == job.tasks[t].device
  }

  lemma AcquireIsOnlyTask(job: Job, t: nat)
    requires TaskInRange(job, t) && Indexes(job.ops, job.tasks[t].mine) && job.free > 0
    ensures OnlyTask(job, AcquireJob(job, t), t) && AcquireJob(job, t).tasks[t].read == job.tasks[t].read
  {
    hide OnlyMine;
    hide Proceed;
    ProceedIsMine(job.ops, job.stop, job.tasks[t].mine, 0, false);
  }

  lemma AnswerIsOnlyTask(job: Job, t: nat, status: WriteStatus)
    requires TaskInRange(job, t) && Indexes(job.ops, job.tasks[t].mine) && job.tasks[t].pc.Calling?
    ensures OnlyTask(job, AnswerJob(job, t, status), t) && AnswerJob(job, t, status).tasks[t].read == job.tasks[t].read
  {
    hide OnlyMine;
    hide Proceed;
    var task, k := job.tasks[t], job.tasks[t].pc.k;
    assert task.mine[k] in task.mine;
    ChangedThenProceeds(job.ops, job.stop, task.mine, k, AnsweredOp(job.ops[task.mine[k]], status), task.attempted);
  }

  lemma WakeIsOnlyTask(job: Job, t: nat)
    requires TaskInRange(job, t) && Indexes(job.ops, job.tasks[t].mine) && job.tasks[t].pc.Sleeping?
    ensures OnlyTask(job, WakeJob(job, t), t) && WakeJob(job, t).tasks[t].read == job.tasks[t].read
  {
    hide OnlyMine;
    hide Proceed;
    var task, k := job.tasks[t], job.tasks[t].pc.k;
    assert task.mine[k] in task.mine;
    ChangedThenProceeds(job.ops, job.stop, task.mine, k, WokenOp(job.ops[task.mine[k]], job.stop), task.attempted);
  }

  lemma DeepReadIsOnlyTask(job: Job, t: nat, answer: Option<ObservedDevice>)
    requires TaskInRange(job, t)
    ensures OnlyTask(job, DeepReadJob(job, t, answer), t)
    ensures SameAttempts(job, DeepReadJob(job, t, answer))
  {
    hide OnlyMine;
    hide Holds;
    VerifyIsMine(job.ops, job.tasks[t].mine, answer);
  }

  ghost predicate SameAttempts(job: Job, next: Job) {
    |next.ops| == |job.ops| && forall i | 0 <= i < |job.ops| :: next.ops[i].attempts == job.ops[i].attempts
  }

  // A device that was read is done with.

  /** A coroutine and its operations are as they were. */
  ghost predicate LeftAlone(job: Job, next: Job, t: nat) {
    && t < |job.tasks| && t < |next.tasks| && next.tasks[t] == job.tasks[t] && |next.ops| == |job.ops|
    && forall p | 0 <= p < |job.tasks[t].mine| :: job.tasks[t].mine[p] < |job.ops| &&
         next.ops[job.tasks[t].mine[p]] == job.ops[job.tasks[t].mine[p]]
  }

  lemma OthersAreLeftAlone(job: Job, next: Job, t: nat, u: nat)
    requires OnlyTask(job, next, u) && t < |job.tasks| && t != u && OneTaskEach(job.tasks)
    requires TaskInv(job.ops, job.tasks[t]) && TaskInv(job.ops, job.tasks[u])
    ensures LeftAlone(job, next, t)
  {
    hide TaskStands;
    var mine, other := job.tasks[t].mine, job.tasks[u].mine;
    forall p | 0 <= p < |mine| ensures mine[p] < |job.ops| && next.ops[mine[p]] == job.ops[mine[p]] {
      assert IsFor(job.ops[mine[p]], job.tasks[t].device.Identity());
      forall q | 0 <= q < |other| ensures other[q] != mine[p] {
        assert IsFor(job.ops[other[q]], job.tasks[u].device.Identity());
      }
      assert Outside(other, 0, mine[p]);
    }
  }

  lemma TasksAreSound(cfg: Config, s: State, j: nat, t: nat)
    requires RunnerInv(cfg, s) && j < |s.jobs| && t < |s.jobs[j].tasks|
    ensures TaskInv(s.jobs[j].ops, s.jobs[j].tasks[t]) && OneTaskEach(s.jobs[j].tasks)
    ensures Indexes(s.jobs[j].ops, s.jobs[j].tasks[t].mine)
  {
    hide OpsSound;
    hide TaskInv;
    hide OneTaskEach;
    hide AllTaken;
    hide Approved;
    hide SnapshotOf;
    hide StartOps;
    hide CacheInv;
    hide Exact;
    assert JobInv(cfg, s.jobs[j]);
    TaskHasIndexes(s.jobs[j].ops, s.jobs[j].tasks[t]);
  }

  lemma SameIsLeftAlone(job: Job, next: Job, t: nat)
    requires t < |job.tasks| && Indexes(job.ops, job.tasks[t].mine) && next.ops == job.ops && next.tasks == job.tasks
    ensures LeftAlone(job, next, t)
  {
  }

  /** A step of a job that is not this coroutine's. */
  lemma DeviceStepIsOnlyTask(cfg: Config, s: State, a: Action)
    requires RunnerInv(cfg, s) && InRange(s) && Enabled(cfg, s, a)
    requires a.Acquire? || a.Answer? || a.Wake? || a.DeepRead?
    ensures a.job < |s.jobs| && |Effect(cfg, s, a).jobs| == |s.jobs|
    ensures OnlyTask(s.jobs[a.job], Effect(cfg, s, a).jobs[a.job], a.task)
    ensures forall k | 0 <= k < |s.jobs| && k != a.job :: Effect(cfg, s, a).jobs[k] == s.jobs[k]
    ensures !a.DeepRead? ==> Effect(cfg, s, a).jobs[a.job].tasks[a.task].read == s.jobs[a.job].tasks[a.task].read
    ensures a.DeepRead? ==> SameAttempts(s.jobs[a.job], Effect(cfg, s, a).jobs[a.job])
    ensures a.DeepRead? ==>
      Effect(cfg, s, a).jobs[a.job].tasks[a.task].read ==
        Some(Cached(s.cache, s.jobs[a.job].tasks[a.task].device, a.answer))
  {
    hide RunnerInv;
    hide OnlyTask;
    hide SameAttempts;
    hide Answered;
    hide Cached;
    hide Honest;
    hide TaskInRange;
    hide Proceed;
    hide VerifyAll;
    hide AcquireJob;
    hide AnswerJob;
    hide WakeJob;
    var job, t := s.jobs[a.job], a.task;
    assert TaskInRange(job, t);
    TasksAreSound(cfg, s, a.job, t);
    match a
    case Acquire(_, _) => AcquireIsOnlyTask(job, t);
    case Answer(_, _, status) => AnswerIsOnlyTask(job, t, status);
    case Wake(_, _) => WakeIsOnlyTask(job, t);
    case DeepRead(_, _, answer) => DeepReadIsOnlyTask(job, t, Cached(s.cache, job.tasks[t].device, answer));
  }

  /** Once a device was read, no step changes its coroutine or any of its operations. */
  lemma ReadIsFinal(cfg: Config, s: State, a: Action, j: nat, t: nat)
    requires RunnerInv(cfg, s) && InRange(s) && Enabled(cfg, s, a)
    requires j < |s.jobs| && t < |s.jobs[j].tasks| && s.jobs[j].tasks[t].read.Some?
    ensures j < |Effect(cfg, s, a).jobs| && LeftAlone(s.jobs[j], Effect(cfg, s, a).jobs[j], t)
  {
    hide RunnerInv;
    hide LeftAlone;
    hide OnlyTask;
    hide Answered;
    hide Resolve;
    hide Next;
    hide Prepare;
    hide StartOps;
    hide DevicesOf;
    hide AcquireJob;
    hide AnswerJob;
    hide WakeJob;
    hide DeepReadJob;
    hide Replans;
    hide Honest;
    hide TaskInRange;
    hide Indexes;
    TasksAreSound(cfg, s, j, t);
    ReadMeansFinished(s.jobs[j].ops, s.jobs[j].tasks[t]);
    if a.Acquire? || a.Answer? || a.Wake? || a.DeepRead? {
      DeviceStepIsOnlyTask(cfg, s, a);
      if a.job == j {
        TasksAreSound(cfg, s, j, a.task);
        OthersAreLeftAlone(s.jobs[j], Effect(cfg, s, a).jobs[j], t, a.task);
      } else {
        SameIsLeftAlone(s.jobs[j], s.jobs[j], t);
      }
    } else {
      if a.Reread? && a.job == j {
        RereadingHasNoTasks(cfg, s, j);
      }
      SameIsLeftAlone(s.jobs[j], Effect(cfg, s, a).jobs[j], t);
    }
  }

  lemma ReadMeansFinished(ops: seq<Op>, t: Task)
    requires TaskInv(ops, t) && t.read.Some?
    ensures t.pc.Finished?
  {
    hide Confirmed;
  }

  lemma RereadingHasNoTasks(cfg: Config, s: State, j: nat)
    requires RunnerInv(cfg, s) && j < |s.jobs| && s.jobs[j].phase.Rereading?
    ensures s.jobs[j].tasks == []
  {
    hide OpsSound;
    hide StartOps;
    hide CacheInv;
    hide Exact;
    assert JobInv(cfg, s.jobs[j]);
  }

  // Where a read came from.

  /** Only a deep read of this coroutine's own gives it one. */
  lemma ReadsAppearOnlyByReading(cfg: Config, s: State, a: Action, j: nat, t: nat)
    requires RunnerInv(cfg, s) && InRange(s) && Enabled(cfg, s, a)
    requires j < |Effect(cfg, s, a).jobs| && t < |Effect(cfg, s, a).jobs[j].tasks| &&
      Effect(cfg, s, a).jobs[j].tasks[t].read.Some?
    requires j < |s.jobs| && t < |s.jobs[j].tasks| ==> s.jobs[j].tasks[t].read.None?
    ensures a.DeepRead? && a.job == j && a.task == t
  {
    hide RunnerInv;
    hide OnlyTask;
    hide Answered;
    hide Resolve;
    hide Next;
    hide StartOps;
    hide DevicesOf;
    hide MarkStale;
    hide Mine;
    hide SnapshotOf;
    hide AcquireJob;
    hide AnswerJob;
    hide WakeJob;
    hide DeepReadJob;
    hide Replans;
    hide Honest;
    hide TaskInRange;
    if a.Acquire? || a.Answer? || a.Wake? || a.DeepRead? {
      DeviceStepIsOnlyTask(cfg, s, a);
      if a.job == j && a.task != t {
        OtherTasksStay(s.jobs[j], Effect(cfg, s, a).jobs[j], a.task, t);
      } else if a.job == j {
        SameTasks(s.jobs[j], Effect(cfg, s, a).jobs[j], t);
      }
    }
  }

  lemma OtherTasksStay(job: Job, next: Job, t: nat, u: nat)
    requires OnlyTask(job, next, t) && u < |next.tasks| && u != t
    ensures u < |job.tasks| && next.tasks[u] == job.tasks[u]
  {
  }

  lemma SameTasks(job: Job, next: Job, t: nat)
    requires OnlyTask(job, next, t)
    ensures t < |job.tasks|
  {
  }

  /**
   The step `r` of a run read coroutine `t` of job `j`, and that is what state `i` records of it; no
   call was made to it since.
   */
  ghost predicate ReadSince(states: seq<State>, actions: seq<Action>, r: nat, i: nat, j: nat, t: nat) {
    && r < i < |states| && r < |actions| && actions[r].DeepRead? && actions[r].job == j && actions[r].task == t
    && j < |states[r].jobs| && j < |states[i].jobs|
    && t < |states[r].jobs[j].tasks| && t < |states[i].jobs[j].tasks|
    && states[i].jobs[j].tasks[t].read ==
      Some(Cached(states[r].cache, states[i].jobs[j].tasks[t].device, actions[r].answer))
    && NoCallsBetween(states[r].jobs[j], states[i].jobs[j], states[i].jobs[j].tasks[t].mine)
  }

  ghost predicate NoCallsBetween(job: Job, now: Job, mine: seq<nat>) {
    && |now.ops| == |job.ops|
    && forall p | 0 <= p < |mine| :: mine[p] < |job.ops| && now.ops[mine[p]].attempts == job.ops[mine[p]].attempts
  }

  lemma JustRead(cfg: Config, states: seq<State>, actions: seq<Action>, i: nat, j: nat, t: nat)
    requires i < |actions| && |states| == |actions| + 1 && RunnerInv(cfg, states[i]) &&
      IsStep(cfg, states[i], actions[i], states[i + 1])
    requires actions[i].DeepRead? && actions[i].job == j && actions[i].task == t
    ensures ReadSince(states, actions, i, i + 1, j, t)
  {
    hide RunnerInv;
    hide Effect;
    hide Enabled;
    hide InRange;
    hide Cached;
    DeviceStepIsOnlyTask(cfg, states[i], actions[i]);
    assert HasTask(states[i], j, t) by { ReadsItsTask(cfg, states[i], actions[i]); }
    TasksAreSound(cfg, states[i], j, t);
  }

  lemma ReadsItsTask(cfg: Config, s: State, a: Action)
    requires a.DeepRead? && Enabled(cfg, s, a)
    ensures HasTask(s, a.job, a.task)
  {
  }

  lemma StillRead(states: seq<State>, actions: seq<Action>, r: nat, i: nat, j: nat, t: nat)
    requires ReadSince(states, actions, r, i, j, t) && i + 1 < |states|
    requires j < |states[i + 1].jobs| && LeftAlone(states[i].jobs[j], states[i + 1].jobs[j], t)
    ensures ReadSince(states, actions, r, i + 1, j, t)
  {
    hide Cached;
  }

  /** Every deep read a state records was made by an earlier step, and no call to that device came after it. */
  lemma {:induction false} ReadsComeAfterTheLastCall(cfg: Config, states: seq<State>, actions: seq<Action>, i: nat,
          j: nat, t: nat)
    returns (r: nat)
    requires IsRun(cfg, states, actions) && Init(states[0]) && i < |states|
    requires j < |states[i].jobs| && t < |states[i].jobs[j].tasks| && states[i].jobs[j].tasks[t].read.Some?
    ensures ReadSince(states, actions, r, i, j, t)
  {
    hide Effect;
    hide Enabled;
    hide InRange;
    hide CacheInv;
    hide Exact;
    hide RunnerInv;
    hide ReadSince;
    hide LeftAlone;
    RunsKeepInv(cfg, states, actions, i - 1);
    assert IsStep(cfg, states[i - 1], actions[i - 1], states[i]);
    var s := states[i - 1];
    if j < |s.jobs| && t < |s.jobs[j].tasks| && s.jobs[j].tasks[t].read.Some? {
      r := ReadsComeAfterTheLastCall(cfg, states, actions, i - 1, j, t);
      ReadIsFinal(cfg, s, actions[i - 1], j, t);
      StillRead(states, actions, r, i - 1, j, t);
    } else {
      ReadsAppearOnlyByReading(cfg, s, actions[i - 1], j, t);
      JustRead(cfg, states, actions, i - 1, j, t);
      r := i - 1;
    }
  }
}
