/** Every step of the apply engine keeps its invariant, so every reachable state has it. */
module ExecutorRuns {
  import opened Wrappers
  import opened Models
  import opened Fingerprints
  import opened Planner
  import opened Caches
  import opened CacheProperties
  import opened Rollbacks
  import opened Executor
  import opened ExecutorInvariant
  import opened ExecutorSteps

  // From the request to the coroutines.

  /** Before the check an operation is refused, or allowed and untouched. */
  lemma StartIsFine(cfg: Config, job: Job, i: nat)
    requires job.ops == StartOps(cfg, job.started, job.request) && i < |job.ops|
    ensures
      var op := job.ops[i];
      && OpFine(cfg, job, op) && op.attempts == 0 && (op.outcome.None? ==> Untouched(op) && IsWrite(op))
  {
    hide IsSystem;
    hide Fingerprint;
  }

  lemma MarkedIsFine(cfg: Config, job: Job, replan: Plan, i: nat)
    requires job.ops == StartOps(cfg, job.started, job.request) && i < |job.ops|
    ensures
      var op := MarkStale(job.request.plan, replan, job.ops)[i];
      && OpFine(cfg, job, op) && op.attempts == 0 && (op.outcome.None? ==> Untouched(op) && IsWrite(op)) &&
        op.item == job.ops[i].item
  {
    hide IsStale;
    hide Writable;
    hide StartOps;
    StartIsFine(cfg, job, i);
  }

  lemma TasksStandQueued(ops: seq<Op>, devices: seq<DeviceHandle>, t: nat)
    requires t < |devices|
    requires forall i | 0 <= i < |ops| && ops[i].outcome.None? :: Untouched(ops[i])
    ensures TaskInv(ops, TasksOf(ops, devices)[t])
  {
    hide Mine;
    hide Untouched;
    var task := TasksOf(ops, devices)[t];
    MineAre(ops, devices[t].Identity());
    forall p | 0 <= p < |task.mine|
      ensures task.mine[p] < |ops| && IsFor(ops[task.mine[p]], task.device.Identity()) && Untouched(ops[task.mine[p]])
    {
      assert task.mine[p] in task.mine;
    }
  }

  lemma EveryWriteIsTaken(job: Job)
    requires job.tasks == TasksOf(job.ops, DevicesOf(job.ops))
    requires forall i | 0 <= i < |job.ops| && Live(job.ops[i]) :: IsWrite(job.ops[i])
    ensures AllTaken(job) && OneTaskEach(job.tasks) && DevicesAtWork(job.tasks) == DevicesOf(job.ops)
  {
    hide Mine;
    hide DevicesOf;
    hide ListsDevice;
    var devices := DevicesOf(job.ops);
    DevicesAre(job.ops);
    forall i | 0 <= i < |job.ops| && Live(job.ops[i]) ensures TakenBy(job, i) {
      var id := SourceOfItem(job.ops[i].item);
      var t := PlaceIn(devices, id);
      MineAre(job.ops, id);
      assert i in job.tasks[t].mine;
    }
  }

  lemma PlaceIn(handles: seq<DeviceHandle>, id: string) returns (t: nat)
    requires ListsDevice(handles, id)
    ensures t < |handles| && handles[t].Identity() == id
  {
    var h :| h in handles && h.Identity() == id;
    t :| 0 <= t < |handles| && handles[t] == h;
  }

  /** What is not stale is still planned. */
  lemma NotStaleIsPlanned(plan: Plan, replan: Plan, ops: seq<Op>, i: nat)
    requires i < |ops| && IsWrite(MarkStale(plan, replan, ops)[i]) && replan.token != plan.token
    ensures IsWrite(ops[i]) && InPlan(replan, ops[i].item)
  {
    hide CurrentOp;
    hide Fingerprint;
    assert !IsStale(plan, replan, ops, SourceOfItem(ops[i].item));
  }

  lemma PreparedIsApproved(job: Job, c: Cache, replan: Plan)
    requires Replans(c, job.request, replan)
    ensures Approved(Prepare(job, c, replan))
  {
    hide Replans;
    hide InPlan;
    hide SnapshotOf;
    hide DevicesOf;
    hide Mine;
    hide MarkStale;
    var next := Prepare(job, c, replan);
    if replan.token != job.request.plan.token {
      forall t | 0 <= t < |next.tasks| ensures AllInPlan(replan, next.ops, next.tasks[t].mine) {
        MineAre(next.ops, next.tasks[t].device.Identity());
        forall p | 0 <= p < |next.tasks[t].mine|
          ensures next.tasks[t].mine[p] < |next.ops| && InPlan(replan, next.ops[next.tasks[t].mine[p]].item)
        {
          var i := next.tasks[t].mine[p];
          assert i in next.tasks[t].mine;
          MarkedLength(job.request.plan, replan, job.ops);
          NotStaleIsPlanned(job.request.plan, replan, job.ops, i);
        }
      }
    }
    assert ApprovedBy(next, replan);
  }

  lemma MarkedLength(plan: Plan, replan: Plan, ops: seq<Op>)
    ensures |MarkStale(plan, replan, ops)| == |ops|
    ensures forall i | 0 <= i < |ops| :: MarkStale(plan, replan, ops)[i].item == ops[i].item
  {
    hide IsStale;
  }

  lemma {:induction false} DevicesNeedWrites(ops: seq<Op>)
    ensures DevicesOf(ops) != [] ==> exists i | 0 <= i < |ops| :: IsWrite(ops[i])
  {
    hide IsWrite;
    if ops != [] {
      var front := ops[..|ops| - 1];
      DevicesNeedWrites(front);
      if i :| 0 <= i < |front| && IsWrite(front[i]) {
        assert IsWrite(ops[i]);
      }
    }
  }

  /** With nothing to write there is nothing stale and still nothing to write. */
  lemma NoNewDevices(plan: Plan, replan: Plan, ops: seq<Op>)
    requires DevicesOf(ops) == []
    ensures DevicesOf(MarkStale(plan, replan, ops)) == []
  {
    hide DevicesOf;
    hide IsStale;
    DevicesAre(ops);
    DevicesNeedWrites(MarkStale(plan, replan, ops));
    if i :| 0 <= i < |ops| && IsWrite(MarkStale(plan, replan, ops)[i]) {
      assert IsWrite(ops[i]);
    }
  }

  lemma PrepareKeepsInv(cfg: Config, job: Job, c: Cache, replan: Plan)
    requires SameItems(job.request.plan, job.ops) && OpsSound(cfg, job) && Unchecked(cfg, job)
    requires CacheInv(c) && Replans(c, job.request, replan) && (Exact(c) || DevicesOf(job.ops) == [])
    ensures JobInv(cfg, Prepare(job, c, replan)) && Prepare(job, c, replan).phase.Writing?
  {
    hide CacheInv;
    hide Exact;
    hide Replans;
    hide SnapshotOf;
    hide Approved;
    hide StartOps;
    hide DevicesOf;
    hide OpSound;
    hide OpStanding;
    hide MarkStale;
    hide TaskInv;
    hide AllTaken;
    hide OneTaskEach;
    hide Untouched;
    hide IsWrite;
    var next := Prepare(job, c, replan);
    MarkedLength(job.request.plan, replan, job.ops);
    if DevicesOf(job.ops) == [] {
      NoNewDevices(job.request.plan, replan, job.ops);
    }
    forall i | 0 <= i < |next.ops|
      ensures OpSound(next.ops[i]) && OpStanding(cfg, next, next.ops[i])
      ensures Live(next.ops[i]) ==> Untouched(next.ops[i]) && IsWrite(next.ops[i])
    {
      MarkedIsFine(cfg, job, replan, i);
      StandingAlike(cfg, job, next, next.ops[i]);
    }
    EveryWriteIsTaken(next);
    forall t | 0 <= t < |next.tasks| ensures TaskInv(next.ops, next.tasks[t]) {
      TasksStandQueued(next.ops, DevicesOf(next.ops), t);
    }
    NobodyBusy(next.tasks);
    PreparedIsApproved(job, c, replan);
  }

  lemma StandingAlike(cfg: Config, job: Job, next: Job, op: Op)
    requires OpStanding(cfg, job, op) && next.started == job.started && next.request == job.request &&
      next.stop == job.stop
    ensures OpStanding(cfg, next, op)
  {
    hide Writable;
  }

  // Stopping and ending.

  lemma StopKeepsInv(cfg: Config, job: Job, status: JobStatus)
    requires JobInv(cfg, job) && !job.phase.Done? && job.stop.None?
    ensures JobInv(cfg, job.(stop := Some(status)))
  {
    hide CacheInv;
    hide Exact;
    hide SnapshotOf;
    hide StartOps;
    hide OpSound;
    hide TaskInv;
    hide OneTaskEach;
    hide Writable;
    hide Replans;
    hide InPlan;
    var next := job.(stop := Some(status));
    if job.phase.Writing? {
      assert AllTaken(next) by {
        forall i | 0 <= i < |next.ops| && Live(next.ops[i]) ensures TakenBy(next, i) {
          assert TakenBy(job, i);
        }
      }
      var replan :| Replans(job.checked.value, job.request, replan) && ApprovedBy(job, replan);
      assert ApprovedBy(next, replan);
    }
  }

  lemma ConcludeKeepsInv(cfg: Config, job: Job)
    requires JobInv(cfg, job) && job.phase.Writing? && forall t | t in job.tasks :: t.pc.Finished?
    ensures JobInv(cfg, job.(phase := Done(StatusOf(job))))
  {
    hide CacheInv;
    hide Exact;
    hide SnapshotOf;
    hide OpSound;
    hide OpStanding;
    hide TaskInv;
    hide OneTaskEach;
    hide Replans;
    hide InPlan;
    hide Successful;
    var next := job.(phase := Done(StatusOf(job)));
    assert AllTaken(next) by {
      forall i | 0 <= i < |next.ops| && Live(next.ops[i]) ensures TakenBy(next, i) {
        assert TakenBy(job, i);
      }
    }
    var replan :| Replans(job.checked.value, job.request, replan) && ApprovedBy(job, replan);
    assert ApprovedBy(next, replan);
    assert OpsSound(cfg, next) by {
      forall i | 0 <= i < |next.ops| ensures OpStanding(cfg, next, next.ops[i]) {
        StandingAlike(cfg, job, next, next.ops[i]);
      }
    }
  }

  lemma RereadKeepsInv(cfg: Config, job: Job, todo: seq<DeviceHandle>)
    requires JobInv(cfg, job) && job.phase.Rereading? && todo != []
    ensures JobInv(cfg, job.(phase := Rereading(todo)))
  {
    hide StartOps;
    hide OpSound;
    hide OpStanding;
    var next := job.(phase := Rereading(todo));
    assert OpsSound(cfg, next) by {
      forall i | 0 <= i < |next.ops| ensures OpStanding(cfg, next, next.ops[i]) {
        StandingAlike(cfg, job, next, next.ops[i]);
      }
    }
  }

  lemma RereadingIsUnchecked(cfg: Config, job: Job)
    requires JobInv(cfg, job) && job.phase.Rereading?
    ensures SameItems(job.request.plan, job.ops) && OpsSound(cfg, job) && Unchecked(cfg, job)
  {
    hide OpsSound;
    hide StartOps;
  }

  function Fresh(cfg: Config, c: Cache, request: Request): Job {
    Job(request, StartOps(cfg, c, request), None, Rereading(DevicesOf(StartOps(cfg, c, request))), [], cfg.maxDevices,
      None, c, None)
  }

  lemma BeginKeepsInv(cfg: Config, c: Cache, request: Request)
    ensures SameItems(request.plan, Fresh(cfg, c, request).ops) && OpsSound(cfg, Fresh(cfg, c, request)) &&
      Unchecked(cfg, Fresh(cfg, c, request))
    ensures DevicesOf(StartOps(cfg, c, request)) != [] ==> JobInv(cfg, Fresh(cfg, c, request))
  {
    hide OpSound;
    hide OpStanding;
    hide DevicesOf;
    hide Writable;
    var job := Fresh(cfg, c, request);
    forall i | 0 <= i < |job.ops| ensures OpSound(job.ops[i]) && OpStanding(cfg, job, job.ops[i]) {
      StartIsFine(cfg, job, i);
    }
  }

  // The runner.

  lemma AnsweredKeepsInv(c: Cache, handle: DeviceHandle, answer: Option<(DeviceCapabilities, ObservedDevice)>)
    requires CacheInv(c) && Honest(Read(handle, answer))
    ensures CacheInv(Answered(c, handle, answer))
  {
    hide CacheInv;
    hide Exact;
    hide Honest;
    hide Next;
    StepKeepsCacheInv(c, Read(handle, answer));
    ResolvingKeepsInv(Next(c, Read(handle, answer)));
  }

  /** After an answered re-read ownership has just been resolved. */
  lemma AnsweredIsExact(c: Cache, handle: DeviceHandle, answer: Option<(DeviceCapabilities, ObservedDevice)>)
    ensures Exact(Answered(c, handle, answer))
  {
    hide Resolve;
    hide Next;
    hide Exact;
    ResolvedCacheIsExact(Next(c, Read(handle, answer)));
  }

  lemma ResolvingKeepsInv(c: Cache)
    requires CacheInv(c)
    ensures CacheInv(Resolve(c))
  {
    hide CacheInv;
    hide Exact;
    hide Resolve;
    StepKeepsCacheInv(c, Resolving);
  }

  lemma OneJobChanged(cfg: Config, s: State, j: nat, job: Job, cache: Cache)
    requires RunnerInv(cfg, s) && j < |s.jobs| && JobInv(cfg, job) && CacheInv(cache)
    requires !s.jobs[j].phase.Done? && !job.phase.Done?
    ensures RunnerInv(cfg, s.(jobs := s.jobs[j := job], cache := cache))
  {
    hide JobInv;
    hide CacheInv;
    hide Exact;
  }

  lemma RunningIsCurrent(cfg: Config, s: State, j: nat)
    requires RunnerInv(cfg, s) && j < |s.jobs| && !s.jobs[j].phase.Done?
    ensures s.current == Some(j)
  {
    hide JobInv;
    hide CacheInv;
    hide Exact;
  }

  lemma StopRunnerKeepsInv(cfg: Config, s: State, status: JobStatus)
    requires RunnerInv(cfg, s)
    ensures RunnerInv(cfg, Stop(s, status))
  {
    hide JobInv;
    hide CacheInv;
    hide Exact;
    if s.current.Some? && s.current.value < |s.jobs| && s.jobs[s.current.value].stop.None? {
      var j := s.current.value;
      StopKeepsInv(cfg, s.jobs[j], status);
      OneJobChanged(cfg, s, j, s.jobs[j].(stop := Some(status)), s.cache);
    }
  }

  lemma ApplyKeepsInv(cfg: Config, s: State, request: Request, replan: Plan)
    requires RunnerInv(cfg, s) && s.current.None?
    requires DevicesOf(StartOps(cfg, s.cache, request)) == [] ==> Replans(s.cache, request, replan)
    ensures RunnerInv(cfg, Begin(cfg, s, request, replan))
  {
    hide JobInv;
    hide CacheInv;
    hide Exact;
    hide Replans;
    hide Prepare;
    hide Resolve;
    hide StartOps;
    hide DevicesOf;
    var job := Fresh(cfg, s.cache, request);
    BeginKeepsInv(cfg, s.cache, request);
    if DevicesOf(StartOps(cfg, s.cache, request)) == [] {
      PrepareKeepsInv(cfg, job, s.cache, replan);
      ResolvingKeepsInv(s.cache);
    }
  }

  lemma RereadStepKeepsInv(cfg: Config, s: State, j: nat, answer: Option<(DeviceCapabilities, ObservedDevice)>,
          replan: Plan)
    requires RunnerInv(cfg, s) && InRange(s) && Enabled(cfg, s, Reread(j, answer, replan))
    ensures RunnerInv(cfg, Effect(cfg, s, Reread(j, answer, replan)))
  {
    hide JobInv;
    hide CacheInv;
    hide Exact;
    hide Replans;
    hide Prepare;
    hide Resolve;
    hide Answered;
    hide Honest;
    hide InRange;
    var job := s.jobs[j];
    AnsweredKeepsInv(s.cache, job.phase.todo[0], answer);
    RereadingIsUnchecked(cfg, job);
    var cache := Answered(s.cache, job.phase.todo[0], answer);
    AnsweredIsExact(s.cache, job.phase.todo[0], answer);
    if |job.phase.todo| == 1 {
      PrepareKeepsInv(cfg, job, cache, replan);
      ResolvingKeepsInv(cache);
      OneJobChanged(cfg, s, j, Prepare(job, cache, replan), Stored(cache, Prepare(job, cache, replan)));
    } else {
      RereadKeepsInv(cfg, job, job.phase.todo[1..]);
      OneJobChanged(cfg, s, j, job.(phase := Rereading(job.phase.todo[1..])), cache);
    }
  }

  lemma SamePhase(job: Job, t: nat, status: WriteStatus, answer: Option<ObservedDevice>)
    requires TaskInRange(job, t)
    ensures job.free > 0 ==> AcquireJob(job, t).phase == job.phase
    ensures job.tasks[t].pc.Calling? ==> AnswerJob(job, t, status).phase == job.phase
    ensures job.tasks[t].pc.Sleeping? ==> WakeJob(job, t).phase == job.phase
    ensures DeepReadJob(job, t, answer).phase == job.phase
  {
    hide Proceed;
    hide VerifyAll;
  }

  lemma DeviceStepKeepsInv(cfg: Config, s: State, a: Action)
    requires RunnerInv(cfg, s) && InRange(s) && Enabled(cfg, s, a)
    requires a.Acquire? || a.Answer? || a.Wake? || a.DeepRead?
    ensures RunnerInv(cfg, Effect(cfg, s, a))
  {
    hide JobInv;
    hide CacheInv;
    hide Exact;
    hide Resolve;
    hide Answered;
    hide Honest;
    hide TaskInRange;
    hide AcquireJob;
    hide AnswerJob;
    hide WakeJob;
    hide DeepReadJob;
    var job, t := s.jobs[a.job], a.task;
    assert TaskInRange(job, t);
    SamePhase(job, t, if a.Answer? then a.status else WriteFailed,
      if a.DeepRead? then Cached(s.cache, job.tasks[t].device, a.answer) else None);
    match a
    case Acquire(j, _) =>
      AcquireKeepsInv(cfg, job, t);
      OneJobChanged(cfg, s, j, AcquireJob(job, t), s.cache);
    case Answer(j, _, status) =>
      AnswerKeepsInv(cfg, job, t, status);
      OneJobChanged(cfg, s, j, AnswerJob(job, t, status), s.cache);
    case Wake(j, _) =>
      WakeKeepsInv(cfg, job, t);
      OneJobChanged(cfg, s, j, WakeJob(job, t), s.cache);
    case DeepRead(j, _, answer) =>
      AnsweredKeepsInv(s.cache, job.tasks[t].device, answer);
      var read := Cached(s.cache, job.tasks[t].device, answer);
      DeepReadKeepsInv(cfg, job, t, read);
      OneJobChanged(cfg, s, j, DeepReadJob(job, t, read), Answered(s.cache, job.tasks[t].device, answer));
  }

  lemma ConcludeStepKeepsInv(cfg: Config, s: State, j: nat)
    requires RunnerInv(cfg, s) && InRange(s) && Enabled(cfg, s, Conclude(j))
    ensures RunnerInv(cfg, Effect(cfg, s, Conclude(j)))
  {
    hide JobInv;
    hide CacheInv;
    hide Exact;
    hide Resolve;
    hide TaskInRange;
    hide StatusOf;
    RunningIsCurrent(cfg, s, j);
    ConcludeKeepsInv(cfg, s.jobs[j]);
    ResolvingKeepsInv(s.cache);
  }

  lemma StepKeepsRunnerInv(cfg: Config, s: State, a: Action)
    requires RunnerInv(cfg, s) && InRange(s) && Enabled(cfg, s, a)
    ensures RunnerInv(cfg, Effect(cfg, s, a))
  {
    hide JobInv;
    hide CacheInv;
    hide Exact;
    hide InRange;
    hide Honest;
    hide Stop;
    hide Begin;
    hide Replans;
    hide Resolve;
    hide Next;
    match a
    case Apply(request, replan) =>
      if !s.shutDown && s.current.None? {
        ApplyKeepsInv(cfg, s, request, replan);
      }
    case Cancel => StopRunnerKeepsInv(cfg, s, Cancelled);
    case Shutdown => StopRunnerKeepsInv(cfg, s.(shutDown := true), Interrupted);
    case Elsewhere(step) => StepKeepsCacheInv(s.cache, step);
    case Reread(j, answer, replan) => RereadStepKeepsInv(cfg, s, j, answer, replan);
    case Acquire(_, _) => DeviceStepKeepsInv(cfg, s, a);
    case Answer(_, _, _) => DeviceStepKeepsInv(cfg, s, a);
    case Wake(_, _) => DeviceStepKeepsInv(cfg, s, a);
    case DeepRead(_, _, _) => DeviceStepKeepsInv(cfg, s, a);
    case Conclude(j) => ConcludeStepKeepsInv(cfg, s, j);
  }

  /** Every state of every run, in any interleaving, has the invariant. */
  lemma {:induction false} RunsKeepInv(cfg: Config, states: seq<State>, actions: seq<Action>, i: nat)
    requires IsRun(cfg, states, actions) && Init(states[0]) && i < |states|
    ensures RunnerInv(cfg, states[i])
  {
    hide Effect;
    hide Enabled;
    hide InRange;
    hide CacheInv;
    hide Exact;
    if i == 0 {
    } else {
      RunsKeepInv(cfg, states, actions, i - 1);
      assert IsStep(cfg, states[i - 1], actions[i - 1], states[i]);
      StepKeepsRunnerInv(cfg, states[i - 1], actions[i - 1]);
    }
  }
}
