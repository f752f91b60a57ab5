/** What the apply engine guarantees, in every interleaving. */
module ExecutorProperties {
  import opened Wrappers
  import opened Models
  import opened Fingerprints
  import opened Planner
  import opened PlannerProperties
  import opened PlanToken
  import opened Caches
  import opened CacheProperties
  import opened Rollbacks
  import opened Executor
  import opened ExecutorInvariant
  import opened ExecutorSteps
  import opened ExecutorRuns
  import opened ExecutorReads

  // One job at a time, one conversation per device, so many devices at once.

  /** Two jobs are never under way together. */
  lemma AtMostOneJobRuns(cfg: Config, states: seq<State>, actions: seq<Action>, i: nat, j: nat, k: nat)
    requires IsRun(cfg, states, actions) && Init(states[0]) && i < |states|
    requires j < |states[i].jobs| && k < |states[i].jobs|
    requires !states[i].jobs[j].phase.Done? && !states[i].jobs[k].phase.Done?
    ensures j == k
  {
    hide IsRun;
    hide Init;
    hide JobInv;
    RunsKeepInv(cfg, states, actions, i);
  }

  lemma TalkingMeansWriting(cfg: Config, job: Job, t: nat)
    requires JobInv(cfg, job) && t < |job.tasks| && InConversation(job.tasks[t])
    ensures job.phase.Writing? && TaskInv(job.ops, job.tasks[t]) && OneTaskEach(job.tasks)
  {
    hide OpsSound;
    hide TaskInv;
    hide OneTaskEach;
    hide AllTaken;
    hide Approved;
    hide SnapshotOf;
    hide StartOps;
    hide CacheInv;
    hide Exact;
    assert job.tasks[t] in job.tasks;
  }

  /** No device is in two conversations, and a conversation writes only links of its own device. */
  lemma OneConversationPerDevice(cfg: Config, states: seq<State>, actions: seq<Action>, i: nat, j: nat, t: nat,
          k: nat, u: nat)
    requires IsRun(cfg, states, actions) && Init(states[0]) && i < |states|
    requires j < |states[i].jobs| && t < |states[i].jobs[j].tasks| && InConversation(states[i].jobs[j].tasks[t])
    requires k < |states[i].jobs| && u < |states[i].jobs[k].tasks| && InConversation(states[i].jobs[k].tasks[u])
    ensures states[i].jobs[j].tasks[t].device.Identity() == states[i].jobs[k].tasks[u].device.Identity() ==>
      j == k && t == u
    ensures forall p | 0 <= p < |states[i].jobs[j].tasks[t].mine| ::
      states[i].jobs[j].tasks[t].mine[p] < |states[i].jobs[j].ops| &&
      IsFor(states[i].jobs[j].ops[states[i].jobs[j].tasks[t].mine[p]], states[i].jobs[j].tasks[t].device.Identity())
  {
    hide IsRun;
    hide Init;
    hide JobInv;
    hide InConversation;
    hide TaskStands;
    RunsKeepInv(cfg, states, actions, i);
    TalkingMeansWriting(cfg, states[i].jobs[j], t);
    TalkingMeansWriting(cfg, states[i].jobs[k], u);
  }

  function TotalBusy(jobs: seq<Job>): nat {
    if jobs == [] then 0 else TotalBusy(jobs[..|jobs| - 1]) + Busy(jobs[|jobs| - 1].tasks)
  }

  lemma IdleJobs(cfg: Config, job: Job)
    requires JobInv(cfg, job)
    ensures Busy(job.tasks) <= cfg.maxDevices
    ensures !job.phase.Writing? ==> Busy(job.tasks) == 0
  {
    hide OpsSound;
    hide TaskInv;
    hide OneTaskEach;
    hide AllTaken;
    hide Approved;
    hide SnapshotOf;
    hide StartOps;
    hide CacheInv;
    hide Exact;
    if !job.phase.Writing? {
      NobodyBusy(job.tasks);
    }
  }

  lemma {:induction false} OnlyOneIsBusy(cfg: Config, jobs: seq<Job>, current: Option<nat>)
    requires forall j | 0 <= j < |jobs| :: JobInv(cfg, jobs[j])
    requires forall j | 0 <= j < |jobs| && jobs[j].phase.Writing? :: current == Some(j)
    ensures TotalBusy(jobs) <= cfg.maxDevices
    ensures current.None? || current.value >= |jobs| ==> TotalBusy(jobs) == 0
  {
    hide JobInv;
    if jobs != [] {
      OnlyOneIsBusy(cfg, jobs[..|jobs| - 1], current);
      IdleJobs(cfg, jobs[|jobs| - 1]);
    }
  }

  /** Never more devices in conversation than the cap, whatever jobs there have been. */
  lemma ConversationsAreBounded(cfg: Config, states: seq<State>, actions: seq<Action>, i: nat)
    requires IsRun(cfg, states, actions) && Init(states[0]) && i < |states|
    ensures TotalBusy(states[i].jobs) <= cfg.maxDevices
  {
    hide IsRun;
    hide Init;
    hide JobInv;
    hide TotalBusy;
    RunsKeepInv(cfg, states, actions, i);
    OnlyOneIsBusy(cfg, states[i].jobs, states[i].current);
  }

  // Stopping.

  /** Nothing is sent, and the reason to stop stays the first one. */
  ghost predicate Quiet(job: Job, next: Job) {
    && next.stop == job.stop && |next.ops| == |job.ops|
    && forall i | 0 <= i < |job.ops| :: next.ops[i].attempts == job.ops[i].attempts
  }

  lemma {:induction false} StoppedProceedsQuietly(ops: seq<Op>, stop: JobStatus, mine: seq<nat>, k: nat,
          attempted: bool)
    requires k <= |mine| && forall i | i in mine :: i < |ops|
    ensures |Proceed(ops, Some(stop), mine, k, attempted).0| == |ops|
    ensures forall i | 0 <= i < |ops| :: Proceed(ops, Some(stop), mine, k, attempted).0[i].attempts == ops[i].attempts
    decreases |mine| - k
  {
    if k < |mine| {
      assert mine[k] in mine;
      StoppedProceedsQuietly(ops[mine[k] := ops[mine[k]].(outcome := Some(NotAttempted(stop)))], stop, mine, k + 1,
        attempted);
    }
  }

  lemma StoppedAnswersQuietly(job: Job, t: nat, status: WriteStatus)
    requires TaskInRange(job, t) && job.stop.Some? && job.tasks[t].pc.Calling?
    ensures Quiet(job, AnswerJob(job, t, status))
  {
    hide Proceed;
    var task, k := job.tasks[t], job.tasks[t].pc.k;
    assert task.mine[k] in task.mine;
    var op := job.ops[task.mine[k]].(answers := job.ops[task.mine[k]].answers + [status]);
    var ops := job.ops[task.mine[k] := op.(outcome := Some(OutcomeOf(status)))];
    StoppedProceedsQuietly(ops, job.stop.value, task.mine, k + 1, task.attempted);
  }

  lemma StoppedWakesQuietly(job: Job, t: nat)
    requires TaskInRange(job, t) && job.stop.Some? && job.tasks[t].pc.Sleeping?
    ensures Quiet(job, WakeJob(job, t))
  {
    hide Proceed;
    var task, k := job.tasks[t], job.tasks[t].pc.k;
    assert task.mine[k] in task.mine;
    StoppedProceedsQuietly(job.ops[task.mine[k] := job.ops[task.mine[k]].(outcome := Some(Failed))], job.stop.value,
      task.mine, k + 1, task.attempted);
  }

  lemma StoppedReadsQuietly(job: Job, t: nat, answer: Option<ObservedDevice>)
    requires TaskInRange(job, t)
    ensures Quiet(job, DeepReadJob(job, t, answer))
  {
    hide Holds;
    hide Fingerprint;
  }

  lemma StoppedPreparesQuietly(job: Job, c: Cache, replan: Plan)
    ensures Quiet(job, Prepare(job, c, replan))
  {
    hide IsStale;
    hide SnapshotOf;
    hide TasksOf;
    hide DevicesOf;
  }

  lemma StoppedAcquiresQuietly(job: Job, t: nat)
    requires TaskInRange(job, t) && job.stop.Some? && job.free > 0
    ensures Quiet(job, AcquireJob(job, t))
  {
    hide Proceed;
    StoppedProceedsQuietly(job.ops, job.stop.value, job.tasks[t].mine, 0, false);
  }

  lemma StoppedStepIsQuiet(cfg: Config, s: State, a: Action, j: nat)
    requires InRange(s) && Enabled(cfg, s, a) && j < |s.jobs| && s.jobs[j].stop.Some?
    ensures j < |Effect(cfg, s, a).jobs| && Quiet(s.jobs[j], Effect(cfg, s, a).jobs[j])
  {
    hide Answered;
    hide Resolve;
    hide Next;
    hide StartOps;
    hide DevicesOf;
    hide Prepare;
    hide AcquireJob;
    hide AnswerJob;
    hide WakeJob;
    hide DeepReadJob;
    hide Replans;
    hide Honest;
    hide TaskInRange;
    if a.Acquire? || a.Answer? || a.Wake? || a.DeepRead? {
      assert TaskInRange(s.jobs[a.job], a.task);
    }
    match a
    case Reread(k, answer, replan) =>
      StoppedPreparesQuietly(s.jobs[k], Answered(s.cache, s.jobs[k].phase.todo[0], answer), replan);
    case Acquire(k, t) =>
      if k == j {
        StoppedAcquiresQuietly(s.jobs[k], t);
      }
    case Answer(k, t, status) =>
      if k == j {
        StoppedAnswersQuietly(s.jobs[k], t, status);
      }
    case Wake(k, t) =>
      if k == j {
        StoppedWakesQuietly(s.jobs[k], t);
      }
    case DeepRead(k, t, answer) =>
      StoppedReadsQuietly(s.jobs[k], t, Cached(s.cache, s.jobs[k].tasks[t].device, answer));
    case _ =>
  }

  /** Once a stop is recorded for a job, no call of it starts any more, and the reason never changes. */
  lemma {:induction false} NoCallStartsAfterAStop(cfg: Config, states: seq<State>, actions: seq<Action>, i: nat,
          m: nat, j: nat)
    requires IsRun(cfg, states, actions) && i <= m < |states|
    requires j < |states[i].jobs| && states[i].jobs[j].stop.Some?
    ensures j < |states[m].jobs| && Quiet(states[i].jobs[j], states[m].jobs[j])
  {
    hide InRange;
    hide Enabled;
    hide Effect;
    if i < m {
      NoCallStartsAfterAStop(cfg, states, actions, i, m - 1, j);
      assert IsStep(cfg, states[m - 1], actions[m - 1], states[m]);
      StoppedStepIsQuiet(cfg, states[m - 1], actions[m - 1], j);
    }
  }

  // What is sent.

  /** Every call is for an operation that was allowed when the job began, whatever plan was handed in. */
  lemma OnlyAllowedWritesAreSent(cfg: Config, states: seq<State>, actions: seq<Action>, i: nat, j: nat, k: nat)
    requires IsRun(cfg, states, actions) && Init(states[0]) && i < |states|
    requires j < |states[i].jobs| && k < |states[i].jobs[j].ops| && states[i].jobs[j].ops[k].attempts > 0
    ensures
      var job, item := states[i].jobs[j], states[i].jobs[j].ops[k].item;
      && !item.about.NoLink? && (item.op == AddOp || item.op == RemoveOp)
      && LinkOfItem(item).source.backend in cfg.loaded
      && (item.about.Found? ==> !item.about.entry.isSystem)
      && (LinkOfItem(item).source.backend in cfg.slotted && SourceOfItem(item) in job.started.observed ==>
          forall e | e in job.started.observed[SourceOfItem(item)].links && e.isSystem ::
            e.link.sourceEndpoint != LinkOfItem(item).sourceEndpoint ||
              e.link.emitterGroup != LinkOfItem(item).emitterGroup)
      && (item.op == RemoveOp && item.about.Found? && item.about.entry.managedBy.None? ==>
          Fingerprint(LinkOfItem(item)) in job.request.selected)
  {
    hide IsRun;
    hide Init;
    hide Fingerprint;
    hide AtWork;
    hide StartOps;
    hide OpSound;
    hide CacheInv;
    hide Exact;
    RunsKeepInv(cfg, states, actions, i);
    assert JobInv(cfg, states[i].jobs[j]);
    assert OpStanding(cfg, states[i].jobs[j], states[i].jobs[j].ops[k]);
  }

  /** Nothing is sent before the staleness check and the snapshot. */
  lemma NothingIsSentBeforeTheCheck(cfg: Config, states: seq<State>, actions: seq<Action>, i: nat, j: nat, k: nat)
    requires IsRun(cfg, states, actions) && Init(states[0]) && i < |states|
    requires j < |states[i].jobs| && k < |states[i].jobs[j].ops| && states[i].jobs[j].ops[k].attempts > 0
    ensures states[i].jobs[j].checked.Some?
  {
    hide IsRun;
    hide Init;
    hide OpsSound;
    hide CacheInv;
    hide Exact;
    hide Approved;
    hide AllTaken;
    hide TaskInv;
    hide SnapshotOf;
    hide Writable;
    RunsKeepInv(cfg, states, actions, i);
    assert JobInv(cfg, states[i].jobs[j]);
  }

  /** The request's plan is one the coordinator made, or a choice of its items. */
  ghost predicate Offered(request: Request, c: Cache, offer: Plan) {
    && IsScopedPlan(c, request.scope, request.selected, request.desired, offer)
    && request.plan.token == offer.token
    && forall item | item in request.plan.items :: item in offer.items
  }

  ghost predicate CleanPlan(c: Cache, request: Request) {
    Clean(PlanInputs(c, request.scope, request.selected, request.desired))
  }

  /** A fresh plan over this cache, before it is narrowed to rules, does this to this link. */
  ghost predicate PlannedAfresh(c: Cache, request: Request, op: PlanOp, f: string) {
    PlannedOver(c, request.scope, request.selected, request.desired, op, f)
  }

  lemma {:induction false} CurrentOpIsThere(items: seq<PlanItem>, f: string)
    requires CurrentOp(items, f).Some?
    ensures exists item | item in items ::
      !item.about.NoLink? && ItemFingerprint(item) == f && item.op == CurrentOp(items, f).value
  {
    hide Fingerprint;
    var front, last := items[..|items| - 1], items[|items| - 1];
    if !last.about.NoLink? && Fingerprint(last.about.TheLink()) == f {
      assert last in items;
    } else {
      CurrentOpIsThere(front, f);
      var item :| item in front && !item.about.NoLink? && ItemFingerprint(item) == f &&
        item.op == CurrentOp(front, f).value;
      assert item in items;
    }
  }

  lemma WorkHas(items: seq<PlanItem>, item: PlanItem)
    requires item in items
    ensures (item.op, ItemFingerprint(item)) in WorkOf(items)
  {
    hide ItemFingerprint;
    var i :| 0 <= i < |items| && items[i] == item;
    assert WorkOf(items)[i] == (item.op, ItemFingerprint(item));
  }

  /** Work that passed the check is in a fresh plan over the cache it was checked against. */
  lemma ApprovedIsPlanned(job: Job, c: Cache, offer: Plan, t: nat, p: nat)
    requires job.checked.Some? && Approved(job) && Offered(job.request, c, offer)
    requires CleanPlan(c, job.request) && CleanPlan(job.checked.value, job.request)
    requires t < |job.tasks| && p < |job.tasks[t].mine| && job.tasks[t].mine[p] < |job.ops|
    requires job.ops[job.tasks[t].mine[p]].item in job.request.plan.items
    ensures PlannedAfresh(job.checked.value, job.request,
      job.ops[job.tasks[t].mine[p]].item.op, ItemFingerprint(job.ops[job.tasks[t].mine[p]].item))
  {
    hide IsPlan;
    hide Fingerprint;
    hide Clean;
    hide PlanInputs;
    hide Narrowed;
    hide CurrentOp;
    hide WorkOf;
    hide Keyed;
    var now := job.checked.value;
    var item := job.ops[job.tasks[t].mine[p]].item;
    var replan :| Replans(now, job.request, replan) && ApprovedBy(job, replan);
    var whole :| Narrows(now, job.request.scope, job.request.selected, job.request.desired, replan, whole);
    if replan.token == job.request.plan.token {
      var offered :| Narrows(c, job.request.scope, job.request.selected, job.request.desired, offer, offered);
      NarrowedIsPart(offered.items, job.request.scope, job.request.selected, item);
      PlanInputsKeyed(c, job.request.scope, job.request.selected, job.request.desired);
      PlanInputsKeyed(now, job.request.scope, job.request.selected, job.request.desired);
      EqualTokensEqualItems(PlanInputs(c, job.request.scope, job.request.selected, job.request.desired),
        PlanInputs(now, job.request.scope, job.request.selected, job.request.desired), offered, whole);
      WorkHas(offered.items, item);
    } else {
      assert AllInPlan(replan, job.ops, job.tasks[t].mine);
      assert InPlan(replan, item);
      CurrentOpIsThere(replan.items, Fingerprint(item.about.TheLink()));
      var now_ :| now_ in replan.items && !now_.about.NoLink? &&
        ItemFingerprint(now_) == Fingerprint(item.about.TheLink()) && now_.op == item.op;
      NarrowedIsPart(whole.items, job.request.scope, job.request.selected, now_);
      WorkHas(whole.items, now_);
    }
  }

  /** What a fresh plan does is done to a device that answered. */
  lemma PlannedIsAvailable(c: Cache, request: Request, item: PlanItem)
    requires CacheInv(c) && !item.about.NoLink? && PlannedAfresh(c, request, item.op, ItemFingerprint(item))
    ensures c.Available(SourceOfItem(item))
  {
    hide PlanInputs;
    hide PlannedOver;
    hide Fingerprint;
    hide CacheInv;
    hide Exact;
    hide Keyed;
    var f := ItemFingerprint(item);
    PlannedWork(c, request.scope, request.selected, request.desired, item.op, f);
    var inp := PlanInputs(c, request.scope, request.selected, request.desired);
    if item.op == RemoveOp {
      PresentIsAvailable(c, request.scope, request.selected, request.desired, f);
      FingerprintIsIdentity(inp.present[f].link, LinkOfItem(item));
    } else {
      WantedIsAvailable(c, request.scope, request.selected, request.desired, f);
      FingerprintIsIdentity(inp.wanted[f], LinkOfItem(item));
    }
  }

  lemma CoveredBySnapshot(c: Cache, handles: seq<DeviceHandle>, t: nat)
    requires t < |handles| && handles[t].Identity() in c.observed
    ensures SnapshotOf(c, handles).Some?
    ensures handles[t].Identity() in SnapshotOf(c, handles).value.devices
    ensures Covers(c, SnapshotOf(c, handles).value)
  {
    assert handles[t] in handles;
    assert handles[t].Identity() in Covered(c, handles);
  }

  lemma SentIsSomebodys(cfg: Config, job: Job, k: nat) returns (t: nat, p: nat)
    requires JobInv(cfg, job) && k < |job.ops| && job.ops[k].attempts > 0
    ensures job.checked.Some? && AtWork(cfg, job)
    ensures t < |job.tasks| && p < |job.tasks[t].mine| && job.tasks[t].mine[p] == k
  {
    hide OpsSound;
    hide CacheInv;
    hide Exact;
    hide Approved;
    hide TaskInv;
    hide SnapshotOf;
    hide Writable;
    assert TakenBy(job, k);
    t :| 0 <= t < |job.tasks| && k in job.tasks[t].mine;
    p :| 0 <= p < |job.tasks[t].mine| && job.tasks[t].mine[p] == k;
  }

  /** The snapshot holds exactly what this cache knew of its devices. */
  ghost predicate Covers(c: Cache, snapshot: Snapshot) {
    (forall d | d in snapshot.devices :: d in c.observed) && snapshot == TakenNow(c, "", snapshot.devices)
  }

  /** Still planned over the re-read cache, for a device that answered and that the snapshot covers. */
  ghost predicate SentProperly(job: Job, item: PlanItem) {
    && job.checked.Some? && !item.about.NoLink?
    && PlannedAfresh(job.checked.value, job.request, item.op, ItemFingerprint(item))
    && job.checked.value.Available(SourceOfItem(item))
    && job.snapshot.Some? && SourceOfItem(item) in job.snapshot.value.devices
    && Covers(job.checked.value, job.snapshot.value)
  }

  /**
   Every call is for work that a fresh plan over the re-read cache still contains, before it
   is narrowed to rules; it goes to a device that answered the re-read; and that device is in
   the snapshot, which holds exactly what the re-read found.
   */
  lemma SentWorkIsStillPlanned(cfg: Config, states: seq<State>, actions: seq<Action>, i: nat, j: nat, k: nat,
          c: Cache, offer: Plan)
    requires IsRun(cfg, states, actions) && Init(states[0]) && i < |states|
    requires j < |states[i].jobs| && k < |states[i].jobs[j].ops| && states[i].jobs[j].ops[k].attempts > 0
    requires Offered(states[i].jobs[j].request, c, offer) && CleanPlan(c, states[i].jobs[j].request)
    requires states[i].jobs[j].checked.Some? ==> CleanPlan(states[i].jobs[j].checked.value, states[i].jobs[j].request)
    ensures SentProperly(states[i].jobs[j], states[i].jobs[j].ops[k].item)
  {
    hide IsRun;
    hide Init;
    hide JobInv;
    hide SentProperly;
    hide CleanPlan;
    hide Offered;
    RunsKeepInv(cfg, states, actions, i);
    var job := states[i].jobs[j];
    SentIsApproved(cfg, job, k, c, offer);
  }

  lemma SentIsApproved(cfg: Config, job: Job, k: nat, c: Cache, offer: Plan)
    requires JobInv(cfg, job) && k < |job.ops| && job.ops[k].attempts > 0
    requires Offered(job.request, c, offer) && CleanPlan(c, job.request)
    requires job.checked.Some? ==> CleanPlan(job.checked.value, job.request)
    ensures SentProperly(job, job.ops[k].item)
  {
    hide OpsSound;
    hide PlannedAfresh;
    hide CleanPlan;
    hide Offered;
    hide SnapshotOf;
    hide CacheInv;
    hide Exact;
    hide Approved;
    hide AllTaken;
    hide Covers;
    hide ItemFingerprint;
    hide TaskStands;
    var t, p := SentIsSomebodys(cfg, job, k);
    assert TaskInv(job.ops, job.tasks[t]);
    assert IsFor(job.ops[job.tasks[t].mine[p]], job.tasks[t].device.Identity());
    var item := job.ops[k].item;
    ItemIsRequested(cfg, job, k);
    ApprovedIsPlanned(job, c, offer, t, p);
    PlannedIsAvailable(job.checked.value, job.request, item);
    assert DevicesAtWork(job.tasks)[t] == job.tasks[t].device;
    CoveredBySnapshot(job.checked.value, DevicesAtWork(job.tasks), t);
  }

  lemma ItemIsRequested(cfg: Config, job: Job, k: nat)
    requires JobInv(cfg, job) && k < |job.ops|
    ensures job.ops[k].item in job.request.plan.items
  {
    hide OpsSound;
    hide AtWork;
    hide StartOps;
    assert job.ops[k].item == job.request.plan.items[k];
  }

  // What is reported.

  /** What a finished job says of one operation. */
  ghost predicate Accounted(job: Job, op: Op) {
    && op.outcome.Some?
    && op.attempts == |op.answers| <= MAX_ATTEMPTS
    && (forall i | 0 <= i < |op.answers| - 1 :: op.answers[i] == WriteFailed)
    && (op.attempts == 0 <==> Unsent(op.outcome.value) && op.answers == [])
    && (op.attempts > 0 ==> Agrees(op.outcome.value, Last(op.answers)))
    && (op.outcome == Some(CancelledOp) ==> job.phase == Done(Cancelled) && op.attempts == 0)
    && (op.outcome == Some(InterruptedOp) ==> job.phase == Done(Interrupted) && op.attempts == 0)
  }

  /**
   Some step of the run read this operation's device, after the last call to it, and what that
   read said confirms the outcome.
   */
  ghost predicate ConfirmedAfterItsLastCall(states: seq<State>, actions: seq<Action>, i: nat, j: nat, k: nat)
    requires i < |states| && j < |states[i].jobs| && k < |states[i].jobs[j].ops|
  {
    exists r, t :: ConfirmedBy(states, actions, i, j, k, r, t)
  }

  ghost predicate ConfirmedBy(states: seq<State>, actions: seq<Action>, i: nat, j: nat, k: nat, r: nat, t: nat)
    requires i < |states| && j < |states[i].jobs| && k < |states[i].jobs[j].ops|
  {
    var job := states[i].jobs[j];
    && ReadSince(states, actions, r, i, j, t) && t < |job.tasks| && k in job.tasks[t].mine
    && IsFor(job.ops[k], job.tasks[t].device.Identity()) && Confirmed(job.ops[k], job.tasks[t].read)
  }

  /** The statuses a stop may record. */
  lemma StopsAreStops(cfg: Config, s: State, a: Action)
    requires InRange(s) && Enabled(cfg, s, a)
    requires forall j | 0 <= j < |s.jobs| :: StopIsAStop(s.jobs[j])
    ensures forall j | 0 <= j < |Effect(cfg, s, a).jobs| :: StopIsAStop(Effect(cfg, s, a).jobs[j])
  {
    hide Answered;
    hide Resolve;
    hide Next;
    hide SnapshotOf;
    hide TasksOf;
    hide StartOps;
    hide DevicesOf;
    hide Proceed;
    hide VerifyAll;
    hide MarkStale;
    hide Replans;
    hide Honest;
    if a.Acquire? || a.Answer? || a.Wake? || a.DeepRead? {
      assert TaskInRange(s.jobs[a.job], a.task);
    }
  }

  ghost predicate StopIsAStop(job: Job) {
    job.stop.Some? ==> job.stop.value == Cancelled || job.stop.value == Interrupted
  }

  lemma {:induction false} RunsStopAsSaid(cfg: Config, states: seq<State>, actions: seq<Action>, i: nat)
    requires IsRun(cfg, states, actions) && Init(states[0]) && i < |states|
    ensures forall j | 0 <= j < |states[i].jobs| :: StopIsAStop(states[i].jobs[j])
  {
    hide Effect;
    hide Enabled;
    hide InRange;
    hide StopIsAStop;
    if i > 0 {
      RunsStopAsSaid(cfg, states, actions, i - 1);
      assert IsStep(cfg, states[i - 1], actions[i - 1], states[i]);
      StopsAreStops(cfg, states[i - 1], actions[i - 1]);
    }
  }

  lemma DecidedWhenDone(cfg: Config, job: Job, k: nat)
    requires JobInv(cfg, job) && job.phase.Done? && k < |job.ops|
    ensures job.ops[k].outcome.Some?
  {
    hide CacheInv;
    hide Exact;
    hide Approved;
    hide SnapshotOf;
    hide OneTaskEach;
    hide OpsSound;
    hide Confirmed;
    if Live(job.ops[k]) {
      assert TakenBy(job, k);
      var t :| 0 <= t < |job.tasks| && k in job.tasks[t].mine;
      assert job.tasks[t] in job.tasks && TaskInv(job.ops, job.tasks[t]);
      var p :| 0 <= p < |job.tasks[t].mine| && job.tasks[t].mine[p] == k;
      assert Decided(job.ops[job.tasks[t].mine[p]]);
    }
  }

  lemma AccountedWhenDone(cfg: Config, job: Job, k: nat)
    requires JobInv(cfg, job) && job.phase.Done? && StopIsAStop(job) && k < |job.ops|
    ensures Accounted(job, job.ops[k])
  {
    hide AtWork;
    hide Writable;
    hide Successful;
    DecidedWhenDone(cfg, job, k);
    var op := job.ops[k];
    assert OpSound(op) && OpStanding(cfg, job, op);
  }

  lemma ConfirmedWhenDone(cfg: Config, job: Job, k: nat) returns (t: nat)
    requires JobInv(cfg, job) && job.phase.Done? && k < |job.ops| && job.ops[k].attempts > 0
    ensures t < |job.tasks| && k in job.tasks[t].mine && job.tasks[t].read.Some?
    ensures IsFor(job.ops[k], job.tasks[t].device.Identity()) && Confirmed(job.ops[k], job.tasks[t].read)
  {
    hide CacheInv;
    hide Exact;
    hide Approved;
    hide SnapshotOf;
    hide OneTaskEach;
    hide OpsSound;
    var p;
    t, p := SentIsSomebodys(cfg, job, k);
    assert job.tasks[t] in job.tasks && TaskInv(job.ops, job.tasks[t]);
    assert IsFor(job.ops[job.tasks[t].mine[p]], job.tasks[t].device.Identity());
    assert Confirmed(job.ops[job.tasks[t].mine[p]], job.tasks[t].read);
  }

  lemma SentIsConfirmed(cfg: Config, states: seq<State>, actions: seq<Action>, i: nat, j: nat, k: nat)
    requires IsRun(cfg, states, actions) && Init(states[0]) && i < |states|
    requires j < |states[i].jobs| && states[i].jobs[j].phase.Done?
    requires k < |states[i].jobs[j].ops| && states[i].jobs[j].ops[k].attempts > 0
    ensures ConfirmedAfterItsLastCall(states, actions, i, j, k)
  {
    hide IsRun;
    hide Init;
    hide JobInv;
    hide ReadSince;
    hide Confirmed;
    hide IsFor;
    RunsKeepInv(cfg, states, actions, i);
    var t := ConfirmedWhenDone(cfg, states[i].jobs[j], k);
    var r := ReadsComeAfterTheLastCall(cfg, states, actions, i, j, t);
    ReadIsThere(states, actions, r, i, j, t);
    assert ConfirmedBy(states, actions, i, j, k, r, t);
  }

  lemma ReadIsThere(states: seq<State>, actions: seq<Action>, r: nat, i: nat, j: nat, t: nat)
    requires ReadSince(states, actions, r, i, j, t)
    ensures i < |states| && j < |states[i].jobs| && t < |states[i].jobs[j].tasks|
  {
  }

  /**
   A finished job accounts for every item of its plan.

   Every operation is decided. One that was never sent made no call, and if a stop kept it
   back the job ended with that stop. One that was sent made at most three calls, each but the
   last answered with a failure, and its outcome follows from the last. Its device was read
   deeply after the last call to it, and applied or already present is only ever said when that
   read showed it.
   */
  lemma FinishedJobsAccountForEverything(cfg: Config, states: seq<State>, actions: seq<Action>, i: nat, j: nat)
    requires IsRun(cfg, states, actions) && Init(states[0]) && i < |states|
    requires j < |states[i].jobs| && states[i].jobs[j].phase.Done?
    ensures
      var job := states[i].jobs[j];
      && SameItems(job.request.plan, job.ops)
      && (forall k | 0 <= k < |job.ops| :: Accounted(job, job.ops[k]))
      && (forall k | 0 <= k < |job.ops| && job.ops[k].attempts > 0 ::
        ConfirmedAfterItsLastCall(states, actions, i, j, k))
      && (job.phase == Done(Completed) <==> job.stop.None? && forall op | op in job.ops :: Successful(op))
  {
    hide IsRun;
    hide Init;
    hide Accounted;
    hide ConfirmedBy;
    hide OpsSound;
    hide AtWork;
    hide StartOps;
    hide Successful;
    RunsKeepInv(cfg, states, actions, i);
    RunsStopAsSaid(cfg, states, actions, i);
    var job := states[i].jobs[j];
    assert JobInv(cfg, job) && StopIsAStop(job);
    forall k | 0 <= k < |job.ops|
      ensures Accounted(job, job.ops[k]) &&
        (job.ops[k].attempts > 0 ==> ConfirmedAfterItsLastCall(states, actions, i, j, k))
    {
      AccountedWhenDone(cfg, job, k);
      if job.ops[k].attempts > 0 {
        SentIsConfirmed(cfg, states, actions, i, j, k);
      }
    }
  }
}
