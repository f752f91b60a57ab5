/** What every step of the apply engine keeps, and that every reachable state has it. */
module ExecutorInvariant {
  import opened Wrappers
  import opened Models
  import opened Fingerprints
  import opened Planner
  import opened Caches
  import opened CacheProperties
  import opened Rollbacks
  import opened Executor

  // One operation.

  function Last(answers: seq<WriteStatus>): WriteStatus
    requires answers != []
  {
    answers[|answers| - 1]
  }

  /** An outcome is what the last call was answered, unless the deep read had to say otherwise. */
  predicate Agrees(o: Outcome, a: WriteStatus) {
    o == OutcomeOf(a) || ((a == WriteApplied || a == WriteAlreadyPresent) && (o == Unverified || o == Unconfirmed))
  }

  predicate Unsent(o: Outcome) {
    o == Blocked || o == StalePlan || o == CancelledOp || o == InterruptedOp
  }

  /** At most three calls, each but the last answered with a failure, and an outcome that follows from the last. */
  ghost predicate OpSound(op: Op) {
    && |op.answers| <= op.attempts <= |op.answers| + 1 && op.attempts <= MAX_ATTEMPTS
    && (forall i | 0 <= i < |op.answers| - 1 :: op.answers[i] == WriteFailed)
    && (op.outcome.None? && op.answers != [] ==> Last(op.answers) == WriteFailed && |op.answers| < MAX_ATTEMPTS)
    && (op.outcome.Some? ==> op.attempts == |op.answers|)
    && (op.outcome.Some? && op.attempts == 0 ==> Unsent(op.outcome.value))
    && (op.outcome.Some? && op.attempts > 0 ==> Agrees(op.outcome.value, Last(op.answers)))
  }

  predicate Untouched(op: Op) {
    op.outcome.None? && op.attempts == 0 && op.answers == [] && !op.verified
  }

  predicate InCall(op: Op) {
    op.outcome.None? && op.attempts == |op.answers| + 1
  }

  predicate Waiting(op: Op) {
    op.outcome.None? && op.attempts == |op.answers| && op.answers != []
  }

  predicate Decided(op: Op) {
    op.outcome.Some?
  }

  /** What is undecided or was sent was allowed, and what a stop kept back says which stop. */
  ghost predicate OpStanding(cfg: Config, job: Job, op: Op) {
    && (op.outcome.None? || op.attempts > 0 ==> Writable(cfg, job.started, op.item, job.request.selected))
    && (op.outcome == Some(CancelledOp) || op.outcome == Some(InterruptedOp) ==>
        job.stop.Some? && op.outcome == Some(NotAttempted(job.stop.value)))
  }

  // One device.

  predicate InConversation(t: Task) {
    !t.pc.Queued? && !t.pc.Finished?
  }

  /**
   Whatever was sent was followed by a deep read; and what is called done was confirmed by it:
   the device held the link after an add, and not after a removal.
   */
  ghost predicate Confirmed(op: Op, read: Option<Option<ObservedDevice>>) {
    && (op.attempts > 0 ==> read.Some?)
    && ((op.outcome == Some(Applied) || op.outcome == Some(AlreadyPresent)) ==>
      && !op.item.about.NoLink? && read.Some? && read.value.Some?
      && read.value.value.deepVerified
      && (Holds(read.value.value, Fingerprint(op.item.about.TheLink())) <==> op.item.op == AddOp))
  }

  predicate IsFor(op: Op, id: string) {
    !op.item.about.NoLink? && SourceOfItem(op.item) == id
  }

  ghost predicate TaskShape(ops: seq<Op>, t: Task) {
    && (forall p | 0 <= p < |t.mine| :: t.mine[p] < |ops|)
    && (forall p | 0 <= p < |t.mine| :: IsFor(ops[t.mine[p]], t.device.Identity()))
    && (forall p, q | 0 <= p < q < |t.mine| :: t.mine[p] != t.mine[q])
  }

  ghost predicate TaskStands(ops: seq<Op>, t: Task)
    requires TaskShape(ops, t)
  {
    match t.pc
    case Queued => t.read.None? && forall p | 0 <= p < |t.mine| :: Untouched(ops[t.mine[p]])
    case Calling(k) => t.read.None? && k < |t.mine| && t.attempted && InCall(ops[t.mine[k]]) && Split(ops, t.mine, k)
    case Sleeping(k) => t.read.None? && k < |t.mine| && t.attempted && Waiting(ops[t.mine[k]]) && Split(ops, t.mine, k)
    case Verifying => t.read.None? && t.attempted && forall p | 0 <= p < |t.mine| :: Decided(ops[t.mine[p]])
    case Finished => forall p | 0 <= p < |t.mine| :: Decided(ops[t.mine[p]]) && Confirmed(ops[t.mine[p]], t.read)
  }

  /** Everything before a device's write in hand is decided, and nothing after it was touched. */
  ghost predicate Split(ops: seq<Op>, mine: seq<nat>, k: nat)
    requires forall p | 0 <= p < |mine| :: mine[p] < |ops|
    requires k <= |mine|
  {
    && (forall p | 0 <= p < k :: Decided(ops[mine[p]]))
    && (forall p | k < p < |mine| :: Untouched(ops[mine[p]]))
  }

  ghost predicate TaskInv(ops: seq<Op>, t: Task) {
    TaskShape(ops, t) && TaskStands(ops, t)
  }

  function Busy(tasks: seq<Task>): nat {
    if tasks == [] then 0 else Busy(tasks[..|tasks| - 1]) + if InConversation(tasks[|tasks| - 1]) then 1 else 0
  }

  // One job.

  ghost predicate SameItems(plan: Plan, ops: seq<Op>) {
    |ops| == |plan.items| && forall i | 0 <= i < |ops| :: ops[i].item == plan.items[i]
  }

  ghost predicate OpsSound(cfg: Config, job: Job) {
    forall i | 0 <= i < |job.ops| :: OpSound(job.ops[i]) && OpStanding(cfg, job, job.ops[i])
  }

  predicate Live(op: Op) {
    op.outcome.None? || op.attempts > 0
  }

  /** Every operation still undecided, or sent, is some device's. */
  ghost predicate AllTaken(job: Job) {
    forall i | 0 <= i < |job.ops| && Live(job.ops[i]) :: TakenBy(job, i)
  }

  ghost predicate TakenBy(job: Job, i: nat) {
    exists t | 0 <= t < |job.tasks| :: i in job.tasks[t].mine
  }

  ghost predicate OneTaskEach(tasks: seq<Task>) {
    forall t, u | 0 <= t < u < |tasks| :: tasks[t].device.Identity() != tasks[u].device.Identity()
  }

  function DevicesAtWork(tasks: seq<Task>): seq<DeviceHandle> {
    seq(|tasks|, i requires 0 <= i < |tasks| => tasks[i].device)
  }

  /** The work the devices were given is work a fresh plan over the checked cache still contains. */
  ghost predicate Approved(job: Job)
    requires job.checked.Some?
  {
    exists replan: Plan :: Replans(job.checked.value, job.request, replan) && ApprovedBy(job, replan)
  }

  ghost predicate ApprovedBy(job: Job, replan: Plan) {
    replan.token == job.request.plan.token ||
    forall t | 0 <= t < |job.tasks| :: AllInPlan(replan, job.ops, job.tasks[t].mine)
  }

  ghost predicate AllInPlan(replan: Plan, ops: seq<Op>, mine: seq<nat>) {
    forall p | 0 <= p < |mine| :: mine[p] < |ops| && InPlan(replan, ops[mine[p]].item)
  }

  ghost predicate InPlan(replan: Plan, item: PlanItem) {
    !item.about.NoLink? && CurrentOp(replan.items, Fingerprint(item.about.TheLink())) == Some(item.op)
  }

  ghost predicate AtWork(cfg: Config, job: Job) {
    && (forall t | 0 <= t < |job.tasks| :: TaskInv(job.ops, job.tasks[t]))
    && OneTaskEach(job.tasks) && AllTaken(job)
    && job.free + Busy(job.tasks) == cfg.maxDevices
    && job.checked.Some? && CacheInv(job.checked.value) && Approved(job)
    && (job.tasks != [] ==> Exact(job.checked.value))
    && job.snapshot == SnapshotOf(job.checked.value, DevicesAtWork(job.tasks))
  }

  /** Nothing but the refusals has been answered yet. */
  ghost predicate Unchecked(cfg: Config, job: Job) {
    && job.ops == StartOps(cfg, job.started, job.request) && job.tasks == [] && job.free == cfg.maxDevices
    && job.snapshot.None? && job.checked.None?
  }

  ghost predicate JobInv(cfg: Config, job: Job) {
    && SameItems(job.request.plan, job.ops) && OpsSound(cfg, job)
    && match job.phase
       case Rereading(todo) => todo != [] && Unchecked(cfg, job)
       case Writing => AtWork(cfg, job)
       case Done(status) =>
         AtWork(cfg, job) && (forall t | t in job.tasks :: t.pc.Finished?) && status == StatusOf(job)
  }

  // The whole runner.

  ghost predicate OneCurrent(s: State) {
    && (s.current.Some? ==> s.current.value < |s.jobs|)
    && forall j | 0 <= j < |s.jobs| :: !s.jobs[j].phase.Done? <==> s.current == Some(j)
  }

  ghost predicate RunnerInv(cfg: Config, s: State) {
    CacheInv(s.cache) && OneCurrent(s) && forall j | 0 <= j < |s.jobs| :: JobInv(cfg, s.jobs[j])
  }

  lemma InvIsInRange(cfg: Config, s: State)
    requires RunnerInv(cfg, s)
    ensures InRange(s)
  {
    hide OpsSound;
    hide OpSound;
    hide OpStanding;
    hide CacheInv;
    hide Exact;
    hide Approved;
    hide SnapshotOf;
    hide AllTaken;
    hide Confirmed;
    hide StartOps;
    forall j, t | 0 <= j < |s.jobs| && 0 <= t < |s.jobs[j].tasks| ensures TaskInRange(s.jobs[j], t) {
      assert JobInv(cfg, s.jobs[j]);
      assert TaskInv(s.jobs[j].ops, s.jobs[j].tasks[t]);
    }
  }

  // Grouping.

  lemma {:induction false} DevicesAre(ops: seq<Op>)
    ensures forall i | 0 <= i < |ops| && IsWrite(ops[i]) :: ListsDevice(DevicesOf(ops), SourceOfItem(ops[i].item))
    ensures forall p, q | 0 <= p < q < |DevicesOf(ops)| :: DevicesOf(ops)[p].Identity() != DevicesOf(ops)[q].Identity()
  {
    if ops != [] {
      DevicesAre(ops[..|ops| - 1]);
      var front, last := DevicesOf(ops[..|ops| - 1]), ops[|ops| - 1];
      forall i | 0 <= i < |ops| && IsWrite(ops[i]) ensures ListsDevice(DevicesOf(ops), SourceOfItem(ops[i].item)) {
        if i < |ops| - 1 {
          assert ops[..|ops| - 1][i] == ops[i];
          ListsMore(front, LinkOfItem(if IsWrite(last) then last.item else ops[i].item).source,
            SourceOfItem(ops[i].item));
        } else {
          ListsItself(front, LinkOfItem(last.item).source);
        }
      }
      forall p, q | 0 <= p < q < |DevicesOf(ops)| ensures DevicesOf(ops)[p].Identity() != DevicesOf(ops)[q].Identity() {
        assert DevicesOf(ops)[p] in front;
      }
    }
  }

  lemma ListsMore(handles: seq<DeviceHandle>, h: DeviceHandle, id: string)
    requires ListsDevice(handles, id)
    ensures ListsDevice(handles + [h], id)
  {
    var g :| g in handles && g.Identity() == id;
    assert g in handles + [h];
  }

  lemma ListsItself(handles: seq<DeviceHandle>, h: DeviceHandle)
    ensures ListsDevice(handles + [h], h.Identity())
  {
    assert h in handles + [h];
  }

  lemma {:induction false} MineAre(ops: seq<Op>, id: string)
    ensures forall i: nat :: i in Mine(ops, id) <==> i < |ops| && IsWrite(ops[i]) && SourceOfItem(ops[i].item) == id
    ensures forall p, q | 0 <= p < q < |Mine(ops, id)| :: Mine(ops, id)[p] < Mine(ops, id)[q]
  {
    if ops != [] {
      var front := ops[..|ops| - 1];
      MineAre(front, id);
      forall i: nat ensures i in Mine(ops, id) <==> i < |ops| && IsWrite(ops[i]) && SourceOfItem(ops[i].item) == id {
        if i < |front| {
          assert front[i] == ops[i];
        }
      }
      forall p, q | 0 <= p < q < |Mine(ops, id)| ensures Mine(ops, id)[p] < Mine(ops, id)[q] {
        assert Mine(ops, id)[p] in Mine(front, id);
        if q < |Mine(front, id)| {
          assert Mine(ops, id)[q] == Mine(front, id)[q] && Mine(ops, id)[p] == Mine(front, id)[p];
        }
      }
    }
  }

  lemma {:induction false} NobodyBusy(tasks: seq<Task>)
    requires forall t | t in tasks :: !InConversation(t)
    ensures Busy(tasks) == 0
  {
    if tasks != [] {
      NobodyBusy(tasks[..|tasks| - 1]);
    }
  }

  lemma {:induction false} BusyChanges(tasks: seq<Task>, t: nat, task: Task)
    requires t < |tasks|
    ensures Busy(tasks[t := task]) ==
      Busy(tasks) - (if InConversation(tasks[t]) then 1 else 0) + (if InConversation(task) then 1 else 0)
    ensures InConversation(tasks[t]) ==> Busy(tasks) > 0
  {
    var front, after := tasks[..|tasks| - 1], tasks[t := task];
    if t < |tasks| - 1 {
      BusyChanges(front, t, task);
      assert after[..|after| - 1] == front[t := task];
    } else {
      assert after[..|after| - 1] == front;
    }
  }
}
