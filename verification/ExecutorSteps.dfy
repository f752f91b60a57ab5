/** Each step of a device's coroutine keeps its job's invariant. */
module ExecutorSteps {
  import opened Wrappers
  import opened Models
  import opened Fingerprints
  import opened Planner
  import opened Caches
  import opened CacheProperties
  import opened Rollbacks
  import opened Executor
  import opened ExecutorInvariant

  // Going on to the next write.

  /** Indices into the operations, each once. */
  ghost predicate Indexes(ops: seq<Op>, mine: seq<nat>) {
    && (forall p | 0 <= p < |mine| :: mine[p] < |ops|)
    && (forall p, q | 0 <= p < q < |mine| :: mine[p] != mine[q])
  }

  ghost predicate Outside(mine: seq<nat>, k: nat, i: nat) {
    forall p | k <= p < |mine| :: mine[p] != i
  }

  /** A coroutine whose job was stopped passes over everything from its write `k` on. */
  ghost predicate PassedOver(ops: seq<Op>, now: seq<Op>, mine: seq<nat>, k: nat, o: Outcome)
    requires |now| == |ops| && Indexes(ops, mine)
  {
    && (forall p | k <= p < |mine| :: now[mine[p]] == ops[mine[p]].(outcome := Some(o)))
    && (forall i: nat | i < |ops| && Outside(mine, k, i) :: now[i] == ops[i])
  }

  lemma InMine(ops: seq<Op>, mine: seq<nat>)
    requires Indexes(ops, mine)
    ensures forall i | i in mine :: i < |ops|
  {
  }

  lemma {:induction false} ProceedStopped(ops: seq<Op>, stop: JobStatus, mine: seq<nat>, k: nat, attempted: bool)
    requires Indexes(ops, mine) && k <= |mine| && forall i | i in mine :: i < |ops|
    ensures
      var r := Proceed(ops, Some(stop), mine, k, attempted);
      && |r.0| == |ops| && r.1 == (if attempted then Verifying else Finished) && r.2 == attempted
      && PassedOver(ops, r.0, mine, k, NotAttempted(stop))
    decreases |mine| - k
  {
    if k < |mine| {
      assert mine[k] in mine;
      var next := ops[mine[k] := ops[mine[k]].(outcome := Some(NotAttempted(stop)))];
      ProceedStopped(next, stop, mine, k + 1, attempted);
      var r := Proceed(ops, Some(stop), mine, k, attempted);
      assert r == Proceed(next, Some(stop), mine, k + 1, attempted);
      forall i: nat | i < |ops| && Outside(mine, k, i) ensures r.0[i] == ops[i] {
        assert mine[k] != i;
        assert Outside(mine, k + 1, i);
      }
      assert Outside(mine, k + 1, mine[k]);
      forall p | k <= p < |mine| ensures r.0[mine[p]] == ops[mine[p]].(outcome := Some(NotAttempted(stop))) {
        if p > k {
          assert mine[p] != mine[k];
        }
      }
    }
  }

  /** Writes before `k` are decided, the others untouched. */
  ghost predicate Ready(ops: seq<Op>, mine: seq<nat>, k: nat)
    requires Indexes(ops, mine) && k <= |mine|
  {
    && (forall p | 0 <= p < k :: Decided(ops[mine[p]]))
    && (forall p | k <= p < |mine| :: Untouched(ops[mine[p]]))
  }

  ghost predicate OpFine(cfg: Config, job: Job, op: Op) {
    OpSound(op) && OpStanding(cfg, job, op)
  }

  ghost predicate AllFine(cfg: Config, job: Job, ops: seq<Op>, mine: seq<nat>)
    requires Indexes(ops, mine)
  {
    forall p | 0 <= p < |mine| :: OpFine(cfg, job, ops[mine[p]])
  }

  /** Only this coroutine's operations changed, and none became another item. */
  ghost predicate OnlyMine(ops: seq<Op>, now: seq<Op>, mine: seq<nat>) {
    && |now| == |ops|
    && (forall i: nat | i < |ops| && Outside(mine, 0, i) :: now[i] == ops[i])
    && (forall i: nat | i < |ops| :: now[i].item == ops[i].item)
  }

  lemma ShapeIsIndexes(ops: seq<Op>, task: Task)
    requires TaskShape(ops, task)
    ensures Indexes(ops, task.mine)
    ensures forall i | i in task.mine :: i < |ops| && !ops[i].item.about.NoLink?
  {
    forall i | i in task.mine ensures i < |ops| && !ops[i].item.about.NoLink? {
      var p :| 0 <= p < |task.mine| && task.mine[p] == i;
      assert IsFor(ops[task.mine[p]], task.device.Identity());
    }
  }

  lemma StartedIsFine(cfg: Config, job: Job, op: Op)
    requires OpFine(cfg, job, op) && Untouched(op)
    ensures OpFine(cfg, job, op.(attempts := 1)) && InCall(op.(attempts := 1))
  {
    hide Writable;
  }

  lemma StoppedIsFine(cfg: Config, job: Job, op: Op, stop: JobStatus, read: Option<Option<ObservedDevice>>)
    requires OpFine(cfg, job, op) && Untouched(op) && job.stop == Some(stop)
    ensures OpFine(cfg, job, op.(outcome := Some(NotAttempted(stop))))
    ensures Decided(op.(outcome := Some(NotAttempted(stop)))) &&
      Confirmed(op.(outcome := Some(NotAttempted(stop))), read)
  {
    hide Writable;
  }

  lemma ShapeStays(ops: seq<Op>, now: seq<Op>, task: Task)
    requires TaskShape(ops, task) && OnlyMine(ops, now, task.mine)
    ensures TaskShape(now, task)
    ensures forall pc, attempted, read :: TaskShape(now, task.(pc := pc, attempted := attempted, read := read))
  {
    forall p | 0 <= p < |task.mine| ensures IsFor(now[task.mine[p]], task.device.Identity()) {
      assert IsFor(ops[task.mine[p]], task.device.Identity());
    }
  }

  lemma StoppedStands(cfg: Config, job: Job, ops: seq<Op>, task: Task, k: nat, attempted: bool)
    requires TaskShape(ops, task) && task.read.None? && k <= |task.mine| && (!attempted ==> k == 0) && job.stop.Some?
    requires Indexes(ops, task.mine) && Ready(ops, task.mine, k) && AllFine(cfg, job, ops, task.mine)
    requires forall i | i in task.mine :: i < |ops|
    ensures
      var r := Proceed(ops, job.stop, task.mine, k, attempted);
      && OnlyMine(ops, r.0, task.mine) && Indexes(r.0, task.mine)
      && TaskInv(r.0, task.(pc := r.1, attempted := r.2))
      && AllFine(cfg, job, r.0, task.mine)
  {
    hide OpFine;
    hide Confirmed;
    hide IsFor;
    hide Decided;
    hide Untouched;
    hide Proceed;
    hide OnlyMine;
    var mine := task.mine;
    var r := Proceed(ops, job.stop, mine, k, attempted);
    ProceedStopped(ops, job.stop.value, mine, k, attempted);
    PassedOverIsMine(ops, r.0, mine, k, NotAttempted(job.stop.value));
    ShapeStays(ops, r.0, task);
    forall p | 0 <= p < |mine|
      ensures Decided(r.0[mine[p]]) && OpFine(cfg, job, r.0[mine[p]]) &&
        (!attempted ==> Confirmed(r.0[mine[p]], task.read))
    {
      if p < k {
        assert Outside(mine, k, mine[p]);
      } else {
        StoppedIsFine(cfg, job, ops[mine[p]], job.stop.value, task.read);
      }
    }
  }

  lemma StartedStands(cfg: Config, job: Job, ops: seq<Op>, task: Task, k: nat)
    requires TaskShape(ops, task) && task.read.None? && k < |task.mine|
    requires Indexes(ops, task.mine) && Ready(ops, task.mine, k) && AllFine(cfg, job, ops, task.mine)
    ensures
      var now := ops[task.mine[k] := ops[task.mine[k]].(attempts := 1)];
      && OnlyMine(ops, now, task.mine) && Indexes(now, task.mine)
      && TaskInv(now, task.(pc := Calling(k), attempted := true))
      && AllFine(cfg, job, now, task.mine)
  {
    hide OpFine;
    hide Confirmed;
    hide IsFor;
    hide Decided;
    hide Untouched;
    hide InCall;
    hide OnlyMine;
    var mine := task.mine;
    var op := ops[mine[k]].(attempts := 1);
    var now := ops[mine[k] := op];
    StartedIsFine(cfg, job, ops[mine[k]]);
    OneChangeIsMine(ops, mine, k, op);
    ShapeStays(ops, now, task);
    forall p | 0 <= p < |mine| && p != k ensures now[mine[p]] == ops[mine[p]] {
      if p < k {
        assert mine[p] != mine[k];
      } else {
        assert mine[k] != mine[p];
      }
    }
  }

  /** Going on from write `k` leaves the coroutine standing where its writes say. */
  lemma ProceedStands(cfg: Config, job: Job, ops: seq<Op>, task: Task, k: nat, attempted: bool)
    requires TaskShape(ops, task) && task.read.None? && k <= |task.mine| && (!attempted ==> k == 0)
    requires Indexes(ops, task.mine) && Ready(ops, task.mine, k) && AllFine(cfg, job, ops, task.mine)
    requires forall i | i in task.mine :: i < |ops|
    ensures
      var r := Proceed(ops, job.stop, task.mine, k, attempted);
      && OnlyMine(ops, r.0, task.mine) && Indexes(r.0, task.mine)
      && TaskInv(r.0, task.(pc := r.1, attempted := r.2))
      && AllFine(cfg, job, r.0, task.mine)
  {
    hide OpFine;
    hide Confirmed;
    hide IsFor;
    if job.stop.Some? {
      StoppedStands(cfg, job, ops, task, k, attempted);
    } else if k < |task.mine| {
      assert task.mine[k] in task.mine;
      StartedStands(cfg, job, ops, task, k);
    } else {
      ShapeStays(ops, ops, task);
    }
  }

  lemma PassedOverIsMine(ops: seq<Op>, now: seq<Op>, mine: seq<nat>, k: nat, o: Outcome)
    requires |now| == |ops| && Indexes(ops, mine) && PassedOver(ops, now, mine, k, o) && k <= |mine|
    ensures OnlyMine(ops, now, mine)
  {
    forall i: nat | i < |ops| ensures now[i].item == ops[i].item && (Outside(mine, 0, i) ==> now[i] == ops[i]) {
      if Outside(mine, k, i) {
      } else {
        var p :| k <= p < |mine| && mine[p] == i;
      }
    }
  }

  lemma OneChangeIsMine(ops: seq<Op>, mine: seq<nat>, k: nat, op: Op)
    requires Indexes(ops, mine) && k < |mine| && op.item == ops[mine[k]].item
    ensures OnlyMine(ops, ops[mine[k] := op], mine)
  {
    forall i: nat | i < |ops| && Outside(mine, 0, i) ensures ops[mine[k] := op][i] == ops[i] {
      assert mine[k] != i;
    }
  }

  // One device's step, in its job.

  lemma TaskFrame(ops: seq<Op>, now: seq<Op>, mine: seq<nat>, id: string, other: Task)
    requires OnlyMine(ops, now, mine) && (forall p | 0 <= p < |mine| :: mine[p] < |ops|)
    requires forall p | 0 <= p < |mine| :: IsFor(ops[mine[p]], id)
    requires other.device.Identity() != id && TaskInv(ops, other)
    ensures TaskInv(now, other)
  {
    hide Confirmed;
    forall p | 0 <= p < |other.mine| ensures now[other.mine[p]] == ops[other.mine[p]] {
      assert IsFor(ops[other.mine[p]], other.device.Identity());
      assert Outside(mine, 0, other.mine[p]);
    }
    assert TaskShape(now, other);
  }

  function Worked(job: Job, t: nat, ops: seq<Op>, task: Task, free: nat): Job
    requires t < |job.tasks|
  {
    job.(ops := ops, tasks := job.tasks[t := task], free := free)
  }

  lemma OthersStand(job: Job, t: nat, ops: seq<Op>, task: Task, free: nat, u: nat)
    requires t < |job.tasks| && u < |job.tasks| && OneTaskEach(job.tasks)
    requires TaskInv(job.ops, job.tasks[t]) && TaskInv(job.ops, job.tasks[u])
    requires OnlyMine(job.ops, ops, job.tasks[t].mine) && TaskInv(ops, task)
    ensures TaskInv(ops, Worked(job, t, ops, task, free).tasks[u])
  {
    hide TaskStands;
    hide Confirmed;
    if u != t {
      TaskFrame(job.ops, ops, job.tasks[t].mine, job.tasks[t].device.Identity(), job.tasks[u]);
    }
  }

  lemma StillTaken(job: Job, t: nat, ops: seq<Op>, task: Task, free: nat)
    requires t < |job.tasks| && AllTaken(job) && task.mine == job.tasks[t].mine
    requires OnlyMine(job.ops, ops, task.mine)
    ensures AllTaken(Worked(job, t, ops, task, free))
  {
    var next := Worked(job, t, ops, task, free);
    forall i | 0 <= i < |next.ops| && Live(next.ops[i]) ensures TakenBy(next, i) {
      if Outside(task.mine, 0, i) {
        assert TakenBy(job, i);
        var u :| 0 <= u < |job.tasks| && i in job.tasks[u].mine;
        assert i in next.tasks[u].mine;
      } else {
        var p :| 0 <= p < |task.mine| && task.mine[p] == i;
        assert i in next.tasks[t].mine;
      }
    }
  }

  lemma StillFine(cfg: Config, job: Job, t: nat, ops: seq<Op>, task: Task, free: nat)
    requires t < |job.tasks| && OpsSound(cfg, job) && Indexes(job.ops, task.mine)
    requires OnlyMine(job.ops, ops, task.mine) && Indexes(ops, task.mine) && AllFine(cfg, job, ops, task.mine)
    ensures OpsSound(cfg, Worked(job, t, ops, task, free))
  {
    hide OpSound;
    hide Writable;
    var next := Worked(job, t, ops, task, free);
    forall i | 0 <= i < |next.ops| ensures OpSound(next.ops[i]) && OpStanding(cfg, next, next.ops[i]) {
      if !Outside(task.mine, 0, i) {
        var p :| 0 <= p < |task.mine| && task.mine[p] == i;
        assert OpFine(cfg, job, ops[task.mine[p]]);
      }
    }
  }

  lemma StillApproved(job: Job, t: nat, ops: seq<Op>, task: Task, free: nat)
    requires t < |job.tasks| && task.mine == job.tasks[t].mine && OnlyMine(job.ops, ops, task.mine)
    requires job.checked.Some? && Approved(job)
    ensures Approved(Worked(job, t, ops, task, free))
  {
    hide InPlan;
    hide Replans;
    var next := Worked(job, t, ops, task, free);
    var replan :| Replans(job.checked.value, job.request, replan) && ApprovedBy(job, replan);
    if replan.token != job.request.plan.token {
      forall u | 0 <= u < |next.tasks| ensures AllInPlan(replan, next.ops, next.tasks[u].mine) {
        assert AllInPlan(replan, job.ops, job.tasks[u].mine);
      }
    }
    assert ApprovedBy(next, replan);
  }

  /** A step that touches only one coroutine and its operations, and leaves both in order, keeps the job's invariant. */
  lemma WorkedKeepsInv(cfg: Config, job: Job, t: nat, ops: seq<Op>, task: Task, free: nat)
    requires JobInv(cfg, job) && job.phase.Writing? && t < |job.tasks|
    requires task.mine == job.tasks[t].mine && task.device == job.tasks[t].device
    requires OnlyMine(job.ops, ops, task.mine) && TaskInv(ops, task)
    requires Indexes(ops, task.mine) && AllFine(cfg, job, ops, task.mine)
    requires free + (if InConversation(task) then 1 else 0) ==
      job.free + (if InConversation(job.tasks[t]) then 1 else 0)
    ensures JobInv(cfg, Worked(job, t, ops, task, free))
  {
    hide OpsSound;
    hide AllFine;
    hide TaskInv;
    hide OnlyMine;
    hide Approved;
    hide AllTaken;
    hide Indexes;
    hide SnapshotOf;
    hide CacheInv;
    hide Exact;
    hide InConversation;
    var next := Worked(job, t, ops, task, free);
    TaskHasIndexes(job.ops, job.tasks[t]);
    StillFine(cfg, job, t, ops, task, free);
    StillTaken(job, t, ops, task, free);
    StillApproved(job, t, ops, task, free);
    BusyChanges(job.tasks, t, task);
    forall u | 0 <= u < |next.tasks| ensures TaskInv(next.ops, next.tasks[u]) {
      OthersStand(job, t, ops, task, free, u);
    }
    assert DevicesAtWork(next.tasks) == DevicesAtWork(job.tasks);
    SameItemsStay(job.request.plan, job.ops, ops, task.mine);
  }

  lemma TaskHasIndexes(ops: seq<Op>, task: Task)
    requires TaskInv(ops, task)
    ensures Indexes(ops, task.mine) && TaskShape(ops, task)
    ensures forall i | i in task.mine :: i < |ops| && !ops[i].item.about.NoLink?
  {
    ShapeIsIndexes(ops, task);
  }

  lemma SameItemsStay(plan: Plan, ops: seq<Op>, now: seq<Op>, mine: seq<nat>)
    requires SameItems(plan, ops) && OnlyMine(ops, now, mine)
    ensures SameItems(plan, now)
  {
  }

  lemma MineAreFine(cfg: Config, job: Job, t: nat)
    requires OpsSound(cfg, job) && t < |job.tasks| && Indexes(job.ops, job.tasks[t].mine)
    ensures AllFine(cfg, job, job.ops, job.tasks[t].mine)
  {
    hide OpSound;
    hide OpStanding;
  }

  lemma AcquireKeepsInv(cfg: Config, job: Job, t: nat)
    requires JobInv(cfg, job) && job.phase.Writing? && TaskInRange(job, t) && job.tasks[t].pc.Queued? && job.free > 0
    ensures JobInv(cfg, AcquireJob(job, t))
  {
    hide OpsSound;
    hide Approved;
    hide AllTaken;
    hide SnapshotOf;
    hide CacheInv;
    hide Exact;
    hide OpFine;
    hide Confirmed;
    hide OnlyMine;
    hide OneTaskEach;
    var task := job.tasks[t];
    assert TaskInv(job.ops, task);
    ShapeIsIndexes(job.ops, task);
    MineAreFine(cfg, job, t);
    ProceedStands(cfg, job, job.ops, task, 0, false);
    var r := Proceed(job.ops, job.stop, task.mine, 0, false);
    var next := task.(pc := r.1, attempted := r.2);
    StillTalking(job.ops, job.stop, task.mine, 0, false);
    WorkedKeepsInv(cfg, job, t, r.0, next, if r.1.Finished? then job.free else job.free - 1);
  }

  lemma AnsweredIsFine(cfg: Config, job: Job, op: Op, status: WriteStatus)
    requires OpFine(cfg, job, op) && InCall(op)
    ensures OpFine(cfg, job, AnsweredOp(op, status))
    ensures if TriesAgain(op, status) then Waiting(AnsweredOp(op, status)) else Decided(AnsweredOp(op, status))
  {
    hide Writable;
  }

  lemma AnswerKeepsInv(cfg: Config, job: Job, t: nat, status: WriteStatus)
    requires JobInv(cfg, job) && job.phase.Writing? && TaskInRange(job, t) && job.tasks[t].pc.Calling?
    ensures JobInv(cfg, AnswerJob(job, t, status))
  {
    hide OpsSound;
    hide Approved;
    hide AllTaken;
    hide SnapshotOf;
    hide CacheInv;
    hide Exact;
    hide OpFine;
    hide Confirmed;
    hide OneTaskEach;
    hide InCall;
    hide Untouched;
    hide Waiting;
    hide Decided;
    hide Proceed;
    var task, k := job.tasks[t], job.tasks[t].pc.k;
    assert TaskInv(job.ops, task);
    TaskHasIndexes(job.ops, task);
    MineAreFine(cfg, job, t);
    var op := job.ops[task.mine[k]];
    AnsweredIsFine(cfg, job, op, status);
    if TriesAgain(op, status) {
      GoneToSleep(cfg, job, t, AnsweredOp(op, status));
    } else {
      FinishedWrite(cfg, job, t, AnsweredOp(op, status));
    }
  }

  /** One operation in hand replaced by another that is in order. */
  lemma ChangedAt(cfg: Config, job: Job, task: Task, k: nat, op: Op)
    requires TaskShape(job.ops, task) && Indexes(job.ops, task.mine) && k < |task.mine| && Split(job.ops, task.mine, k)
    requires AllFine(cfg, job, job.ops, task.mine) && OpFine(cfg, job, op) && op.item == job.ops[task.mine[k]].item
    ensures
      var ops := job.ops[task.mine[k] := op];
      && OnlyMine(job.ops, ops, task.mine) && Indexes(ops, task.mine) && TaskShape(ops, task)
      && Split(ops, task.mine, k) && AllFine(cfg, job, ops, task.mine)
  {
    hide OpFine;
    hide Decided;
    hide Untouched;
    hide IsFor;
    var ops := job.ops[task.mine[k] := op];
    OneChangeIsMine(job.ops, task.mine, k, op);
    ShapeStays(job.ops, ops, task);
    forall p | 0 <= p < |task.mine| && p != k ensures ops[task.mine[p]] == job.ops[task.mine[p]] {
      if p < k {
        assert task.mine[p] != task.mine[k];
      } else {
        assert task.mine[k] != task.mine[p];
      }
    }
  }

  /** The write in hand failed and will be tried again. */
  lemma GoneToSleep(cfg: Config, job: Job, t: nat, op: Op)
    requires JobInv(cfg, job) && job.phase.Writing? && TaskInRange(job, t) && job.tasks[t].pc.Calling?
    requires OpFine(cfg, job, op) && Waiting(op) && op.item == job.ops[job.tasks[t].mine[job.tasks[t].pc.k]].item
    ensures
      var task, k := job.tasks[t], job.tasks[t].pc.k;
      JobInv(cfg, WithTask(job, t, (job.ops[task.mine[k] := op], Sleeping(k), task.attempted)))
  {
    hide OpsSound;
    hide Approved;
    hide AllTaken;
    hide SnapshotOf;
    hide CacheInv;
    hide Exact;
    hide OpFine;
    hide Confirmed;
    hide OneTaskEach;
    hide InCall;
    hide Untouched;
    hide Waiting;
    hide Decided;
    hide OnlyMine;
    var task, k := job.tasks[t], job.tasks[t].pc.k;
    assert TaskInv(job.ops, task);
    TaskHasIndexes(job.ops, task);
    MineAreFine(cfg, job, t);
    ChangedAt(cfg, job, task, k, op);
    WorkedKeepsInv(cfg, job, t, job.ops[task.mine[k] := op], task.(pc := Sleeping(k)), job.free);
  }

  /** The write in hand is decided, and the coroutine goes on to the next. */
  lemma FinishedWrite(cfg: Config, job: Job, t: nat, op: Op)
    requires JobInv(cfg, job) && job.phase.Writing? && TaskInRange(job, t)
    requires (job.tasks[t].pc.Calling? || job.tasks[t].pc.Sleeping?)
    requires OpFine(cfg, job, op) && Decided(op) && op.item == job.ops[job.tasks[t].mine[job.tasks[t].pc.k]].item
    ensures
      var task, k := job.tasks[t], job.tasks[t].pc.k;
      var ops := job.ops[task.mine[k] := op];
      && (forall i | i in task.mine :: i < |ops|)
      && JobInv(cfg, WithTask(job, t, Proceed(ops, job.stop, task.mine, k + 1, task.attempted)))
  {
    hide OpsSound;
    hide Approved;
    hide AllTaken;
    hide SnapshotOf;
    hide CacheInv;
    hide Exact;
    hide OpFine;
    hide Confirmed;
    hide OneTaskEach;
    hide InCall;
    hide Waiting;
    hide Proceed;
    hide OnlyMine;
    hide IsFor;
    var task, k := job.tasks[t], job.tasks[t].pc.k;
    assert TaskInv(job.ops, task);
    TaskHasIndexes(job.ops, task);
    MineAreFine(cfg, job, t);
    var ops := job.ops[task.mine[k] := op];
    ChangedAt(cfg, job, task, k, op);
    assert Ready(ops, task.mine, k + 1);
    InMine(ops, task.mine);
    ProceedStands(cfg, job, ops, task, k + 1, task.attempted);
    var r := Proceed(ops, job.stop, task.mine, k + 1, task.attempted);
    var next := task.(pc := r.1, attempted := r.2);
    MineTwice(job.ops, ops, r.0, task.mine);
    StillTalking(ops, job.stop, task.mine, k + 1, task.attempted);
    WorkedKeepsInv(cfg, job, t, r.0, next, job.free);
  }

  lemma MineTwice(a: seq<Op>, b: seq<Op>, c: seq<Op>, mine: seq<nat>)
    requires OnlyMine(a, b, mine) && OnlyMine(b, c, mine)
    ensures OnlyMine(a, c, mine)
  {
  }

  /** Going on never queues again, and never ends a coroutine that has sent something before its deep read. */
  lemma {:induction false} StillTalking(ops: seq<Op>, stop: Option<JobStatus>, mine: seq<nat>, k: nat, attempted: bool)
    requires k <= |mine| && forall i | i in mine :: i < |ops|
    ensures
      var pc := Proceed(ops, stop, mine, k, attempted).1;
      !pc.Queued? && (attempted ==> !pc.Finished?)
    decreases |mine| - k
  {
    if k < |mine| && stop.Some? {
      assert mine[k] in mine;
      StillTalking(ops[mine[k] := ops[mine[k]].(outcome := Some(NotAttempted(stop.value)))], stop, mine, k + 1,
        attempted);
    }
  }

  lemma WokenIsFine(cfg: Config, job: Job, op: Op)
    requires OpFine(cfg, job, op) && Waiting(op)
    ensures OpFine(cfg, job, op.(outcome := Some(Failed)))
    ensures OpFine(cfg, job, op.(attempts := op.attempts + 1)) && InCall(op.(attempts := op.attempts + 1))
  {
    hide Writable;
  }

  lemma WakeKeepsInv(cfg: Config, job: Job, t: nat)
    requires JobInv(cfg, job) && job.phase.Writing? && TaskInRange(job, t) && job.tasks[t].pc.Sleeping?
    ensures JobInv(cfg, WakeJob(job, t))
  {
    hide OpsSound;
    hide Approved;
    hide AllTaken;
    hide SnapshotOf;
    hide CacheInv;
    hide Exact;
    hide OpFine;
    hide Confirmed;
    hide OneTaskEach;
    hide InCall;
    hide Untouched;
    hide Waiting;
    hide Proceed;
    var task, k := job.tasks[t], job.tasks[t].pc.k;
    assert TaskInv(job.ops, task);
    TaskHasIndexes(job.ops, task);
    MineAreFine(cfg, job, t);
    var was := job.ops[task.mine[k]];
    WokenIsFine(cfg, job, was);
    if job.stop.Some? {
      FinishedWrite(cfg, job, t, was.(outcome := Some(Failed)));
    } else {
      var op := was.(attempts := was.attempts + 1);
      var ops := job.ops[task.mine[k] := op];
      ChangedAt(cfg, job, task, k, op);
      WorkedKeepsInv(cfg, job, t, ops, task.(pc := Calling(k)), job.free);
    }
  }

  lemma VerifiedIsFine(cfg: Config, job: Job, op: Op, answer: Option<ObservedDevice>)
    requires OpFine(cfg, job, op) && Decided(op) && !op.item.about.NoLink?
    ensures
      var next := VerifiedOp(op, answer);
      OpFine(cfg, job, next) && Decided(next) && next.item == op.item && Confirmed(next, Some(answer))
  {
    hide Writable;
    hide Fingerprint;
    hide Holds;
  }

  lemma DeepReadKeepsInv(cfg: Config, job: Job, t: nat, answer: Option<ObservedDevice>)
    requires JobInv(cfg, job) && job.phase.Writing? && TaskInRange(job, t) && job.tasks[t].pc.Verifying?
    ensures JobInv(cfg, DeepReadJob(job, t, answer))
  {
    hide OpsSound;
    hide Approved;
    hide AllTaken;
    hide SnapshotOf;
    hide CacheInv;
    hide Exact;
    hide OpFine;
    hide Confirmed;
    hide OneTaskEach;
    hide VerifiedOp;
    hide Decided;
    var task := job.tasks[t];
    assert TaskInv(job.ops, task);
    TaskHasIndexes(job.ops, task);
    MineAreFine(cfg, job, t);
    var ops := VerifyAll(job.ops, task.mine, answer);
    forall p | 0 <= p < |task.mine|
      ensures OpFine(cfg, job, ops[task.mine[p]]) && Decided(ops[task.mine[p]]) &&
        Confirmed(ops[task.mine[p]], Some(answer))
    {
      assert task.mine[p] in task.mine;
      VerifiedIsFine(cfg, job, job.ops[task.mine[p]], answer);
    }
    VerifyIsMine(job.ops, task.mine, answer);
    ShapeStays(job.ops, ops, task);
    WorkedKeepsInv(cfg, job, t, ops, task.(pc := Finished, read := Some(answer)), job.free + 1);
  }

  lemma VerifyIsMine(ops: seq<Op>, mine: seq<nat>, answer: Option<ObservedDevice>)
    ensures OnlyMine(ops, VerifyAll(ops, mine, answer), mine)
  {
    hide Holds;
    hide Fingerprint;
    forall i: nat | Outside(mine, 0, i) ensures i !in mine {
    }
  }
}
