/**
 The apply engine (custom_components/device_links/executor.py) as a system of steps.

 A step is one stretch of a coroutine between two awaits. The steps of different devices, of
 cancel and shutdown, and of everything else that may touch the coordinator's cache meanwhile
 interleave in any order, and a backend answers whatever it likes.
 */
module Executor {
  import opened Wrappers
  import opened Orders
  import opened Models
  import opened Fingerprints
  import opened Compiler
  import opened Planner
  import opened Caches
  import opened CacheProperties
  import opened Rollbacks

  // Results.

  /** What a backend answers to a write. A timeout and an exception are turned into `WriteFailed`. */
  datatype WriteStatus = WriteApplied | WriteAlreadyPresent | WritePending | WriteFailed | WriteBlocked

  datatype Outcome =
    | Applied | AlreadyPresent | Unverified | Unconfirmed | PendingWakeup | Failed | Blocked
    | StalePlan | CancelledOp | InterruptedOp

  datatype JobStatus = Completed | Partial | Cancelled | Interrupted

  function OutcomeOf(s: WriteStatus): Outcome {
    match s
    case WriteApplied => Applied
    case WriteAlreadyPresent => AlreadyPresent
    case WritePending => PendingWakeup
    case WriteFailed => Failed
    case WriteBlocked => Blocked
  }

  /** What a stop makes of an operation it kept from starting. */
  function NotAttempted(stop: JobStatus): Outcome {
    if stop == Cancelled then CancelledOp else InterruptedOp
  }

  const MAX_ATTEMPTS := 3

  // Jobs.

  /** One plan item as the runner works it. `answers` records what its calls were answered. */
  datatype Op = Op(item: PlanItem, outcome: Option<Outcome>, attempts: nat, answers: seq<WriteStatus>, verified: bool)

  /** Where a device's coroutine stands; `k` is its write in hand. */
  datatype Pc = Queued | Calling(k: nat) | Sleeping(k: nat) | Verifying | Finished

  /** One device's coroutine, with its operations by their place in the plan. `read` records its deep read. */
  datatype Task = Task(
    device: DeviceHandle, mine: seq<nat>, pc: Pc, attempted: bool, read: Option<Option<ObservedDevice>>)

  datatype Phase = Rereading(todo: seq<DeviceHandle>) | Writing | Done(status: JobStatus)

  datatype Request = Request(plan: Plan, scope: Option<PlanScope>, selected: set<string>, desired: Option<seq<Link>>)

  /**
   One apply.

   `started` and `checked` record the cache as it was when the refusals and the staleness check
   were answered; the program does not keep them.
   */
  datatype Job = Job(
    request: Request,
    ops: seq<Op>,
    stop: Option<JobStatus>,
    phase: Phase,
    tasks: seq<Task>,
    free: nat,
    snapshot: Option<Snapshot>,
    started: Cache,
    checked: Option<Cache>)

  datatype Config = Config(loaded: set<Backend>, slotted: set<Backend>, maxDevices: nat)

  /** `jobs` are all the applies ever accepted; `current` is the one the runner is on. */
  datatype State = State(cache: Cache, shutDown: bool, current: Option<nat>, jobs: seq<Job>)

  // Refusals.

  function LinkOfItem(item: PlanItem): Link
    requires !item.about.NoLink?
  {
    item.about.TheLink()
  }

  function SourceOfItem(item: PlanItem): string
    requires !item.about.NoLink?
  {
    LinkOfItem(item).source.Identity()
  }

  predicate SameSlot(e: ObservedLink, l: Link) {
    e.link.sourceEndpoint == l.sourceEndpoint && e.link.emitterGroup == l.emitterGroup
  }

  /** The link touches something that is never ours to write. */
  predicate IsSystem(cfg: Config, c: Cache, about: ItemLink)
    requires !about.NoLink?
  {
    var l := about.TheLink();
    (about.Found? && about.entry.isSystem) ||
    (&& l.source.backend in cfg.loaded && l.source.backend in cfg.slotted
     && l.source.Identity() in c.observed
     && exists e | e in c.observed[l.source.Identity()].links :: e.isSystem && SameSlot(e, l))
  }

  predicate Refused(cfg: Config, c: Cache, item: PlanItem, selected: set<string>) {
    if !item.about.NoLink? && IsSystem(cfg, c, item.about) then true
    else if item.op == BlockedOp then true
    else if item.about.NoLink? || item.op !in {AddOp, RemoveOp} then true
    else
      && item.op == RemoveOp && item.about.Found? && item.about.entry.managedBy.None?
      && Fingerprint(item.about.TheLink()) !in selected
  }

  predicate Writable(cfg: Config, c: Cache, item: PlanItem, selected: set<string>) {
    !Refused(cfg, c, item, selected) && LinkOfItem(item).source.backend in cfg.loaded
  }

  function StartOp(cfg: Config, c: Cache, item: PlanItem, selected: set<string>): Op {
    Op(item, if Writable(cfg, c, item, selected) then None else Some(Blocked), 0, [], false)
  }

  function StartOps(cfg: Config, c: Cache, request: Request): seq<Op> {
    seq(|request.plan.items|,
      i requires 0 <= i < |request.plan.items| => StartOp(cfg, c, request.plan.items[i], request.selected))
  }

  // Devices.

  predicate IsWrite(op: Op) {
    op.outcome.None? && !op.item.about.NoLink?
  }

  predicate ListsDevice(handles: seq<DeviceHandle>, id: string) {
    exists h | h in handles :: h.Identity() == id
  }

  /** The devices still to be written to, each once, in the order the plan names them. */
  function DevicesOf(ops: seq<Op>): seq<DeviceHandle> {
    if ops == [] then []
    else
      var front, last := DevicesOf(ops[..|ops| - 1]), ops[|ops| - 1];
      if IsWrite(last) && !ListsDevice(front, SourceOfItem(last.item)) then front + [LinkOfItem(last.item).source]
      else front
  }

  /** The operations on one device, by their place in the plan and in its order. */
  function Mine(ops: seq<Op>, id: string): seq<nat> {
    if ops == [] then []
    else
      var last := ops[|ops| - 1];
      Mine(ops[..|ops| - 1], id) + if IsWrite(last) && SourceOfItem(last.item) == id then [|ops| - 1] else []
  }

  // Staleness.

  /** What a fresh plan would do to a link. */
  function CurrentOp(items: seq<PlanItem>, f: string): Option<PlanOp> {
    if items == [] then None
    else
      var last := items[|items| - 1];
      if !last.about.NoLink? && Fingerprint(last.about.TheLink()) == f then Some(last.op)
      else CurrentOp(items[..|items| - 1], f)
  }

  predicate StillPlanned(replan: Plan, op: Op)
    requires IsWrite(op)
  {
    CurrentOp(replan.items, Fingerprint(LinkOfItem(op.item))) == Some(op.item.op)
  }

  predicate IsStale(plan: Plan, replan: Plan, ops: seq<Op>, id: string) {
    replan.token != plan.token &&
    exists i | 0 <= i < |ops| && IsWrite(ops[i]) && SourceOfItem(ops[i].item) == id :: !StillPlanned(replan, ops[i])
  }

  function MarkStale(plan: Plan, replan: Plan, ops: seq<Op>): seq<Op> {
    seq(|ops|, i requires 0 <= i < |ops| =>
      if IsWrite(ops[i]) && IsStale(plan, replan, ops, SourceOfItem(ops[i].item)) then
        ops[i].(outcome := Some(StalePlan))
      else ops[i])
  }

  // The snapshot.

  /** The devices a snapshot covers: those still to be written to that have ever been read. */
  function Covered(c: Cache, devices: seq<DeviceHandle>): (r: set<string>)
    ensures forall id | id in r :: id in c.observed
  {
    set h | h in devices && h.Identity() in c.observed :: h.Identity()
  }

  function SnapshotOf(c: Cache, devices: seq<DeviceHandle>): Option<Snapshot> {
    if Covered(c, devices) == {} then None else Some(TakenNow(c, "", Covered(c, devices)))
  }

  // Working a device.

  function TasksOf(ops: seq<Op>, devices: seq<DeviceHandle>): seq<Task> {
    seq(|devices|,
      i requires 0 <= i < |devices| => Task(devices[i], Mine(ops, devices[i].Identity()), Queued, false, None))
  }

  /** Goes on to a device's write `k`: starts its first call, or passes over it when the job was stopped. */
  function Proceed(ops: seq<Op>, stop: Option<JobStatus>, mine: seq<nat>, k: nat, attempted: bool): (seq<Op>, Pc, bool)
    requires k <= |mine| && forall i | i in mine :: i < |ops|
    decreases |mine| - k
  {
    if k == |mine| then (ops, if attempted then Verifying else Finished, attempted)
    else
      assert mine[k] in mine;
      var op := ops[mine[k]];
      if stop.Some? then
        Proceed(ops[mine[k] := op.(outcome := Some(NotAttempted(stop.value)))], stop, mine, k + 1, attempted)
      else (ops[mine[k] := op.(attempts := 1)], Calling(k), true)
  }

  function VerifiedOp(op: Op, answer: Option<ObservedDevice>): Op
    requires !op.item.about.NoLink?
  {
    if op.outcome != Some(Applied) && op.outcome != Some(AlreadyPresent) then op
    else
      match answer
      case None => op.(outcome := Some(Unconfirmed))
      case Some(device) =>
        if Holds(device, Fingerprint(LinkOfItem(op.item))) != (op.item.op == AddOp) then
          op.(outcome := Some(Unverified))
        else if !device.deepVerified then op.(outcome := Some(Unconfirmed))
        else op.(verified := true)
  }

  predicate Holds(device: ObservedDevice, f: string) {
    exists e | e in device.links :: Fingerprint(e.link) == f
  }

  function VerifyAll(ops: seq<Op>, mine: seq<nat>, answer: Option<ObservedDevice>): seq<Op> {
    seq(|ops|, i requires 0 <= i < |ops| => if i in mine && !ops[i].item.about.NoLink? then VerifiedOp(ops[i], answer)
      else ops[i])
  }

  // Steps.

  /** What may happen next. What a backend or a planner answers is part of the step. */
  datatype Action =
    | Apply(request: Request, replan: Plan)
    | Cancel
    | Shutdown
    | Elsewhere(step: Caches.Step)
    | Reread(job: nat, answer: Option<(DeviceCapabilities, ObservedDevice)>, replan: Plan)
    | Acquire(job: nat, task: nat)
    | Answer(job: nat, task: nat, status: WriteStatus)
    | Wake(job: nat, task: nat)
    | DeepRead(job: nat, task: nat, answer: Option<(DeviceCapabilities, ObservedDevice)>)
    | Conclude(job: nat)

  predicate HasTask(s: State, j: nat, t: nat) {
    j < |s.jobs| && s.jobs[j].phase.Writing? && t < |s.jobs[j].tasks|
  }

  /** The check answers with the plan the coordinator would make now. */
  ghost predicate Replans(c: Cache, request: Request, replan: Plan) {
    IsScopedPlan(c, request.scope, request.selected, request.desired, replan)
  }

  function Answered(c: Cache, handle: DeviceHandle, answer: Option<(DeviceCapabilities, ObservedDevice)>): Cache {
    Resolve(Next(c, Read(handle, answer)))
  }

  ghost predicate Enabled(cfg: Config, s: State, a: Action) {
    match a
    case Apply(request, replan) =>
      DevicesOf(StartOps(cfg, s.cache, request)) == [] ==> Replans(s.cache, request, replan)
    case Cancel => true
    case Shutdown => true
    case Elsewhere(step) => Honest(step)
    case Reread(j, answer, replan) =>
      && j < |s.jobs| && s.jobs[j].phase.Rereading? && s.jobs[j].phase.todo != []
      && Honest(Read(s.jobs[j].phase.todo[0], answer))
      && (|s.jobs[j].phase.todo| == 1 ==>
        Replans(Answered(s.cache, s.jobs[j].phase.todo[0], answer), s.jobs[j].request, replan))
    case Acquire(j, t) => HasTask(s, j, t) && s.jobs[j].tasks[t].pc.Queued? && s.jobs[j].free > 0
    case Answer(j, t, _) => HasTask(s, j, t) && s.jobs[j].tasks[t].pc.Calling?
    case Wake(j, t) => HasTask(s, j, t) && s.jobs[j].tasks[t].pc.Sleeping?
    case DeepRead(j, t, answer) =>
      HasTask(s, j, t) && s.jobs[j].tasks[t].pc.Verifying? && Honest(Read(s.jobs[j].tasks[t].device, answer))
    case Conclude(j) =>
      j < |s.jobs| && s.jobs[j].phase.Writing? && forall t | t in s.jobs[j].tasks :: t.pc.Finished?
  }

  function SetToWork(job: Job, c: Cache, ops: seq<Op>, devices: seq<DeviceHandle>, snapshot: Option<Snapshot>): Job {
    job.(ops := ops, phase := Writing, tasks := TasksOf(ops, devices), snapshot := snapshot, checked := Some(c))
  }

  /** From the re-read to the coroutines: stale devices are marked, the rest recorded and set to work. */
  function Prepare(job: Job, c: Cache, replan: Plan): Job {
    var ops := MarkStale(job.request.plan, replan, job.ops);
    var devices := DevicesOf(ops);
    SetToWork(job, c, ops, devices, SnapshotOf(c, devices))
  }

  /** Storing a snapshot or a summary resolves ownership again. */
  function Stored(c: Cache, prepared: Job): Cache {
    if prepared.snapshot.Some? then Resolve(c) else c
  }

  function NewJob(cfg: Config, c: Cache, request: Request, ops: seq<Op>, devices: seq<DeviceHandle>): Job {
    Job(request, ops, None, Rereading(devices), [], cfg.maxDevices, None, c, None)
  }

  function Begin(cfg: Config, s: State, request: Request, replan: Plan): State {
    var ops := StartOps(cfg, s.cache, request);
    var job := NewJob(cfg, s.cache, request, ops, DevicesOf(ops));
    if DevicesOf(ops) == [] then
      s.(current := Some(|s.jobs|), jobs := s.jobs + [Prepare(job, s.cache, replan)],
        cache := Stored(s.cache, Prepare(job, s.cache, replan)))
    else s.(current := Some(|s.jobs|), jobs := s.jobs + [job])
  }

  /** Records why the current job must stop starting things. The first reason stands. */
  function Stop(s: State, status: JobStatus): State {
    if s.current.None? || s.current.value >= |s.jobs| || s.jobs[s.current.value].stop.Some? then s
    else s.(jobs := s.jobs[s.current.value := s.jobs[s.current.value].(stop := Some(status))])
  }

  function WithTask(job: Job, t: nat, result: (seq<Op>, Pc, bool)): Job
    requires t < |job.tasks|
  {
    job.(ops := result.0, tasks := job.tasks[t := job.tasks[t].(pc := result.1, attempted := result.2)])
  }

  ghost predicate TaskInRange(job: Job, t: nat) {
    && t < |job.tasks| && (forall i | i in job.tasks[t].mine :: i < |job.ops|)
    && (job.tasks[t].pc.Calling? || job.tasks[t].pc.Sleeping? ==> job.tasks[t].pc.k < |job.tasks[t].mine|)
    && (forall i | i in job.tasks[t].mine :: !job.ops[i].item.about.NoLink?)
  }

  /** A device that has its turn takes up one of the places, unless it has nothing to do. */
  function Seated(job: Job, t: nat, result: (seq<Op>, Pc, bool)): Job
    requires t < |job.tasks| && job.free > 0
  {
    WithTask(job, t, result).(free := if result.1.Finished? then job.free else job.free - 1)
  }

  function AcquireJob(job: Job, t: nat): Job
    requires TaskInRange(job, t) && job.free > 0
  {
    Seated(job, t, Proceed(job.ops, job.stop, job.tasks[t].mine, 0, false))
  }

  predicate TriesAgain(op: Op, status: WriteStatus) {
    status == WriteFailed && op.attempts < MAX_ATTEMPTS
  }

  /** A failure is kept for another try; any other answer, and the last failure, decides the write. */
  function AnsweredOp(op: Op, status: WriteStatus): Op {
    var heard := op.(answers := op.answers + [status]);
    if TriesAgain(op, status) then heard else heard.(outcome := Some(OutcomeOf(status)))
  }

  function AnswerJob(job: Job, t: nat, status: WriteStatus): Job
    requires TaskInRange(job, t) && job.tasks[t].pc.Calling?
  {
    var task, k := job.tasks[t], job.tasks[t].pc.k;
    assert task.mine[k] in task.mine;
    var op := job.ops[task.mine[k]];
    var ops := job.ops[task.mine[k] := AnsweredOp(op, status)];
    if TriesAgain(op, status) then WithTask(job, t, (ops, Sleeping(k), task.attempted))
    else WithTask(job, t, Proceed(ops, job.stop, task.mine, k + 1, task.attempted))
  }

  /** After the wait the write is called again, unless a stop came: then the failure stands. */
  function WokenOp(op: Op, stop: Option<JobStatus>): Op {
    if stop.Some? then op.(outcome := Some(Failed)) else op.(attempts := op.attempts + 1)
  }

  function WakeJob(job: Job, t: nat): Job
    requires TaskInRange(job, t) && job.tasks[t].pc.Sleeping?
  {
    var task, k := job.tasks[t], job.tasks[t].pc.k;
    assert task.mine[k] in task.mine;
    var ops := job.ops[task.mine[k] := WokenOp(job.ops[task.mine[k]], job.stop)];
    if job.stop.Some? then WithTask(job, t, Proceed(ops, job.stop, task.mine, k + 1, task.attempted))
    else WithTask(job, t, (ops, Calling(k), task.attempted))
  }

  /** The device's deep read is recorded, and its place is free again. */
  function WithRead(job: Job, t: nat, ops: seq<Op>, answer: Option<ObservedDevice>): Job
    requires t < |job.tasks|
  {
    job.(ops := ops, tasks := job.tasks[t := job.tasks[t].(pc := Finished, read := Some(answer))], free := job.free + 1)
  }

  function DeepReadJob(job: Job, t: nat, answer: Option<ObservedDevice>): Job
    requires TaskInRange(job, t)
  {
    WithRead(job, t, VerifyAll(job.ops, job.tasks[t].mine, answer), answer)
  }

  predicate Successful(op: Op) {
    op.outcome == Some(Applied) || op.outcome == Some(AlreadyPresent) || op.outcome == Some(PendingWakeup)
  }

  function StatusOf(job: Job): JobStatus {
    if job.stop.Some? then job.stop.value
    else if forall op | op in job.ops :: Successful(op) then Completed
    else Partial
  }

  /** What a deep read hands back: the device as it is cached once ownership is resolved. */
  function Cached(c: Cache, handle: DeviceHandle, answer: Option<(DeviceCapabilities,
          ObservedDevice)>): Option<ObservedDevice> {
    if answer.Some? then Some(Answered(c, handle, answer).observed[handle.Identity()]) else None
  }

  ghost predicate InRange(s: State) {
    forall j, t | 0 <= j < |s.jobs| && 0 <= t < |s.jobs[j].tasks| :: TaskInRange(s.jobs[j], t)
  }

  function Effect(cfg: Config, s: State, a: Action): State
    requires InRange(s) && Enabled(cfg, s, a)
  {
    match a
    case Apply(request, replan) => if s.shutDown || s.current.Some? then s else Begin(cfg, s, request, replan)
    case Cancel => Stop(s, Cancelled)
    case Shutdown => Stop(s.(shutDown := true), Interrupted)
    case Elsewhere(step) => s.(cache := Next(s.cache, step))
    case Reread(j, answer, replan) =>
      var job := s.jobs[j];
      var cache := Answered(s.cache, job.phase.todo[0], answer);
      if |job.phase.todo| == 1 then
        s.(cache := Stored(cache, Prepare(job, cache, replan)), jobs := s.jobs[j := Prepare(job, cache, replan)])
      else s.(cache := cache, jobs := s.jobs[j := job.(phase := Rereading(job.phase.todo[1..]))])
    case Acquire(j, t) => s.(jobs := s.jobs[j := AcquireJob(s.jobs[j], t)])
    case Answer(j, t, status) => s.(jobs := s.jobs[j := AnswerJob(s.jobs[j], t, status)])
    case Wake(j, t) => s.(jobs := s.jobs[j := WakeJob(s.jobs[j], t)])
    case DeepRead(j, t, answer) =>
      var device := s.jobs[j].tasks[t].device;
      s.(cache := Answered(s.cache, device, answer),
        jobs := s.jobs[j := DeepReadJob(s.jobs[j], t, Cached(s.cache, device, answer))])
    case Conclude(j) =>
      s.(cache := Resolve(s.cache), current := None,
        jobs := s.jobs[j := s.jobs[j].(phase := Done(StatusOf(s.jobs[j])))])
  }

  ghost predicate Init(s: State) {
    CacheInv(s.cache) && !s.shutDown && s.current.None? && s.jobs == []
  }

  /** `s` and then one state after each step. */
  ghost predicate IsRun(cfg: Config, states: seq<State>, actions: seq<Action>) {
    && |states| == |actions| + 1
    && forall i | 0 <= i < |actions| :: IsStep(cfg, states[i], actions[i], states[i + 1])
  }

  ghost predicate IsStep(cfg: Config, s: State, a: Action, s': State) {
    InRange(s) && Enabled(cfg, s, a) && s' == Effect(cfg, s, a)
  }
}
