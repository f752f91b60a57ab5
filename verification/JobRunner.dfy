/**
 The runner itself (custom_components/device_links/executor.py, `JobRunner`).

 Each method is one stretch of a coroutine between two awaits, with the loops the program has
 there, proved to take exactly the step the apply engine's step system says.
 */
module JobRunners {
  import opened Wrappers
  import opened Orders
  import opened Models
  import opened Fingerprints
  import opened Planner
  import opened Caches
  import opened CacheProperties
  import opened Coordinators
  import opened Rollbacks
  import opened Executor
  import opened ExecutorInvariant
  import opened ExecutorSteps
  import opened ExecutorEnds

  // Refusing and grouping.

  /** One operation for every item, the impossible ones already refused. */
  method RefuseImpossible(cfg: Config, c: Cache, request: Request) returns (ops: seq<Op>)
    ensures ops == StartOps(cfg, c, request)
  {
    hide Refused;
    ops := [];
    for i := 0 to |request.plan.items|
      invariant |ops| == i &&
        forall k | 0 <= k < i :: ops[k] == StartOp(cfg, c, request.plan.items[k], request.selected)
    {
      var op := Op(request.plan.items[i], None, 0, [], false);
      if Refused(cfg, c, op.item, request.selected) {
        op := op.(outcome := Some(Blocked));
      } else {
        RefusedWithoutLink(cfg, c, op.item, request.selected);
        if LinkOfItem(op.item).source.backend !in cfg.loaded {
          op := op.(outcome := Some(Blocked));
        }
      }
      ops := ops + [op];
    }
  }

  lemma RefusedWithoutLink(cfg: Config, c: Cache, item: PlanItem, selected: set<string>)
    requires !Refused(cfg, c, item, selected)
    ensures !item.about.NoLink?
  {
  }

  /** The writes of each device, in plan order, as the program files them. */
  ghost predicate Groups(grouped: map<string, seq<nat>>, ops: seq<Op>) {
    && (forall id | id in grouped :: grouped[id] == Mine(ops, id))
    && (forall id | id !in grouped :: Mine(ops, id) == [])
  }

  ghost predicate FiledFor(grouped: map<string, seq<nat>>, handles: seq<DeviceHandle>) {
    forall id :: id in grouped <==> ListsDevice(handles, id)
  }

  lemma MineOneMore(ops: seq<Op>, i: nat, id: string)
    requires i < |ops|
    ensures Mine(ops[..i + 1], id) ==
      Mine(ops[..i], id) + if IsWrite(ops[i]) && SourceOfItem(ops[i].item) == id then [i] else []
  {
    assert ops[..i + 1][..i] == ops[..i];
  }

  lemma DevicesOneMore(ops: seq<Op>, i: nat)
    requires i < |ops|
    ensures DevicesOf(ops[..i + 1]) ==
      if IsWrite(ops[i]) && !ListsDevice(DevicesOf(ops[..i]), SourceOfItem(ops[i].item))
      then DevicesOf(ops[..i]) + [LinkOfItem(ops[i].item).source] else DevicesOf(ops[..i])
  {
    assert ops[..i + 1][..i] == ops[..i];
  }

  lemma FiledOneMore(grouped: map<string, seq<nat>>, handles: seq<DeviceHandle>, h: DeviceHandle, mine: seq<nat>)
    requires FiledFor(grouped, handles)
    ensures FiledFor(grouped[h.Identity() := mine], handles + [h])
    ensures h.Identity() in grouped ==> FiledFor(grouped[h.Identity() := mine], handles)
  {
    forall id ensures ListsDevice(handles + [h], id) <==> ListsDevice(handles, id) || id == h.Identity() {
      if ListsDevice(handles, id) {
        ListsMore(handles, h, id);
      }
      ListsItself(handles, h);
    }
  }

  /** The devices still to be written to, and each one's writes. */
  method Grouped(ops: seq<Op>) returns (handles: seq<DeviceHandle>, grouped: map<string, seq<nat>>)
    ensures handles == DevicesOf(ops)
    ensures Groups(grouped, ops) && FiledFor(grouped, handles)
  {
    hide FiledFor;
    hide Mine;
    hide DevicesOf;
    hide ListsDevice;
    hide DeviceHandle.Identity;
    handles, grouped := [], map[];
    NothingGrouped();
    assert ops[..0] == [];
    for i := 0 to |ops|
      invariant handles == DevicesOf(ops[..i])
      invariant Groups(grouped, ops[..i]) && FiledFor(grouped, handles)
    {
      DevicesOneMore(ops, i);
      forall id
        ensures Mine(ops[..i + 1], id) ==
          Mine(ops[..i], id) + if IsWrite(ops[i]) && SourceOfItem(ops[i].item) == id then [i] else []
      {
        MineOneMore(ops, i, id);
      }
      if IsWrite(ops[i]) {
        var h := LinkOfItem(ops[i].item).source;
        var id := h.Identity();
        var mine := (if id in grouped then grouped[id] else []) + [i];
        FiledOneMore(grouped, handles, h, mine);
        FiledMeansListed(grouped, handles, id);
        if id !in grouped {
          handles := handles + [h];
        }
        grouped := grouped[id := mine];
      }
    }
    assert ops[..|ops|] == ops;
  }

  lemma FiledMeansListed(grouped: map<string, seq<nat>>, handles: seq<DeviceHandle>, id: string)
    requires FiledFor(grouped, handles)
    ensures id in grouped <==> ListsDevice(handles, id)
  {
  }

  lemma NothingGrouped()
    ensures Groups(map[], []) && FiledFor(map[], []) && DevicesOf([]) == []
  {
  }

  // Staleness.

  /** What a fresh plan does to each link, filed by fingerprint: the last of several stands. */
  method CurrentOps(items: seq<PlanItem>) returns (current: map<string, PlanOp>)
    ensures forall f :: (if f in current then Some(current[f]) else None) == CurrentOp(items, f)
  {
    hide Fingerprint;
    current := map[];
    for i := 0 to |items|
      invariant forall f :: (if f in current then Some(current[f]) else None) == CurrentOp(items[..i], f)
    {
      assert items[..i + 1][..i] == items[..i];
      if !items[i].about.NoLink? {
        current := current[Fingerprint(items[i].about.TheLink()) := items[i].op];
      }
    }
    assert items[..|items|] == items;
  }

  /** A write a fresh plan would no longer do. */
  predicate Changed(replan: Plan, ops: seq<Op>, i: nat) {
    i < |ops| && IsWrite(ops[i]) && !StillPlanned(replan, ops[i])
  }

  ghost predicate AnyChangedIn(replan: Plan, ops: seq<Op>, mine: seq<nat>) {
    exists p | 0 <= p < |mine| :: Changed(replan, ops, mine[p])
  }

  lemma StaleByWrites(plan: Plan, replan: Plan, ops: seq<Op>, id: string)
    requires replan.token != plan.token
    ensures IsStale(plan, replan, ops, id) <==> AnyChangedIn(replan, ops, Mine(ops, id))
  {
    hide StillPlanned;
    MineAre(ops, id);
    var mine := Mine(ops, id);
    if i :| 0 <= i < |ops| && IsWrite(ops[i]) && SourceOfItem(ops[i].item) == id && !StillPlanned(replan, ops[i]) {
      assert i in mine;
      var p :| 0 <= p < |mine| && mine[p] == i;
      assert Changed(replan, ops, mine[p]);
    }
    if p :| 0 <= p < |mine| && Changed(replan, ops, mine[p]) {
      assert mine[p] in mine;
    }
  }

  /** The devices whose work is no longer the work that was approved. */
  method StaleDevices(plan: Plan, replan: Plan, ops: seq<Op>, handles: seq<DeviceHandle>,
          grouped: map<string, seq<nat>>)
    returns (stale: set<string>)
    requires Groups(grouped, ops) && FiledFor(grouped, handles)
    ensures forall id | id in grouped :: id in stale <==> IsStale(plan, replan, ops, id)
    ensures stale <= grouped.Keys
  {
    hide Mine;
    hide CurrentOp;
    hide Fingerprint;
    hide FiledFor;
    hide AnyChangedIn;
    if replan.token == plan.token {
      return {};
    }
    var current := CurrentOps(replan.items);
    var todo := grouped.Keys;
    stale := {};
    while todo != {}
      invariant todo <= grouped.Keys && stale <= grouped.Keys - todo
      invariant forall id | id in grouped && id !in todo :: id in stale <==> IsStale(plan, replan, ops, id)
      decreases |todo|
    {
      var id :| id in todo;
      var changed := AnyChanged(current, replan, ops, id, grouped[id]);
      StaleByWrites(plan, replan, ops, id);
      if changed {
        stale := stale + {id};
      }
      todo := todo - {id};
    }
  }

  method AnyChanged(current: map<string, PlanOp>, replan: Plan, ops: seq<Op>, id: string, mine: seq<nat>)
    returns (changed: bool)
    requires mine == Mine(ops, id)
    requires forall f :: (if f in current then Some(current[f]) else None) == CurrentOp(replan.items, f)
    ensures changed <==> AnyChangedIn(replan, ops, mine)
  {
    hide Fingerprint;
    hide CurrentOp;
    hide Mine;
    MineAre(ops, id);
    changed := false;
    for p := 0 to |mine|
      invariant changed <==> exists q | 0 <= q < p :: Changed(replan, ops, mine[q])
    {
      assert mine[p] in mine;
      var op := ops[mine[p]];
      var f := Fingerprint(LinkOfItem(op.item));
      if f !in current || current[f] != op.item.op {
        assert Changed(replan, ops, mine[p]);
        changed := true;
      } else {
        assert !Changed(replan, ops, mine[p]);
      }
    }
  }

  /** Answers every operation still to be performed on the stale devices. */
  method Mark(plan: Plan, replan: Plan, ops: seq<Op>, grouped: map<string, seq<nat>>, stale: set<string>)
    returns (marked: seq<Op>)
    requires Groups(grouped, ops) && stale <= grouped.Keys
    requires forall id | id in grouped :: id in stale <==> IsStale(plan, replan, ops, id)
    ensures marked == MarkStale(plan, replan, ops)
  {
    hide IsStale;
    hide Mine;
    marked := [];
    for i := 0 to |ops|
      invariant |marked| == i && forall k | 0 <= k < i :: marked[k] == MarkStale(plan, replan, ops)[k]
    {
      var op := ops[i];
      if IsWrite(op) {
        WriteIsGrouped(grouped, ops, i);
        if SourceOfItem(op.item) in stale {
          op := op.(outcome := Some(StalePlan));
        }
      }
      marked := marked + [op];
    }
  }

  lemma WriteIsGrouped(grouped: map<string, seq<nat>>, ops: seq<Op>, i: nat)
    requires Groups(grouped, ops) && i < |ops| && IsWrite(ops[i])
    ensures SourceOfItem(ops[i].item) in grouped
  {
    hide Mine;
    MineAre(ops, SourceOfItem(ops[i].item));
  }

  // One device.

  /** Goes through a device's writes from the `k`th: starts the first that may start. */
  method GoOn(ops: seq<Op>, stop: Option<JobStatus>, mine: seq<nat>, k: nat, attempted: bool) returns (now: seq<Op>,
          pc: Pc, sent: bool)
    requires k <= |mine| && forall i | i in mine :: i < |ops|
    ensures (now, pc, sent) == Proceed(ops, stop, mine, k, attempted)
  {
    now := ops;
    var p := k;
    while p < |mine|
      invariant k <= p <= |mine| && |now| == |ops|
      invariant Proceed(now, stop, mine, p, attempted) == Proceed(ops, stop, mine, k, attempted)
    {
      assert mine[p] in mine;
      if stop.None? {
        now := now[mine[p] := now[mine[p]].(attempts := 1)];
        return now, Calling(p), true;
      }
      now := now[mine[p] := now[mine[p]].(outcome := Some(NotAttempted(stop.value)))];
      p := p + 1;
    }
    pc := if attempted then Verifying else Finished;
    sent := attempted;
  }

  /** Checks every write of a device against what its deep read came back with. */
  method Verify(ops: seq<Op>, mine: seq<nat>, answer: Option<ObservedDevice>) returns (now: seq<Op>)
    requires Indexes(ops, mine) && forall i | i in mine :: i < |ops| && !ops[i].item.about.NoLink?
    ensures now == VerifyAll(ops, mine, answer)
  {
    hide VerifiedOp;
    now := ops;
    for p := 0 to |mine|
      invariant |now| == |ops|
      invariant forall i: nat | i < |ops| ::
        now[i] == if i in mine[..p] && !ops[i].item.about.NoLink? then VerifiedOp(ops[i], answer) else ops[i]
    {
      assert mine[p] in mine && mine[..p + 1] == mine[..p] + [mine[p]];
      assert mine[p] !in mine[..p];
      now := now[mine[p] := VerifiedOp(now[mine[p]], answer)];
    }
    assert mine[..|mine|] == mine;
  }

  class JobRunner {
    const cfg: Config
    const coordinator: Coordinator
    var shutDown: bool
    var current: Option<nat>
    var jobs: seq<Job>

    constructor (cfg: Config, coordinator: Coordinator)
      ensures this.cfg == cfg && this.coordinator == coordinator
      ensures View() == State(coordinator.View(), false, None, [])
    {
      this.cfg, this.coordinator := cfg, coordinator;
      shutDown, current, jobs := false, None, [];
    }

    function View(): State
      reads this, coordinator
    {
      State(coordinator.View(), shutDown, current, jobs)
    }

    /** From the re-read to the coroutines: marks the stale devices, takes the snapshot, sets the rest to work. */
    method Check(job: Job) returns (next: Job, ghost replan: Plan)
      modifies coordinator
      ensures Replans(old(coordinator.View()), job.request, replan)
      ensures next == Prepare(job, old(coordinator.View()), replan)
      ensures coordinator.View() == Stored(old(coordinator.View()), next)
    {
      hide Resolve;
      hide IsScopedPlan;
      hide MarkStale;
      hide DevicesOf;
      hide Groups;
      hide FiledFor;
      hide TasksOf;
      hide SnapshotOf;
      var offered := coordinator.AsyncPlan(job.request.scope, job.request.selected, job.request.desired);
      replan := offered;
      var handles, grouped := Grouped(job.ops);
      var stale := StaleDevices(job.request.plan, offered, job.ops, handles, grouped);
      var ops := Mark(job.request.plan, offered, job.ops, grouped, stale);
      var devices, writes := Grouped(ops);
      var snapshot := TakeSnapshot(devices);
      next := SetToWork(job, coordinator.View(), ops, devices, snapshot);
      if snapshot.Some? {
        coordinator.ResolveOwnership();
      }
    }

    /** Records everything the devices to be written to hold. Nothing is recorded of nothing. */
    method TakeSnapshot(handles: seq<DeviceHandle>) returns (snapshot: Option<Snapshot>)
      ensures snapshot == SnapshotOf(coordinator.View(), handles)
    {
      hide ObservedIn;
      var devices := Covered(coordinator.View(), handles);
      if devices == {} {
        return None;
      }
      var links := coordinator.ObservedFrom(SortedStrings(devices));
      snapshot := Some(Snapshot("", devices, links));
    }

    /** Takes a job on, unless the runner was shut down or is busy. */
    method AsyncApply(request: Request) returns (accepted: bool, ghost replan: Plan)
      modifies this, coordinator
      ensures accepted <==> !old(shutDown) && old(current).None?
      ensures View() == if accepted then Begin(cfg, old(View()), request, replan) else old(View())
      ensures Enabled(cfg, old(View()), Apply(request, replan))
      ensures InRange(old(View())) ==> View() == Effect(cfg, old(View()), Apply(request, replan))
    {
      hide Prepare;
      hide Begin;
      hide Replans;
      hide InRange;
      replan := ReplanExists(coordinator.View(), request);
      accepted := !shutDown && current.None?;
      if accepted {
        replan := TakeOn(request);
      }
      ApplyIsAStep(cfg, old(View()), request, replan);
    }

    method TakeOn(request: Request) returns (ghost replan: Plan)
      modifies this, coordinator
      ensures Replans(old(coordinator.View()), request, replan)
      ensures View() == Begin(cfg, old(View()), request, replan)
    {
      hide Prepare;
      hide Resolve;
      hide StartOps;
      hide DevicesOf;
      hide Replans;
      hide Groups;
      hide FiledFor;
      replan := ReplanExists(coordinator.View(), request);
      var ops := RefuseImpossible(cfg, coordinator.View(), request);
      var handles, grouped := Grouped(ops);
      var job := NewJob(cfg, coordinator.View(), request, ops, handles);
      if handles == [] {
        job, replan := Check(job);
      }
      current := Some(|jobs|);
      jobs := jobs + [job];
    }

    /** Records why the current job must stop starting things. The first reason stands. */
    method StopCurrent(status: JobStatus)
      modifies this`jobs
      ensures View() == Stop(old(View()), status)
    {
      if current.Some? && current.value < |jobs| && jobs[current.value].stop.None? {
        jobs := jobs[current.value := jobs[current.value].(stop := Some(status))];
      }
    }

    method AsyncCancel()
      modifies this`jobs
      ensures InRange(old(View())) ==> View() == Effect(cfg, old(View()), Action.Cancel)
    {
      StopCurrent(Cancelled);
    }

    method AsyncShutdown()
      modifies this`jobs, this`shutDown
      ensures InRange(old(View())) ==> View() == Effect(cfg, old(View()), Action.Shutdown)
    {
      shutDown := true;
      StopCurrent(Interrupted);
    }

    /** A device answered the re-read, or did not; after the last one comes the check. */
    method AfterReread(j: nat, answer: Option<(DeviceCapabilities, ObservedDevice)>) returns (ghost replan: Plan)
      requires InRange(View()) && j < |jobs| && jobs[j].phase.Rereading? && jobs[j].phase.todo != []
      requires Honest(Read(jobs[j].phase.todo[0], answer))
      modifies this, coordinator
      ensures Enabled(cfg, old(View()), Reread(j, answer, replan)) &&
        View() == Effect(cfg, old(View()), Reread(j, answer, replan))
    {
      hide Prepare;
      hide Resolve;
      hide Replans;
      hide TaskInRange;
      hide Honest;
      var job := jobs[j];
      var read := coordinator.RefreshOne(job.phase.todo[0], true, answer);
      if |job.phase.todo| == 1 {
        var next;
        next, replan := Check(job);
        jobs := jobs[j := next];
      } else {
        replan := job.request.plan;
        jobs := jobs[j := job.(phase := Rereading(job.phase.todo[1..]))];
      }
    }

    /** A device's turn has come: its coroutine starts its first write, or passes over them all. */
    method Acquired(j: nat, t: nat)
      requires InRange(View()) && Enabled(cfg, View(), Acquire(j, t))
      modifies this`jobs
      ensures View() == Effect(cfg, old(View()), Acquire(j, t))
    {
      hide Proceed;
      var job := jobs[j];
      assert TaskInRange(job, t);
      var ops, pc, attempted := GoOn(job.ops, job.stop, job.tasks[t].mine, 0, false);
      jobs := jobs[j := Seated(job, t, (ops, pc, attempted))];
    }

    /** A call was answered: a failure is tried again after a wait, anything else decides the write. */
    method CallAnswered(j: nat, t: nat, status: WriteStatus)
      requires InRange(View()) && Enabled(cfg, View(), Answer(j, t, status))
      modifies this`jobs
      ensures View() == Effect(cfg, old(View()), Answer(j, t, status))
    {
      hide Proceed;
      var job := jobs[j];
      assert TaskInRange(job, t);
      var task, k := job.tasks[t], job.tasks[t].pc.k;
      assert task.mine[k] in task.mine;
      var op := job.ops[task.mine[k]];
      var ops, pc, attempted := job.ops[task.mine[k] := AnsweredOp(op, status)], Sleeping(k), task.attempted;
      if !TriesAgain(op, status) {
        ops, pc, attempted := GoOn(ops, job.stop, task.mine, k + 1, task.attempted);
      }
      jobs := jobs[j := WithTask(job, t, (ops, pc, attempted))];
    }

    /** A wait is over: the write is tried again, unless the job was stopped meanwhile. */
    method Woken(j: nat, t: nat)
      requires InRange(View()) && Enabled(cfg, View(), Wake(j, t))
      modifies this`jobs
      ensures View() == Effect(cfg, old(View()), Wake(j, t))
    {
      hide Proceed;
      var job := jobs[j];
      assert TaskInRange(job, t);
      var task, k := job.tasks[t], job.tasks[t].pc.k;
      assert task.mine[k] in task.mine;
      var op := job.ops[task.mine[k]];
      var ops, pc, attempted := job.ops[task.mine[k] := WokenOp(op, job.stop)], Calling(k), task.attempted;
      if job.stop.Some? {
        ops, pc, attempted := GoOn(ops, job.stop, task.mine, k + 1, task.attempted);
      }
      jobs := jobs[j := WithTask(job, t, (ops, pc, attempted))];
    }

    /** The deep read came back: every write is checked against it, and the device is done. */
    method DeviceRead(j: nat, t: nat, answer: Option<(DeviceCapabilities, ObservedDevice)>)
      requires InRange(View()) && Enabled(cfg, View(), DeepRead(j, t, answer))
      requires Indexes(jobs[j].ops, jobs[j].tasks[t].mine)
      modifies this`jobs, coordinator
      ensures View() == Effect(cfg, old(View()), DeepRead(j, t, answer))
    {
      hide Resolve;
      hide VerifyAll;
      var job := jobs[j];
      assert TaskInRange(job, t);
      var read := coordinator.RefreshOne(job.tasks[t].device, true, answer);
      var ops := Verify(job.ops, job.tasks[t].mine, read);
      jobs := jobs[j := WithRead(job, t, ops, read)];
    }

    /** Every coroutine is done: the job ends with its status, and the runner is free again. */
    method Finish(j: nat)
      requires InRange(View()) && Enabled(cfg, View(), Conclude(j))
      modifies this`jobs, this`current, coordinator
      ensures View() == Effect(cfg, old(View()), Conclude(j))
    {
      hide Resolve;
      var job := jobs[j];
      jobs := jobs[j := job.(phase := Done(StatusOf(job)))];
      coordinator.ResolveOwnership();
      current := None;
    }
  }

  /** What `AsyncApply` promises is the engine's own step. */
  lemma ApplyIsAStep(cfg: Config, s: State, request: Request, replan: Plan)
    requires Replans(s.cache, request, replan)
    ensures Enabled(cfg, s, Apply(request, replan))
    ensures InRange(s) ==>
      Effect(cfg, s, Apply(request, replan)) ==
      if !s.shutDown && s.current.None? then Begin(cfg, s, request, replan) else s
  {
    hide Begin;
    hide Replans;
    hide InRange;
  }
}
