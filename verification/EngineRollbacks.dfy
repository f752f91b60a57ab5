/** Rolling back what the apply engine did: from a job of any run to the snapshot it took. */
module EngineRollbacks {
  import opened Wrappers
  import opened Orders
  import opened Models
  import opened Fingerprints
  import opened Planner
  import opened PlannerProperties
  import opened Caches
  import opened CacheProperties
  import opened Rollbacks
  import opened Executor
  import opened ExecutorInvariant
  import opened ExecutorRuns
  import opened ExecutorProperties

  /** A write of this kind for this fingerprint was sent by the job. */
  ghost predicate Sent(job: Job, op: PlanOp, f: string) {
    exists k | 0 <= k < |job.ops| :: SentAt(job, k, op, f)
  }

  ghost predicate SentAt(job: Job, k: nat, op: PlanOp, f: string) {
    k < |job.ops| && job.ops[k].attempts > 0 && job.ops[k].item.op == op && ItemFingerprint(job.ops[k].item) == f
  }

  /** What a snapshot recorded, by fingerprint. */
  ghost predicate SnapshotHas(snapshot: Snapshot, f: string) {
    exists e | e in snapshot.links :: Fingerprint(e.link) == f
  }

  /** The job applied the profile itself, from a plan the coordinator made or a choice of its items. */
  ghost predicate AppliedTheProfile(job: Job, c: Cache, offer: Plan) {
    && job.request.desired.None? && Offered(job.request, c, offer) && CleanPlan(c, job.request)
    && (job.checked.Some? ==> CleanPlan(job.checked.value, job.request))
  }

  /**
   Some of the writes the job sent took effect on the snapshot's devices, which all answer
   again; nothing else moved there, and no foreign entry the user had selected was taken off.
   */
  ghost predicate TookPart(job: Job, now: Cache, added: set<string>, removed: set<string>) {
    && job.checked.Some? && job.snapshot.Some?
    && var c, devices := job.checked.value, job.snapshot.value.devices;
       && AllRead(c, devices) && AllAvailable(now, devices)
       && (forall f | f in added :: Sent(job, AddOp, f)) && (forall f | f in removed :: Sent(job, RemoveOp, f))
       && Moved(c, now, devices, added, removed)
       && NothingForeignTaken(c, devices, job.request.selected, removed)
       && WithinCapacity(c, now, devices, removed)
  }

  lemma SnapshotIs(c: Cache, handles: seq<DeviceHandle>)
    requires SnapshotOf(c, handles).Some?
    ensures Covers(c, SnapshotOf(c, handles).value) && SnapshotOf(c, handles).value.devices != {} && handles != []
  {
    hide ObservedIn;
    hide SortedStrings;
    var id :| id in Covered(c, handles);
  }

  /** What a job's snapshot is of: devices that were read, resolved right before the check. */
  lemma SnapshotStands(cfg: Config, job: Job)
    requires JobInv(cfg, job) && job.snapshot.Some?
    ensures job.checked.Some? && CacheInv(job.checked.value) && Exact(job.checked.value)
    ensures Covers(job.checked.value, job.snapshot.value) && job.snapshot.value.devices != {}
  {
    hide CacheInv;
    hide Exact;
    hide OpsSound;
    hide Approved;
    hide AllTaken;
    hide TaskInv;
    hide OneTaskEach;
    hide StartOps;
    hide SnapshotOf;
    hide Covers;
    assert AtWork(cfg, job);
    SnapshotIs(job.checked.value, DevicesAtWork(job.tasks));
  }

  lemma SentIsPlannedOver(cfg: Config, job: Job, c: Cache, offer: Plan, op: PlanOp, f: string)
    requires JobInv(cfg, job) && AppliedTheProfile(job, c, offer) && Sent(job, op, f) && job.checked.Some? &&
      job.snapshot.Some?
    requires CacheInv(job.checked.value) && Covers(job.checked.value, job.snapshot.value)
    ensures PlannedOver(job.checked.value, job.request.scope, job.request.selected, None, op, f)
    ensures op == RemoveOp ==> f in HeldOn(job.checked.value, job.snapshot.value.devices)
  {
    hide CacheInv;
    hide JobInv;
    hide PlannedOver;
    hide PlanInputs;
    hide CleanPlan;
    hide Offered;
    hide HeldOn;
    hide Fingerprint;
    hide Keyed;
    hide TakenNow;
    var k :| 0 <= k < |job.ops| && SentAt(job, k, op, f);
    SentIsApproved(cfg, job, k, c, offer);
    var now, request := job.checked.value, job.request;
    if op == RemoveOp {
      PlannedWork(now, request.scope, request.selected, None, op, f);
      PresentIsAvailable(now, request.scope, request.selected, None, f);
      var e := PlanInputs(now, request.scope, request.selected, None).present[f];
      FingerprintIsIdentity(e.link, LinkOfItem(job.ops[k].item));
      HeldOnIs(now, job.snapshot.value.devices, f);
    }
  }

  lemma SnapshotIsHeld(c: Cache, snapshot: Snapshot, f: string)
    requires Covers(c, snapshot)
    ensures SnapshotHas(snapshot, f) <==> f in HeldOn(c, snapshot.devices)
  {
    hide Fingerprint;
    hide PresentMap;
    hide ObservedIn;
    hide SortedStrings;
    PresentMapKeyed(snapshot.links);
  }

  /**
   A job of any run can be rolled back.

   Whatever part of what it sent took effect, planning its snapshot again blocks nothing, and
   once that plan has taken effect its devices hold exactly what the snapshot recorded.
   */
  lemma JobsRollBack(
    cfg: Config, states: seq<State>, actions: seq<Action>, i: nat, j: nat, c: Cache, offer: Plan, now: Cache,
    added: set<string>, removed: set<string>, selected: set<string>, rollback: Plan, after: map<string, ObservedLink>)
    requires IsRun(cfg, states, actions) && Init(states[0]) && i < |states| && j < |states[i].jobs|
    requires AppliedTheProfile(states[i].jobs[j], c, offer)
    requires CacheInv(now) && Exact(now) && TookPart(states[i].jobs[j], now, added, removed)
    requires NothingForeignSelected(now, states[i].jobs[j].snapshot.value.devices, selected)
    requires IsRollbackPlan(now, states[i].jobs[j].snapshot.value, selected, rollback)
    requires TookEffect(HeldOn(now, states[i].jobs[j].snapshot.value.devices), rollback.items, after)
    ensures forall f :: f in after <==> SnapshotHas(states[i].jobs[j].snapshot.value, f)
    ensures forall item | item in rollback.items :: item.op != BlockedOp
  {
    hide IsRun;
    hide Init;
    hide JobInv;
    hide CacheInv;
    hide Exact;
    hide AppliedTheProfile;
    hide Sent;
    hide PlannedOver;
    hide Moved;
    hide NothingForeignTaken;
    hide NothingForeignSelected;
    hide WithinCapacity;
    hide IsRollbackPlan;
    hide TookEffect;
    hide HeldOn;
    hide TakenNow;
    hide SnapshotHas;
    RunsKeepInv(cfg, states, actions, i);
    var job := states[i].jobs[j];
    SnapshotStands(cfg, job);
    var checked, snapshot := job.checked.value, job.snapshot.value;
    forall f | f in added ensures PlannedOver(checked, job.request.scope, job.request.selected, None, AddOp, f) {
      SentIsPlannedOver(cfg, job, c, offer, AddOp, f);
    }
    forall f | f in removed
      ensures PlannedOver(checked, job.request.scope, job.request.selected, None, RemoveOp, f) &&
        f in HeldOn(checked, snapshot.devices)
    {
      SentIsPlannedOver(cfg, job, c, offer, RemoveOp, f);
    }
    assert removed <= HeldOn(checked, snapshot.devices).Keys;
    RollbackUndoesApply(checked, now, job.request.scope, job.request.selected, "", snapshot.devices, added, removed,
      selected, rollback, after);
    forall f ensures f in after <==> SnapshotHas(snapshot, f) {
      SnapshotIsHeld(checked, snapshot, f);
      assert f in after <==> f in after.Keys;
    }
  }
}
