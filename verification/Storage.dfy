/**
 What storage keeps of a history (custom_components/device_links/storage.py, `with_snapshot`
 and `with_job`): the newest so many, in order.
 */
module Storage {

  const MAX_SNAPSHOTS := 20
  const MAX_JOBS := 50

  /** `(*items, item)[-most:]`: one more, oldest dropped first. */
  function With<T>(items: seq<T>, item: T, most: nat): (r: seq<T>)
    requires most > 0
  {
    var all := items + [item];
    if |all| <= most then all else all[|all| - most..]
  }

  /** A history after each of these was added in turn. */
  function Kept<T>(added: seq<T>, most: nat): (r: seq<T>)
    requires most > 0
  {
    if added == [] then [] else With(Kept(added[..|added| - 1], most), added[|added| - 1], most)
  }

  /**
   A history is the newest entries ever added, in the order they were added: an entry is dropped
   exactly when so many newer ones came.
   */
  lemma {:induction false} KeptAreTheNewest<T>(added: seq<T>, most: nat)
    requires most > 0
    ensures Kept(added, most) == added[if |added| <= most then 0 else |added| - most..]
  {
    if added != [] {
      var front, last := added[..|added| - 1], added[|added| - 1];
      KeptAreTheNewest(front, most);
      assert added == front + [last];
      assert Kept(added, most) == With(Kept(front, most), last, most);
    }
  }

  /** The two histories a store holds, and what adding to them does. */
  datatype Histories<S, J> = Histories(snapshots: seq<S>, jobs: seq<J>)
  {
    function WithSnapshot(snapshot: S): Histories<S, J> {
      this.(snapshots := With(snapshots, snapshot, MAX_SNAPSHOTS))
    }

    function WithJob(job: J): Histories<S, J> {
      this.(jobs := With(jobs, job, MAX_JOBS))
    }
  }

  datatype Entry<S, J> = OfSnapshot(snapshot: S) | OfJob(job: J)

  function OneMore<S, J>(h: Histories<S, J>, entry: Entry<S, J>): Histories<S, J> {
    match entry
    case OfSnapshot(snapshot) => h.WithSnapshot(snapshot)
    case OfJob(job) => h.WithJob(job)
  }

  /** An empty store after each of these was recorded in turn. */
  function HistoriesAfter<S, J>(entries: seq<Entry<S, J>>): Histories<S, J> {
    if entries == [] then Histories([], [])
    else OneMore(HistoriesAfter(entries[..|entries| - 1]), entries[|entries| - 1])
  }

  function SnapshotsIn<S, J>(entries: seq<Entry<S, J>>): seq<S> {
    if entries == [] then []
    else
      var last := entries[|entries| - 1];
      SnapshotsIn(entries[..|entries| - 1]) + if last.OfSnapshot? then [last.snapshot] else []
  }

  function JobsIn<S, J>(entries: seq<Entry<S, J>>): seq<J> {
    if entries == [] then []
    else
      var last := entries[|entries| - 1];
      JobsIn(entries[..|entries| - 1]) + if last.OfJob? then [last.job] else []
  }

  lemma KeptMore<T>(added: seq<T>, item: T, most: nat)
    requires most > 0
    ensures Kept(added + [item], most) == With(Kept(added, most), item, most)
  {
    assert (added + [item])[..|added|] == added;
  }

  lemma {:induction false} HistoriesKeep<S, J>(entries: seq<Entry<S, J>>)
    ensures HistoriesAfter(entries).snapshots == Kept(SnapshotsIn(entries), MAX_SNAPSHOTS)
    ensures HistoriesAfter(entries).jobs == Kept(JobsIn(entries), MAX_JOBS)
  {
    hide Kept;
    hide With;
    if entries == [] {
      NothingKept<S>(MAX_SNAPSHOTS);
      NothingKept<J>(MAX_JOBS);
    } else {
      var front, last := entries[..|entries| - 1], entries[|entries| - 1];
      HistoriesKeep(front);
      match last
      case OfSnapshot(snapshot) =>
        KeptMore(SnapshotsIn(front), snapshot, MAX_SNAPSHOTS);
        assert JobsIn(entries) == JobsIn(front);
      case OfJob(job) =>
        KeptMore(JobsIn(front), job, MAX_JOBS);
        assert SnapshotsIn(entries) == SnapshotsIn(front);
    }
  }

  lemma NothingKept<T>(most: nat)
    requires most > 0
    ensures Kept<T>([], most) == []
  {
  }

  /**
   However snapshots and jobs are recorded among each other, a store holds the last twenty
   snapshots and the last fifty jobs, each in order: a job can be rolled back until twenty newer
   snapshots were taken.
   */
  lemma StoresHoldTheNewest<S, J>(entries: seq<Entry<S, J>>)
    ensures
      var taken, held := SnapshotsIn(entries), HistoriesAfter(entries).snapshots;
      held == taken[if |taken| <= 20 then 0 else |taken| - 20..]
    ensures
      var ended, held := JobsIn(entries), HistoriesAfter(entries).jobs;
      held == ended[if |ended| <= 50 then 0 else |ended| - 50..]
  {
    HistoriesKeep(entries);
    KeptAreTheNewest(SnapshotsIn(entries), MAX_SNAPSHOTS);
    KeptAreTheNewest(JobsIn(entries), MAX_JOBS);
  }
}
