/**
 Following changes (custom_components/device_links/coordinator.py, from `async_hold_refresh` to
 `_cancel_flush`): change events are gathered, held back while somebody talks to a device, and
 read once a burst is over.

 A hold is known by its number; calling it lets go.
 */
module Refreshes {

  datatype Hold = Hold(identities: seq<string>, released: bool)

  /** `held` counts the holds on each device, `armed` says a read is scheduled. */
  datatype Following = Following(held: map<string, int>, pending: set<string>, armed: bool, holds: seq<Hold>)

  const IDLE := Following(map[], {}, false, [])

  // Counting.

  function CountOf(held: map<string, int>, id: string): int {
    if id in held then held[id] else 0
  }

  function AddAll(held: map<string, int>, ids: seq<string>): map<string, int> {
    if ids == [] then held
    else
      var front, last := AddAll(held, ids[..|ids| - 1]), ids[|ids| - 1];
      front[last := CountOf(front, last) + 1]
  }

  function Less(held: map<string, int>, id: string): map<string, int> {
    if CountOf(held, id) - 1 <= 0 then held - {id} else held[id := held[id] - 1]
  }

  function TakeAll(held: map<string, int>, ids: seq<string>): map<string, int> {
    if ids == [] then held else Less(TakeAll(held, ids[..|ids| - 1]), ids[|ids| - 1])
  }

  /** How often the holds that were not let go name a device. */
  function Outstanding(holds: seq<Hold>, id: string): nat {
    if holds == [] then 0
    else
      var last := holds[|holds| - 1];
      Outstanding(holds[..|holds| - 1], id) + if last.released then 0 else multiset(last.identities)[id]
  }

  // Steps.

  predicate Readable(f: Following) {
    exists id | id in f.pending :: id !in f.held
  }

  /** Schedules a read, unless one is scheduled or there is nothing it could read yet. */
  function Armed(f: Following): Following {
    f.(armed := f.armed || Readable(f))
  }

  function Held(f: Following, ids: seq<string>): Following {
    f.(held := AddAll(f.held, ids), holds := f.holds + [Hold(ids, false)])
  }

  function LetGo(f: Following, k: nat): Following {
    if k >= |f.holds| || f.holds[k].released then f
    else Armed(f.(held := TakeAll(f.held, f.holds[k].identities), holds := f.holds[k := f.holds[k].(released := true)]))
  }

  function Changed(f: Following, id: string): Following {
    Armed(f.(pending := f.pending + {id}))
  }

  /** What a flush takes when it fires: the pending devices nobody holds at that moment. */
  function Taken(f: Following): set<string> {
    set id | id in f.pending && id !in f.held
  }

  function Flushed(f: Following): Following {
    f.(armed := false, pending := f.pending - Taken(f))
  }

  function Dropped(f: Following): Following {
    f.(armed := false, pending := {})
  }

  datatype Event = TakeHold(ids: seq<string>) | Release(k: nat) | Change(id: string) | Fire | Unload

  function After(f: Following, e: Event): Following {
    match e
    case TakeHold(ids) => Held(f, ids)
    case Release(k) => LetGo(f, k)
    case Change(id) => Changed(f, id)
    case Fire => if f.armed then Flushed(f) else f
    case Unload => Dropped(f)
  }

  function Run(f: Following, es: seq<Event>): Following {
    if es == [] then f else After(Run(f, es[..|es| - 1]), es[|es| - 1])
  }

  // The invariant.

  /** Every count is the number of outstanding holds, and devices nobody holds have none. */
  ghost predicate CountsHolds(f: Following) {
    && (forall id :: CountOf(f.held, id) == Outstanding(f.holds, id))
    && (forall id | id in f.held :: f.held[id] > 0)
  }

  /** A change that could be read is going to be. */
  ghost predicate NothingLost(f: Following) {
    forall id | id in f.pending && id !in f.held :: f.armed
  }

  ghost predicate FollowingInv(f: Following) {
    CountsHolds(f) && NothingLost(f)
  }

  lemma {:induction false} AddAllCounts(held: map<string, int>, ids: seq<string>, id: string)
    requires forall x | x in held :: held[x] > 0
    ensures CountOf(AddAll(held, ids), id) == CountOf(held, id) + multiset(ids)[id]
    ensures forall x | x in AddAll(held, ids) :: AddAll(held, ids)[x] > 0
    ensures forall x | x in held :: x in AddAll(held, ids)
  {
    if ids != [] {
      var front := ids[..|ids| - 1];
      assert ids == front + [ids[|ids| - 1]];
      AddAllCounts(held, front, id);
    }
  }

  lemma {:induction false} TakeAllCounts(held: map<string, int>, ids: seq<string>, id: string)
    requires forall x | x in held :: held[x] > 0
    requires forall x :: multiset(ids)[x] <= CountOf(held, x)
    ensures CountOf(TakeAll(held, ids), id) == CountOf(held, id) - multiset(ids)[id]
    ensures forall x | x in TakeAll(held, ids) :: TakeAll(held, ids)[x] > 0
  {
    if ids != [] {
      var front, last := ids[..|ids| - 1], ids[|ids| - 1];
      assert ids == front + [last];
      assert forall x :: multiset(ids)[x] == multiset(front)[x] + if x == last then 1 else 0;
      TakeAllCounts(held, front, id);
      TakeAllCounts(held, front, last);
    }
  }

  lemma {:induction false} OutstandingHas(holds: seq<Hold>, k: nat, id: string)
    requires k < |holds| && !holds[k].released
    ensures Outstanding(holds, id) >= multiset(holds[k].identities)[id]
    ensures Outstanding(holds[k := holds[k].(released := true)], id) ==
      Outstanding(holds, id) - multiset(holds[k].identities)[id]
  {
    var after := holds[k := holds[k].(released := true)];
    if k < |holds| - 1 {
      OutstandingHas(holds[..|holds| - 1], k, id);
      assert after[..|after| - 1] == holds[..|holds| - 1][k := holds[k].(released := true)];
    } else {
      assert after[..|after| - 1] == holds[..|holds| - 1];
    }
  }

  lemma HoldKeepsInv(f: Following, ids: seq<string>)
    requires FollowingInv(f)
    ensures FollowingInv(Held(f, ids))
  {
    var g := Held(f, ids);
    assert g.holds[..|g.holds| - 1] == f.holds;
    AddAllCounts(f.held, ids, "");
    forall id ensures CountOf(g.held, id) == Outstanding(g.holds, id) {
      AddAllCounts(f.held, ids, id);
    }
  }

  lemma ReleaseKeepsInv(f: Following, k: nat)
    requires FollowingInv(f)
    ensures FollowingInv(LetGo(f, k))
  {
    hide Outstanding;
    hide TakeAll;
    if k < |f.holds| && !f.holds[k].released {
      var g := LetGo(f, k);
      var ids := f.holds[k].identities;
      forall id ensures multiset(ids)[id] <= CountOf(f.held, id) {
        OutstandingHas(f.holds, k, id);
      }
      forall id ensures CountOf(g.held, id) == Outstanding(g.holds, id) {
        OutstandingHas(f.holds, k, id);
        TakeAllCounts(f.held, ids, id);
      }
      TakeAllCounts(f.held, ids, "");
    }
  }

  lemma StepKeepsInv(f: Following, e: Event)
    requires FollowingInv(f)
    ensures FollowingInv(After(f, e))
  {
    hide CountsHolds;
    match e
    case TakeHold(ids) => HoldKeepsInv(f, ids);
    case Release(k) => ReleaseKeepsInv(f, k);
    case _ => SameHolds(f, After(f, e));
  }

  lemma SameHolds(f: Following, g: Following)
    requires CountsHolds(f) && g.held == f.held && g.holds == f.holds
    ensures CountsHolds(g)
  {
  }

  /**
   After every run: a pending device that nobody holds has its read scheduled, and each count
   is the number of outstanding holds, under any order and repetition of releases.
   */
  lemma {:induction false} ChangesAreNeverLost(es: seq<Event>)
    ensures FollowingInv(Run(IDLE, es))
  {
    hide After;
    hide FollowingInv;
    if es == [] {
      IdleIsInOrder();
    } else {
      ChangesAreNeverLost(es[..|es| - 1]);
      StepKeepsInv(Run(IDLE, es[..|es| - 1]), es[|es| - 1]);
    }
  }

  lemma IdleIsInOrder()
    ensures FollowingInv(IDLE)
  {
  }

  /** When every hold has been let go nothing is held, so following changes never stops for good. */
  lemma {:induction false} NobodyHoldsForever(es: seq<Event>)
    requires forall h | h in Run(IDLE, es).holds :: h.released
    ensures Run(IDLE, es).held == map[]
    ensures Run(IDLE, es).pending != {} ==> Run(IDLE, es).armed
  {
    var f := Run(IDLE, es);
    ChangesAreNeverLost(es);
    forall id | id in f.held ensures false {
      NothingOutstanding(f.holds, id);
    }
    if f.pending != {} {
      var id :| id in f.pending;
      assert id !in f.held;
    }
  }

  lemma {:induction false} NothingOutstanding(holds: seq<Hold>, id: string)
    requires forall h | h in holds :: h.released
    ensures Outstanding(holds, id) == 0
  {
    if holds != [] {
      NothingOutstanding(holds[..|holds| - 1], id);
    }
  }

  /** A change stays pending until a flush takes it, and a flush never takes a device that is held when it fires. */
  lemma FlushesTakeOnlyWhatNobodyHolds(es: seq<Event>, e: Event, id: string)
    requires id in Run(IDLE, es).pending && e != Unload
    ensures id in After(Run(IDLE, es), e).pending || (e == Fire && id in Taken(Run(IDLE, es)))
    ensures id in Taken(Run(IDLE, es)) ==> Outstanding(Run(IDLE, es).holds, id) == 0
  {
    hide Outstanding;
    ChangesAreNeverLost(es);
    var f := Run(IDLE, es);
    if id in Taken(f) {
      assert CountOf(f.held, id) == Outstanding(f.holds, id);
    }
  }

  // The coordinator's own fields.

  class Follower {
    var held: map<string, int>
    var pending: set<string>
    var armed: bool
    var holds: seq<Hold>

    constructor ()
      ensures View() == IDLE
    {
      held, pending, armed, holds := map[], {}, false, [];
    }

    function View(): Following
      reads this
    {
      Following(held, pending, armed, holds)
    }

    /** Suspends event-driven reads of these devices, and gives the hold's number. */
    method HoldRefresh(identities: seq<string>) returns (hold: nat)
      modifies this`held, this`holds
      ensures View() == Held(old(View()), identities)
      ensures hold == old(|holds|) && hold < |holds| && !holds[hold].released
    {
      for i := 0 to |identities|
        invariant held == AddAll(old(held), identities[..i]) && holds == old(holds)
      {
        assert identities[..i + 1][..i] == identities[..i];
        held := held[identities[i] := CountOf(held, identities[i]) + 1];
      }
      assert identities[..|identities|] == identities;
      hold := |holds|;
      holds := holds + [Hold(identities, false)];
    }

    /** Lets go of a hold. Doing it again does nothing. */
    method LetGoOf(hold: nat)
      requires hold < |holds|
      modifies this`held, this`holds, this`armed
      ensures View() == LetGo(old(View()), hold)
      ensures old(holds[hold].released) ==> View() == old(View())
    {
      if holds[hold].released {
        return;
      }
      var identities := holds[hold].identities;
      holds := holds[hold := holds[hold].(released := true)];
      for i := 0 to |identities|
        invariant held == TakeAll(old(held), identities[..i]) && armed == old(armed)
        invariant holds == old(holds)[hold := old(holds)[hold].(released := true)]
      {
        assert identities[..i + 1][..i] == identities[..i];
        if CountOf(held, identities[i]) - 1 <= 0 {
          held := held - {identities[i]};
        } else {
          held := held[identities[i] := held[identities[i]] - 1];
        }
      }
      assert identities[..|identities|] == identities;
      ArmFlush();
    }

    /** Notes that a device is worth reading again. */
    method DeviceChanged(identity: string)
      modifies this`pending, this`armed
      ensures View() == Changed(old(View()), identity)
    {
      pending := pending + {identity};
      ArmFlush();
    }

    method ArmFlush()
      modifies this`armed
      ensures View() == Armed(old(View()))
    {
      if armed {
        return;
      }
      if exists id | id in pending :: id !in held {
        armed := true;
      }
    }

    /** The scheduled read fires: takes what nobody holds and leaves the rest pending. */
    method FlushPending() returns (taken: set<string>)
      modifies this`pending, this`armed
      ensures View() == Flushed(old(View())) && taken == Taken(old(View()))
      ensures taken + pending == old(pending) && taken !! pending && forall id | id in taken :: id !in held
    {
      armed := false;
      var kept := set id | id in pending && id in held;
      taken := pending - kept;
      pending := kept;
    }

    /** Drops a read that was scheduled and is no longer wanted. */
    method CancelFlush()
      modifies this`pending, this`armed
      ensures View() == Dropped(old(View()))
    {
      armed := false;
      pending := {};
    }
  }
}
