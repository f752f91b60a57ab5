/**
 The coordinator (custom_components/device_links/coordinator.py): the cache it keeps, and
 what it plans from it.

 Each method is one stretch of code between awaits. What a backend answers is a parameter.
 */
module Coordinators {
  import opened Wrappers
  import opened Orders
  import opened Models
  import opened Fingerprints
  import opened Compiler
  import opened Compilations
  import opened Planner
  import opened Caches

  class Coordinator {
    var profile: Option<Profile>
    var handles: map<string, DeviceHandle>
    var capabilities: Network
    var observed: map<string, ObservedDevice>
    var unavailable: set<string>
    var compiled: map<string, CompiledRule>
    var owners: map<string, string>
    var desired: seq<Link>

    constructor ()
      ensures View() == EMPTY
    {
      profile, handles, capabilities, observed := None, map[], map[], map[];
      unavailable, compiled, owners, desired := {}, map[], map[], [];
    }

    /** Everything it knows, as a value. */
    function View(): Cache
      reads this
    {
      Cache(profile, handles, capabilities, observed, unavailable, compiled, owners, desired)
    }

    // Reading.

    /** Takes in what a device answered, and says whether it did. A backend that is not loaded is not asked. */
    method ReadDevice(handle: DeviceHandle, loaded: bool, answer: Option<(DeviceCapabilities, ObservedDevice)>)
      returns (read: Option<ObservedDevice>)
      modifies this`handles, this`capabilities, this`observed, this`unavailable
      ensures View() == if loaded then Next(old(View()), Read(handle, answer)) else old(View())
      ensures read == if loaded && answer.Some? then Some(answer.value.1) else None
    {
      if !loaded {
        return None;
      }
      var id := handle.Identity();
      if answer.None? {
        unavailable := unavailable + {id};
        return None;
      }
      handles := handles[id := handle];
      capabilities := capabilities[id := answer.value.0];
      observed := observed[id := answer.value.1];
      unavailable := unavailable - {id};
      return Some(answer.value.1);
    }

    /** Reads one device, resolves ownership over the result, and hands back what is cached for it now. */
    method RefreshOne(handle: DeviceHandle, loaded: bool, answer: Option<(DeviceCapabilities, ObservedDevice)>)
      returns (read: Option<ObservedDevice>)
      modifies this
      ensures View() == Resolve(if loaded then Next(old(View()), Read(handle, answer)) else old(View()))
      ensures read.Some? <==> loaded && answer.Some?
      ensures read.Some? ==> handle.Identity() in observed && read.value == observed[handle.Identity()]
    {
      hide OwnersOf;
      hide DesiredOf;
      hide CompiledOf;
      hide OwnedLinks;
      var answered := ReadDevice(handle, loaded, answer);
      ResolveOwnership();
      read := if answered.None? then None else Some(observed[handle.Identity()]);
    }

    /** Drops what a backend that answered no longer lists. */
    method ForgetUnlisted(backend: Backend, listed: set<string>)
      modifies this`handles, this`capabilities, this`observed, this`unavailable
      ensures View() == Next(old(View()), Unlisted(backend, listed))
      ensures listed == {} ==> View() == old(View())
    {
      hide Without;
      var gone := Known(View(), backend) - listed;
      if listed == {} || gone == {} {
        WithoutNobody(View());
        return;
      }
      var todo := gone;
      WithoutNobody(View());
      assert gone - todo == {};
      while todo != {}
        invariant todo <= gone
        invariant View() == Without(old(View()), gone - todo)
        decreases |todo|
      {
        var id :| id in todo;
        WithoutOneMore(old(View()), gone - todo, id);
        assert gone - (todo - {id}) == (gone - todo) + {id};
        Drop(id);
        todo := todo - {id};
      }
      assert gone - {} == gone;
    }

    method Drop(id: string)
      modifies this`handles, this`capabilities, this`observed, this`unavailable
      ensures View() == Without(old(View()), {id})
    {
      handles := handles - {id};
      capabilities := capabilities - {id};
      observed := observed - {id};
      unavailable := unavailable - {id};
    }

    /** Marks every device of a backend that stopped answering, and keeps what was cached. */
    method MarkBackendUnavailable(backend: Backend)
      modifies this`unavailable
      ensures View() == Next(old(View()), BackendLost(backend))
    {
      unavailable := unavailable + Known(View(), backend);
    }

    // Ownership.

    /** Compiles every rule once, first claims winning, and collects what the enabled ones want. */
    method CompileActiveProfile() returns (result: map<string, CompiledRule>, claimed: map<string, string>,
            wanted: seq<Link>)
      ensures result == CompiledOf(View().Rules(), capabilities)
      ensures claimed == OwnersOf(View().Rules(), capabilities)
      ensures wanted == DesiredOf(View().Rules(), capabilities)
    {
      hide Compile;
      hide Fingerprint;
      result, claimed, wanted := map[], map[], [];
      if profile.None? {
        return;
      }
      var rules := profile.value.rules;
      for i := 0 to |rules|
        invariant result == CompiledOf(rules[..i], capabilities)
        invariant claimed == OwnersOf(rules[..i], capabilities)
        invariant wanted == DesiredOf(rules[..i], capabilities)
      {
        assert rules[..i + 1][..i] == rules[..i];
        var output := CompileOn(rules[i]);
        result := result[rules[i].id := output];
        claimed := ClaimLinks(claimed, output.links, rules[i].id);
        if rules[i].enabled {
          wanted := wanted + output.links;
        }
      }
      assert rules[..|rules|] == rules;
    }

    method CompileOn(rule: Rule) returns (output: CompiledRule)
      ensures output == Compile(rule.WithEnabled(true), capabilities)
    {
      output := CompileRule(rule.WithEnabled(true), capabilities);
    }

    method ClaimLinks(before: map<string, string>, links: seq<Link>, id: string) returns (claimed: map<string, string>)
      ensures claimed == Claim(before, links, id)
    {
      hide Fingerprint;
      claimed := before;
      for i := 0 to |links|
        invariant claimed == Claim(before, links[..i], id)
      {
        assert links[..i + 1][..i] == links[..i];
        var f := Fingerprint(links[i]);
        if f !in claimed {
          claimed := claimed[f := id];
        }
      }
      assert links[..|links|] == links;
    }

    method ResolveOwnership()
      modifies this`compiled, this`owners, this`desired, this`observed
      ensures View() == Resolve(old(View()))
    {
      hide OwnersOf;
      hide DesiredOf;
      hide CompiledOf;
      hide OwnedLinks;
      compiled, owners, desired := CompileActiveProfile();
      var todo := observed.Keys;
      ghost var before := observed;
      NoneStamped(before, owners);
      while todo != {}
        invariant todo <= before.Keys
        invariant observed == PartlyStamped(before, owners, todo)
        modifies this`observed
        decreases |todo|
      {
        var id :| id in todo;
        StampOneMore(before, owners, todo, id);
        observed := observed[id := observed[id].(links := OwnedLinks(observed[id].links, owners))];
        todo := todo - {id};
      }
    }

    /** Takes a new active profile and resolves ownership again, without reading anything. */
    method UpdateState(active: Option<Profile>)
      modifies this
      ensures View() == Next(old(View()), Activating(active))
    {
      profile := active;
      ResolveOwnership();
    }

    /** Enables or disables one rule of the active profile, and says whether it exists. */
    method SetRuleEnabled(ruleId: string, enabled: bool) returns (found: bool)
      modifies this
      ensures found <==> exists r | r in old(View().Rules()) :: r.id == ruleId
      ensures !found ==> View() == old(View())
      ensures found ==>
        View() == Next(old(View()),
          Activating(Some(old(profile).value.(rules := Switched(old(profile).value.rules, ruleId, enabled)))))
    {
      hide Next;
      found := profile.Some? && exists r | r in profile.value.rules :: r.id == ruleId;
      if found {
        UpdateState(Some(profile.value.(rules := Switched(profile.value.rules, ruleId, enabled))));
      }
    }

    // Planning.

    method WantedFrom(wanted: seq<Link>, ids: set<string>) returns (links: seq<Link>)
      ensures links == WantedIn(wanted, ids)
    {
      links := [];
      ghost var test := (l: Link) => l.source.Identity() in ids;
      for i := 0 to |wanted|
        invariant links == Filter(test, wanted[..i])
      {
        assert wanted[..i + 1] == wanted[..i] + [wanted[i]];
        FilterSnoc(test, wanted[..i], wanted[i]);
        if wanted[i].source.Identity() in ids {
          links := links + [wanted[i]];
        }
      }
      assert wanted[..|wanted|] == wanted;
    }

    method ObservedFrom(order: seq<string>) returns (entries: seq<ObservedLink>)
      requires forall id | id in order :: id in observed
      ensures entries == ObservedIn(View(), order)
    {
      entries := [];
      for i := 0 to |order|
        invariant entries == ObservedIn(View(), order[..i])
      {
        assert order[..i + 1][..i] == order[..i];
        entries := entries + observed[order[i]].links;
      }
      assert order[..|order|] == order;
    }

    /** What would happen if this scope were applied, from what was last read. */
    method AsyncPlan(scope: Option<PlanScope>, selected: set<string>, proposed: Option<seq<Link>>) returns (plan: Plan)
      ensures IsScopedPlan(View(), scope, selected, proposed, plan)
    {
      hide IsPlan;
      hide IdentitiesInScope;
      hide Narrowed;
      hide InputsOf;
      hide WantedIn;
      hide ObservedIn;
      hide IsScopedPlan;
      var ids := IdentitiesInScope(View(), scope);
      ScopeIsObserved(View(), scope);
      var entries := ObservedFrom(SortedStrings(ids));
      var links := WantedFrom(if proposed.None? then desired else proposed.value, ids);
      var whole := BuildPlan(links, entries, capabilities, selected);
      plan := whole.(items := Narrowed(whole.items, scope, selected));
      ScopedPlanIs(View(), scope, selected, proposed, plan, whole);
    }
  }

  lemma ScopedPlanIs(c: Cache, scope: Option<PlanScope>, selected: set<string>, desired: Option<seq<Link>>,
          plan: Plan, whole: Plan)
    requires Narrows(c, scope, selected, desired, plan, whole)
    ensures IsScopedPlan(c, scope, selected, desired, plan)
  {
  }

  lemma WithoutNobody(c: Cache)
    ensures Without(c, {}) == c
  {
  }

  lemma WithoutOneMore(c: Cache, gone: set<string>, id: string)
    ensures Without(c, gone + {id}) == Without(Without(c, gone), {id})
  {
    assert c.handles - (gone + {id}) == (c.handles - gone) - {id};
    assert c.capabilities - (gone + {id}) == (c.capabilities - gone) - {id};
    assert c.observed - (gone + {id}) == (c.observed - gone) - {id};
    assert c.unavailable - (gone + {id}) == (c.unavailable - gone) - {id};
  }

  lemma NoneStamped(observed: map<string, ObservedDevice>, owners: map<string, string>)
    ensures PartlyStamped(observed, owners, observed.Keys) == observed
    ensures PartlyStamped(observed, owners, {}) == Stamped(observed, owners)
  {
  }

  lemma StampOneMore(observed: map<string, ObservedDevice>, owners: map<string, string>, todo: set<string>, id: string)
    requires id in todo && id in observed
    ensures
      var now := PartlyStamped(observed, owners, todo);
      PartlyStamped(observed, owners, todo - {id}) == now[id := now[id].(links := OwnedLinks(now[id].links, owners))]
  {
  }

  function Switched(rules: seq<Rule>, ruleId: string, enabled: bool): seq<Rule> {
    seq(|rules|, i requires 0 <= i < |rules| => if rules[i].id == ruleId then rules[i].WithEnabled(enabled)
      else rules[i])
  }

  lemma ScopeIsObserved(c: Cache, scope: Option<PlanScope>)
    ensures forall id | id in IdentitiesInScope(c, scope) :: id in c.observed
  {
  }
}
