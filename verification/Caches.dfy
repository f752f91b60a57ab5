/**
 What the coordinator knows (custom_components/device_links/coordinator.py), as a value.

 Every step between two awaits is a function on this value. Runs are sequences of steps, in
 any order: reads and listings answer or fail whenever they do, and the profile may change in
 between.
 */
module Caches {
  import opened Wrappers
  import opened Orders
  import opened Models
  import opened Fingerprints
  import opened Compiler
  import opened Planner

  /** What a read of a device answers. */
  datatype ObservedDevice = ObservedDevice(links: seq<ObservedLink>, settings: map<string, int>, deepVerified: bool)

  datatype Cache = Cache(
    profile: Option<Profile>,
    handles: map<string, DeviceHandle>,
    capabilities: Network,
    observed: map<string, ObservedDevice>,
    unavailable: set<string>,
    compiled: map<string, CompiledRule>,
    owners: map<string, string>,
    desired: seq<Link>)
  {
    predicate Available(identity: string) {
      identity in observed && identity !in unavailable
    }

    function Rules(): seq<Rule> {
      if profile.None? then [] else profile.value.rules
    }
  }

  const EMPTY := Cache(None, map[], map[], map[], {}, map[], map[], [])

  // Ownership.

  /** `setdefault` for each of a rule's links: the first claim stays. */
  function Claim(owners: map<string, string>, links: seq<Link>, id: string): map<string, string> {
    if links == [] then owners
    else
      var front, f := Claim(owners, links[..|links| - 1], id), Fingerprint(links[|links| - 1]);
      if f in front then front else front[f := id]
  }

  /** A rule as it is compiled for ownership: with the switch forced on. */
  function Claims(rule: Rule, net: Network): seq<Link> {
    Compile(rule.WithEnabled(true), net).links
  }

  function CompiledOf(rules: seq<Rule>, net: Network): map<string, CompiledRule> {
    if rules == [] then map[]
    else
      var last := rules[|rules| - 1];
      CompiledOf(rules[..|rules| - 1], net)[last.id := Compile(last.WithEnabled(true), net)]
  }

  function OwnersOf(rules: seq<Rule>, net: Network): map<string, string> {
    if rules == [] then map[]
    else
      var last := rules[|rules| - 1];
      Claim(OwnersOf(rules[..|rules| - 1], net), Claims(last, net), last.id)
  }

  function DesiredOf(rules: seq<Rule>, net: Network): seq<Link> {
    if rules == [] then []
    else
      var last := rules[|rules| - 1];
      DesiredOf(rules[..|rules| - 1], net) + if last.enabled then Claims(last, net) else []
  }

  function OwnerOf(owners: map<string, string>, f: string): Option<string> {
    if f in owners then Some(owners[f]) else None
  }

  /** An entry with its owner resolved. A system link never has one. */
  function Owned(e: ObservedLink, owners: map<string, string>): ObservedLink {
    if e.isSystem then e.(link := e.link.(ruleId := None), managedBy := None)
    else
      var owner := OwnerOf(owners, Fingerprint(e.link));
      e.(link := e.link.(ruleId := owner), managedBy := owner)
  }

  /** The cache with ownership resolved on every device but these. */
  function PartlyStamped(observed: map<string, ObservedDevice>, owners: map<string, string>,
          todo: set<string>): map<string, ObservedDevice> {
    map id | id in observed :: if id in todo then observed[id]
      else observed[id].(links := OwnedLinks(observed[id].links, owners))
  }

  function OwnedLinks(es: seq<ObservedLink>, owners: map<string, string>): seq<ObservedLink> {
    seq(|es|, i requires 0 <= i < |es| => Owned(es[i], owners))
  }

  function Stamped(observed: map<string, ObservedDevice>, owners: map<string, string>): map<string, ObservedDevice> {
    map id | id in observed :: observed[id].(links := OwnedLinks(observed[id].links, owners))
  }

  // Steps.

  /** Compiles the active profile against the capabilities known now, and stamps the cache. */
  function Resolve(c: Cache): Cache {
    var owners := OwnersOf(c.Rules(), c.capabilities);
    c.(compiled := CompiledOf(c.Rules(), c.capabilities), owners := owners,
       desired := DesiredOf(c.Rules(), c.capabilities), observed := Stamped(c.observed, owners))
  }

  /** A read: what the device answered, or nothing. */
  function ReadOf(c: Cache, handle: DeviceHandle, answer: Option<(DeviceCapabilities, ObservedDevice)>): Cache {
    var id := handle.Identity();
    match answer
    case None => c.(unavailable := c.unavailable + {id})
    case Some(a) => c.(handles := c.handles[id := handle], capabilities := c.capabilities[id := a.0],
                       observed := c.observed[id := a.1], unavailable := c.unavailable - {id})
  }

  function Known(c: Cache, backend: Backend): set<string> {
    set id | id in c.handles && c.handles[id].backend == backend
  }

  /** Everything but what is cached about these devices. */
  function Without(c: Cache, gone: set<string>): Cache {
    c.(handles := c.handles - gone, capabilities := c.capabilities - gone, observed := c.observed - gone,
       unavailable := c.unavailable - gone)
  }

  /** Drops what a backend no longer lists. An empty listing drops nothing. */
  function Forget(c: Cache, backend: Backend, listed: set<string>): Cache {
    if listed == {} then c else Without(c, Known(c, backend) - listed)
  }

  datatype Step =
    | Read(handle: DeviceHandle, answer: Option<(DeviceCapabilities, ObservedDevice)>)
    | Listed(listedHandle: DeviceHandle)
    | Unlisted(backend: Backend, listed: set<string>)
    | BackendLost(lost: Backend)
    | Resolving
    | Activating(profile: Option<Profile>)

  function Next(c: Cache, s: Step): Cache {
    match s
    case Read(handle, answer) => ReadOf(c, handle, answer)
    case Listed(handle) => c.(handles := c.handles[handle.Identity() := handle])
    case Unlisted(backend, listed) => Forget(c, backend, listed)
    case BackendLost(backend) => c.(unavailable := c.unavailable + Known(c, backend))
    case Resolving => Resolve(c)
    case Activating(profile) => Resolve(c.(profile := profile))
  }

  /** What a backend owes: links read off a device start at that device and carry no owner. */
  ghost predicate Reported(id: string, device: ObservedDevice) {
    forall e | e in device.links :: e.link.source.Identity() == id && e.managedBy.None?
  }

  ghost predicate Honest(s: Step) {
    match s
    case Read(handle, Some(a)) => Reported(handle.Identity(), a.1)
    case Activating(profile) => profile.Some? ==> profile.value.Valid()
    case _ => true
  }

  function Run(c: Cache, steps: seq<Step>): Cache {
    if steps == [] then c else Next(Run(c, steps[..|steps| - 1]), steps[|steps| - 1])
  }

  // Planning.

  /** Which part of the network a plan is about. An empty set means all of it. */
  datatype PlanScope = PlanScope(ruleIds: set<string>, devices: set<string>)

  function LinksOf(c: Cache, ruleId: string): seq<Link> {
    if ruleId in c.compiled then c.compiled[ruleId].links else []
  }

  /** The devices a plan may touch, never one that did not answer. */
  function IdentitiesInScope(c: Cache, scope: Option<PlanScope>): set<string> {
    set id | id in c.observed && c.Available(id) && (scope.None? ||
      (&& (scope.value.devices == {} || id in scope.value.devices)
       && (scope.value.ruleIds == {} ||
         exists r | r in scope.value.ruleIds :: exists l | l in LinksOf(c, r) :: l.source.Identity() == id)))
  }

  function ObservedIn(c: Cache, ids: seq<string>): seq<ObservedLink>
    requires forall id | id in ids :: id in c.observed
  {
    if ids == [] then []
    else
      var last := ids[|ids| - 1];
      assert last in ids;
      ObservedIn(c, ids[..|ids| - 1]) + c.observed[last].links
  }

  function WantedIn(wanted: seq<Link>, ids: set<string>): seq<Link> {
    Filter((l: Link) => l.source.Identity() in ids, wanted)
  }

  function Wishes(c: Cache, desired: Option<seq<Link>>): seq<Link> {
    desired.GetOr(c.desired)
  }

  /** What a plan over this scope is built from. */
  function PlanInputs(c: Cache, scope: Option<PlanScope>, selected: set<string>, desired: Option<seq<Link>>): Inputs {
    var ids := IdentitiesInScope(c, scope);
    InputsOf(WantedIn(Wishes(c, desired), ids), ObservedIn(c, SortedStrings(ids)), selected, c.capabilities)
  }

  function RuleIdOf(about: ItemLink): Option<string>
    requires !about.NoLink?
  {
    about.TheLink().ruleId
  }

  predicate IsScopedWork(item: PlanItem, ruleIds: set<string>, selected: set<string>) {
    item.about.NoLink? ||
    (if RuleIdOf(item.about).None? then Fingerprint(item.about.TheLink()) in selected
      else RuleIdOf(item.about).value in ruleIds)
  }

  /** The items that are the scoped rules' work. */
  function Narrowed(items: seq<PlanItem>, scope: Option<PlanScope>, selected: set<string>): seq<PlanItem> {
    if scope.None? || scope.value.ruleIds == {} then items
    else Filter((item: PlanItem) => IsScopedWork(item, scope.value.ruleIds, selected), items)
  }

  /** `plan` is what this cache answers for this scope. */
  ghost predicate IsScopedPlan(c: Cache, scope: Option<PlanScope>, selected: set<string>,
          desired: Option<seq<Link>>, plan: Plan) {
    exists whole: Plan :: Narrows(c, scope, selected, desired, plan, whole)
  }

  ghost predicate Narrows(c: Cache, scope: Option<PlanScope>, selected: set<string>, desired: Option<seq<Link>>,
          plan: Plan, whole: Plan) {
    && IsPlan(PlanInputs(c, scope, selected, desired), whole)
    && plan == whole.(items := Narrowed(whole.items, scope, selected))
  }
}
