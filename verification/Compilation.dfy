/**
 One run of the compiler (custom_components/device_links/compiler.py, `_Compilation`).

 The program decides step by step and keeps what it has decided in lists it appends to. Each
 method below is one of its steps, proved to add exactly what its specification says to what
 was there before; a run is proved to give the compiled rule.
 */
module Compilations {
  import opened Wrappers
  import opened Text
  import opened Orders
  import opened Models
  import opened Fingerprints
  import opened Compiler
  import opened CompilerProperties

  // Sums.

  lemma PlusNothing(a: CompiledRule)
    ensures Plus(a, NOTHING) == a && Plus(NOTHING, a) == a
  {
  }

  lemma PlusAssociates(a: CompiledRule, b: CompiledRule, c: CompiledRule)
    ensures Plus(Plus(a, b), c) == Plus(a, Plus(b, c))
  {
    assert (a.links + b.links) + c.links == a.links + (b.links + c.links);
    assert (a.settings + b.settings) + c.settings == a.settings + (b.settings + c.settings);
    assert (a.hybridLegs + b.hybridLegs) + c.hybridLegs == a.hybridLegs + (b.hybridLegs + c.hybridLegs);
    assert (a.warnings + b.warnings) + c.warnings == a.warnings + (b.warnings + c.warnings);
    assert (a.errors + b.errors) + c.errors == a.errors + (b.errors + c.errors);
  }

  lemma PlusMessages(a: CompiledRule, ds: seq<Diagnostic>)
    ensures Plus(a, NOTHING.(warnings := ds)) == a.(warnings := a.warnings + ds)
    ensures Plus(a, NOTHING.(errors := ds)) == a.(errors := a.errors + ds)
  {
  }

  lemma PlusWork(a: CompiledRule, l: seq<Link>, s: seq<SettingWrite>, h: seq<HybridLeg>)
    ensures Plus(a, NOTHING.(links := l)) == a.(links := a.links + l)
    ensures Plus(a, NOTHING.(settings := s)) == a.(settings := a.settings + s)
    ensures Plus(a, NOTHING.(hybridLegs := h)) == a.(hybridLegs := a.hybridLegs + h)
  {
  }

  // The features a control carries, in order.

  function Picked(emitter: Emitter, fs: seq<Feature>): seq<Feature> {
    if fs == [] then [] else (if fs[0] in emitter.actions then [fs[0]] else []) + Picked(emitter, fs[1..])
  }

  lemma {:induction false} PickedAre(emitter: Emitter, s: set<Feature>, order: seq<Feature>)
    ensures Picked(emitter, Those(s, order)) == Those((set f | f in s && f in emitter.actions), order)
  {
    if order != [] {
      PickedAre(emitter, s, order[1..]);
      var rest := Those(s, order[1..]);
      if order[0] in s {
        assert Those(s, order)[0] == order[0] && Those(s, order)[1..] == rest;
      } else {
        assert Those(s, order) == rest;
      }
    }
  }

  // Only the hybrid steps add legs.

  lemma {:induction false} LegHasNoHybrid(rule: Rule, leg: Leg, features: seq<Feature>)
    requires forall f | f in features :: f in leg.emitter.actions
    ensures LegOut(rule, leg, features).hybridLegs == []
  {
    if features != [] {
      assert features[|features| - 1] in features;
      LegHasNoHybrid(rule, leg, features[..|features| - 1]);
    }
  }

  lemma {:induction false} TargetsHaveNoHybrid(rule: Rule, net: Network, source: DeviceCapabilities,
          emitter: Emitter, ts: seq<RuleTarget>)
    requires forall t | t in ts :: t.device.Identity() in net
    ensures TargetsOut(rule, net, source, emitter, ts).hybridLegs == []
  {
    hide LegOut;
    if ts != [] {
      var last := ts[|ts| - 1];
      assert last in ts;
      TargetsHaveNoHybrid(rule, net, source, emitter, ts[..|ts| - 1]);
      var receiver := net[last.device.Identity()];
      FeatureListIs(Carried(rule, emitter));
      LegHasNoHybrid(rule, Leg(source, rule.source.endpoint, emitter, receiver, last.endpoint),
        FeatureList(Carried(rule, emitter)));
      var back := FeatureList(Carried(rule, emitter) + Taken(rule).Keys);
      EmitterCarryingCarries(receiver.emitters, back);
      if EmitterCarrying(receiver.emitters, back).Some? {
        var e := EmitterCarrying(receiver.emitters, back).value;
        LegHasNoHybrid(rule, Leg(receiver, e.endpoint, e, source, ReverseEndpoint(rule, source)), back);
      }
    }
  }

  lemma LegsOfPlus(a: CompiledRule, b: CompiledRule)
    ensures Plus(a, b).hybridLegs == a.hybridLegs + b.hybridLegs
  {
  }

  lemma ResolutionHasNoHybrid(rule: Rule, emitter: Emitter)
    ensures Resolution(rule, emitter).hybridLegs == []
  {
  }

  /** Without a control there are only messages. */
  lemma NothingToSort(rule: Rule, net: Network)
    requires SourceOf(rule, net).None? || FindEmitter(SourceOf(rule, net).value.emitters, rule.source.emitterId).None?
    ensures Frozen(Decided(rule, net)) == Decided(rule, net).(
      warnings := OnceEach(Decided(rule, net).warnings), errors := OnceEach(Decided(rule, net).errors))
  {
    hide OnceEach;
  }

  class Compilation {
    const rule: Rule
    const net: Network
    var links: seq<Link>
    var settings: seq<SettingWrite>
    var hybridLegs: seq<HybridLeg>
    var warnings: seq<Diagnostic>
    var errors: seq<Diagnostic>

    constructor (rule: Rule, net: Network)
      ensures this.rule == rule && this.net == net && Out() == NOTHING
    {
      this.rule, this.net := rule, net;
      links, settings, hybridLegs, warnings, errors := [], [], [], [], [];
    }

    /** What has been decided so far. */
    function Out(): CompiledRule
      reads this
    {
      CompiledRule(links, settings, hybridLegs, warnings, errors)
    }

    method Warning(d: Diagnostic)
      modifies this`warnings
      ensures Out() == Plus(old(Out()), Warn(d))
    {
      PlusMessages(Out(), [d]);
      warnings := warnings + [d];
    }

    method Error(d: Diagnostic)
      modifies this`errors
      ensures Out() == Plus(old(Out()), Err(d))
    {
      PlusMessages(Out(), [d]);
      errors := errors + [d];
    }

    method CapabilitiesOf(identity: string) returns (capabilities: Option<DeviceCapabilities>)
      modifies this`errors
      ensures capabilities == if identity in net then Some(net[identity]) else None
      ensures Out() == if identity in net then old(Out())
        else Plus(old(Out()), Err(Diagnostic("unknown_device", map["device" := identity])))
    {
      if identity in net {
        return Some(net[identity]);
      }
      Error(Diagnostic("unknown_device", map["device" := identity]));
      capabilities := None;
    }

    method SourceCapabilities() returns (source: Option<DeviceCapabilities>)
      modifies this`errors
      ensures source == SourceOf(rule, net)
      ensures Out() == if source.Some? then old(Out()) else Plus(old(Out()), SourceProblem(rule, net))
    {
      hide Plus;
      source := CapabilitiesOf(rule.source.device.Identity());
      if source.Some? && source.value.isLongRange {
        Error(Diagnostic("source_is_long_range", map["device" := source.value.handle.nameAtAuthoring]));
        source := None;
      }
    }

    /** The control the rule names, if the device offers it. */
    method EmitterOf(source: DeviceCapabilities) returns (emitter: Option<Emitter>)
      modifies this`errors
      ensures emitter == FindEmitter(source.emitters, rule.source.emitterId)
      ensures Out() == if emitter.Some? then old(Out()) else
        Plus(old(Out()),
          Err(Diagnostic("unknown_emitter",
            map["emitter" := rule.source.emitterId, "device" := source.handle.nameAtAuthoring])))
    {
      hide Plus;
      for i := 0 to |source.emitters|
        invariant Out() == old(Out())
        invariant FindEmitter(source.emitters[i..], rule.source.emitterId) ==
          FindEmitter(source.emitters, rule.source.emitterId)
      {
        if source.emitters[i].emitterId == rule.source.emitterId {
          return Some(source.emitters[i]);
        }
        assert source.emitters[i..][1..] == source.emitters[i + 1..];
      }
      Error(Diagnostic("unknown_emitter",
        map["emitter" := rule.source.emitterId, "device" := source.handle.nameAtAuthoring]));
      emitter := None;
    }

    /** The features hybrid legs take over. The later of two kinds for one feature would win. */
    method HybridFeaturesOf() returns (taken: map<Feature, HybridKind>)
      ensures taken == Taken(rule)
    {
      taken := map[];
      var kinds := [OnOnly, OffOnly];
      for i := 0 to |kinds|
        invariant taken.Keys <= {OnOff}
        invariant OnOff in taken <==> OnOff in rule.features && exists k | 0 <= k < i :: kinds[k] in rule.hybrid
        invariant OnOff in taken ==> taken[OnOff] == if i == 2 && OffOnly in rule.hybrid then OffOnly else OnOnly
      {
        if kinds[i] in rule.hybrid && OnOff in rule.features {
          taken := taken[OnOff := kinds[i]];
        }
      }
      assert kinds[0] == OnOnly && kinds[1] == OffOnly;
      if ButtonLed in rule.hybrid && StatusReport in rule.features {
        taken := taken[StatusReport := ButtonLed];
      }
    }

    /** Splits the wanted features into those the control carries and messages about the others. */
    method SplitFeatures(emitter: Emitter, wanted: set<Feature>) returns (resolved: seq<Feature>,
            unavailable: seq<Diagnostic>)
      ensures resolved == FeatureList(set f | f in wanted && f in emitter.actions)
      ensures unavailable == UnavailableMessages(emitter, FeatureList(wanted))
    {
      hide Those;
      var fs := FeatureList(wanted);
      resolved, unavailable := [], [];
      for i := 0 to |fs|
        invariant unavailable + UnavailableMessages(emitter, fs[i..]) == UnavailableMessages(emitter, fs)
        invariant resolved + Picked(emitter, fs[i..]) == Picked(emitter, fs)
      {
        assert fs[i..][1..] == fs[i + 1..];
        if fs[i] in emitter.actions {
          resolved := resolved + [fs[i]];
        } else {
          unavailable := unavailable +
            [Diagnostic(FeatureUnavailable(fs[i]), map["feature" := FeatureName(fs[i]), "emitter" := emitter.caption])];
        }
      }
      PickedAre(emitter, wanted, FEATURES_BY_NAME);
    }

    /** The features the native legs will carry, reporting the ones they cannot. */
    method ResolvedActions(emitter: Emitter, wanted: set<Feature>, taken: map<Feature, HybridKind>)
      returns (resolved: seq<Feature>)
      requires taken == Taken(rule) && wanted == Owed(rule)
      modifies this`warnings, this`errors
      ensures resolved == FeatureList(Carried(rule, emitter))
      ensures Out() == Plus(old(Out()), Resolution(rule, emitter))
    {
      hide Plus;
      hide Taken;
      hide Those;
      hide UnavailableMessages;
      ghost var before := Out();
      var unavailable;
      resolved, unavailable := SplitFeatures(emitter, wanted);
      assert (set f | f in wanted && f in emitter.actions) == Carried(rule, emitter);
      FeatureListIs(Carried(rule, emitter));
      assert resolved != [] <==> Carried(rule, emitter) != {} by {
        if resolved != [] {
          assert resolved[0] in Carried(rule, emitter);
        }
        if f :| f in Carried(rule, emitter) {
          assert f in resolved;
        }
      }
      PlusMessages(before, unavailable);
      ghost var said := if resolved != [] then NOTHING.(warnings := unavailable) else NOTHING.(errors := unavailable);
      if resolved != [] {
        warnings := warnings + unavailable;
      } else {
        errors := errors + unavailable;
      }
      assert Out() == Plus(before, said);
      PlusNothing(said);
      var doubt := Diagnostic("level_hold_without_on_off", map["emitter" := emitter.caption]);
      if LevelHold in resolved && OnOff !in resolved && OnOff !in taken {
        Warning(doubt);
        PlusAssociates(before, said, Warn(doubt));
      }
    }

    /** The targets that can be linked at all. */
    method Targets() returns (usable: seq<RuleTarget>)
      modifies this`errors
      ensures usable == UsableTargets(rule, net, rule.targets)
      ensures Out() == Plus(old(Out()), TargetProblems(rule, net, rule.targets))
    {
      hide Plus;
      usable := [];
      PlusNothing(Out());
      for i := 0 to |rule.targets|
        invariant usable == UsableTargets(rule, net, rule.targets[..i])
        invariant Out() == Plus(old(Out()), TargetProblems(rule, net, rule.targets[..i]))
      {
        var t := rule.targets[i];
        assert rule.targets[..i + 1][..i] == rule.targets[..i];
        PlusAssociates(old(Out()), TargetProblems(rule, net, rule.targets[..i]), TargetProblem(rule, net, t));
        PlusNothing(Out());
        if IsSelf(rule, t) {
          if SelfLoad !in rule.hybrid {
            Error(Diagnostic("self_association_use_hybrid_leg", map["device" := t.device.nameAtAuthoring]));
          }
        } else {
          var capabilities := CapabilitiesOf(t.device.Identity());
          if capabilities.Some? {
            if capabilities.value.isLongRange {
              Error(Diagnostic("target_is_long_range", map["device" := capabilities.value.handle.nameAtAuthoring]));
            } else {
              usable := usable + [t];
            }
          }
        }
      }
      assert rule.targets[..|rule.targets|] == rule.targets;
    }

    method EndpointOf(leg: Leg) returns (endpoint: Option<int>)
      modifies this`warnings
      ensures endpoint == EndpointFor(leg)
      ensures Out() == Plus(old(Out()), EndpointWarning(leg))
    {
      hide Plus;
      PlusNothing(Out());
      if leg.receiverEndpoint.None? || leg.emitter.supportsEndpointTargets {
        return leg.receiverEndpoint;
      }
      Warning(Diagnostic("multi_channel_downgrade",
        map["emitter" := leg.emitter.caption, "device" := leg.receiver.handle.nameAtAuthoring]));
      endpoint := None;
    }

    method AddLink(leg: Leg, f: Feature)
      requires f in leg.emitter.actions
      modifies this
      ensures Out() == Plus(old(Out()), LegFeature(rule, leg, f))
    {
      hide Plus;
      if f !in leg.receiver.receivable {
        Error(Diagnostic("target_cannot_receive",
          map["device" := leg.receiver.handle.nameAtAuthoring, "feature" := FeatureName(f)]));
      } else {
        var endpoint := EndpointOf(leg);
        ghost var link := LinkOf(rule, leg, f);
        PlusAssociates(old(Out()), EndpointWarning(leg), NOTHING.(links := [link]));
        PlusWork(Out(), [link], [], []);
        links := links + [Link(rule.backend, leg.writer.handle, leg.writerEndpoint, leg.emitter.emitterId,
          LinkTarget(leg.receiver.handle, endpoint), f, GroupOf(leg.emitter.emitterId, leg.emitter.actions[f]),
          Some(rule.id))];
      }
    }

    /** One leg's link for each feature. */
    method AddLinks(leg: Leg, features: seq<Feature>)
      requires forall f | f in features :: f in leg.emitter.actions
      modifies this
      ensures Out() == Plus(old(Out()), LegOut(rule, leg, features))
    {
      hide Plus;
      hide LegFeature;
      PlusNothing(Out());
      for i := 0 to |features|
        invariant Out() == Plus(old(Out()), LegOut(rule, leg, features[..i]))
      {
        assert features[..i + 1][..i] == features[..i];
        PlusAssociates(old(Out()), LegOut(rule, leg, features[..i]), LegFeature(rule, leg, features[i]));
        AddLink(leg, features[i]);
      }
      assert features[..|features|] == features;
    }

    method EmitterCarryingAll(emitters: seq<Emitter>, features: seq<Feature>) returns (emitter: Option<Emitter>)
      ensures emitter == EmitterCarrying(emitters, features)
    {
      for i := 0 to |emitters|
        invariant EmitterCarrying(emitters[i..], features) == EmitterCarrying(emitters, features)
      {
        if forall f | f in features :: f in emitters[i].actions {
          return Some(emitters[i]);
        }
        assert emitters[i..][1..] == emitters[i + 1..];
      }
      emitter := None;
    }

    /** The other direction of a two-way rule, off the first control of the target that carries it all. */
    method CompileReverse(source: DeviceCapabilities, target: DeviceCapabilities, features: seq<Feature>)
      modifies this
      ensures Out() == Plus(old(Out()), ReverseOut(rule, source, target, features))
    {
      hide Plus;
      hide LegOut;
      hide EmitterCarrying;
      if rule.direction != TwoWay || features == [] {
        PlusNothing(Out());
        return;
      }
      var emitter := EmitterCarryingAll(target.emitters, features);
      EmitterCarryingCarries(target.emitters, features);
      match emitter
      case None => Warning(Diagnostic("two_way_target_has_no_control", map["device" := target.handle.nameAtAuthoring]));
      case Some(e) => AddLinks(Leg(target, e.endpoint, e, source, ReverseEndpoint(rule, source)), features);
    }

    method LinkTargets(source: DeviceCapabilities, emitter: Emitter, actions: seq<Feature>, reverse: seq<Feature>,
            targets: seq<RuleTarget>)
      requires actions == FeatureList(Carried(rule, emitter)) &&
        reverse == FeatureList(Carried(rule, emitter) + Taken(rule).Keys)
      requires forall t | t in targets :: t.device.Identity() in net
      modifies this
      ensures Out() == Plus(old(Out()), TargetsOut(rule, net, source, emitter, targets))
    {
      hide Plus;
      hide LegOut;
      hide ReverseOut;
      hide Taken;
      hide Those;
      PlusNothing(Out());
      for i := 0 to |targets|
        invariant Out() == Plus(old(Out()), TargetsOut(rule, net, source, emitter, targets[..i]))
      {
        ghost var so := Out();
        var t := targets[i];
        assert targets[..i + 1][..i] == targets[..i];
        var receiver := net[t.device.Identity()];
        var leg := Leg(source, rule.source.endpoint, emitter, receiver, t.endpoint);
        FeatureListIs(Carried(rule, emitter));
        AddLinks(leg, actions);
        CompileReverse(source, receiver, reverse);
        PlusAssociates(so, LegOut(rule, leg, actions), ReverseOut(rule, source, receiver, reverse));
        PlusAssociates(old(Out()), TargetsOut(rule, net, source, emitter, targets[..i]),
          TargetOut(rule, net, source, emitter, t));
      }
      assert targets[..|targets|] == targets;
    }

    // Hybrid legs.

    method AddHybrid(kind: HybridKind, emitter: Emitter, f: Feature, target: LinkTarget)
      modifies this`errors, this`hybridLegs
      ensures Out() == Plus(old(Out()), HybridOne(rule, kind, emitter, f, target))
    {
      hide Plus;
      if kind == ButtonLed {
        if emitter.indicatorId.None? {
          Error(Diagnostic("hybrid_no_button_indication",
            map["emitter" := emitter.caption, "device" := rule.source.device.nameAtAuthoring]));
          return;
        }
      } else if emitter.sceneId.None? {
        Error(Diagnostic("hybrid_no_scene",
          map["emitter" := emitter.caption, "device" := rule.source.device.nameAtAuthoring]));
        return;
      }
      var leg := HybridLeg(rule.id, kind, rule.source.device, emitter.emitterId, f, target, emitter.sceneId,
        emitter.indicatorId);
      PlusWork(Out(), [], [], [leg]);
      hybridLegs := hybridLegs + [leg];
    }

    method AddHybrids(kind: HybridKind, emitter: Emitter, f: Feature, targets: seq<RuleTarget>)
      modifies this
      ensures Out() == Plus(old(Out()), HybridTargets(rule, kind, emitter, f, targets))
    {
      hide Plus;
      hide HybridOne;
      PlusNothing(Out());
      for i := 0 to |targets|
        invariant Out() == Plus(old(Out()), HybridTargets(rule, kind, emitter, f, targets[..i]))
      {
        assert targets[..i + 1][..i] == targets[..i];
        var target := LinkTarget(targets[i].device, targets[i].endpoint);
        PlusAssociates(old(Out()), HybridTargets(rule, kind, emitter, f, targets[..i]),
          HybridOne(rule, kind, emitter, f, target));
        AddHybrid(kind, emitter, f, target);
      }
      assert targets[..|targets|] == targets;
    }

    method CompileTaken(emitter: Emitter, taken: map<Feature, HybridKind>, fs: seq<Feature>, targets: seq<RuleTarget>)
      requires taken == Taken(rule) && forall f | f in fs :: f in taken
      modifies this
      ensures Out() == Plus(old(Out()), HybridFeatures(rule, emitter, fs, targets))
    {
      hide Plus;
      hide HybridTargets;
      hide Taken;
      PlusNothing(Out());
      for i := 0 to |fs|
        invariant Out() == Plus(old(Out()), HybridFeatures(rule, emitter, fs[..i], targets))
      {
        assert fs[..i + 1][..i] == fs[..i];
        var kind := taken[fs[i]];
        PlusAssociates(old(Out()), HybridFeatures(rule, emitter, fs[..i], targets),
          HybridTaken(rule, emitter, fs[i], kind, targets));
        if kind == ButtonLed && |targets| > 1 {
          Error(Diagnostic("hybrid_button_led_one_target",
            map["emitter" := emitter.caption, "count" := Decimal(|targets|)]));
        } else {
          AddHybrids(kind, emitter, fs[i], targets);
        }
      }
      assert fs[..|fs|] == fs;
    }

    /** The leg that lets a scene button act on its own device's load. */
    method CompileSelfLoad(source: DeviceCapabilities, emitter: Emitter)
      modifies this
      ensures Out() == Plus(old(Out()), SelfLoadOut(rule, source, emitter))
    {
      hide Plus;
      hide HybridOne;
      var wanted: seq<RuleTarget> := [];
      for i := 0 to |rule.targets|
        invariant wanted == SelfTargets(rule, rule.targets[..i])
        invariant Out() == old(Out())
      {
        assert rule.targets[..i + 1][..i] == rule.targets[..i];
        if IsSelf(rule, rule.targets[i]) {
          wanted := wanted + [rule.targets[i]];
        }
      }
      assert rule.targets[..|rule.targets|] == rule.targets;
      if wanted == [] {
        Warning(Diagnostic("hybrid_self_load_not_targeted", map["device" := source.handle.nameAtAuthoring]));
        return;
      }
      PlusNothing(Out());
      for i := 0 to |wanted|
        invariant Out() == Plus(old(Out()), SelfLoadLegs(rule, source, emitter, wanted[..i]))
      {
        assert wanted[..i + 1][..i] == wanted[..i];
        var target := LinkTarget(source.handle,
          if wanted[i].endpoint.None? then source.receivingEndpoint else wanted[i].endpoint);
        PlusAssociates(old(Out()), SelfLoadLegs(rule, source, emitter, wanted[..i]),
          HybridOne(rule, SelfLoad, emitter, OnOff, target));
        AddHybrid(SelfLoad, emitter, OnOff, target);
      }
      assert wanted[..|wanted|] == wanted;
    }

    method CheckUnusedOptIns(kinds: seq<HybridKind>)
      modifies this`warnings
      ensures Out() == Plus(old(Out()), UnusedOptIns(rule, kinds))
    {
      hide Plus;
      PlusNothing(Out());
      for i := 0 to |kinds|
        invariant Out() == Plus(old(Out()), UnusedOptIns(rule, kinds[..i]))
      {
        assert kinds[..i + 1][..i] == kinds[..i];
        var unused := Diagnostic("hybrid_opt_in_unused", map["kind" := KindName(kinds[i]), "rule" := rule.name]);
        PlusAssociates(old(Out()), UnusedOptIns(rule, kinds[..i]), Warn(unused));
        Warning(unused);
      }
      assert kinds[..|kinds|] == kinds;
    }

    method CompileHybrid(source: DeviceCapabilities, emitter: Emitter, taken: map<Feature, HybridKind>,
            targets: seq<RuleTarget>)
      requires taken == Taken(rule) && hybridLegs == []
      modifies this
      ensures Out() == Plus(old(Out()), HybridOut(rule, source, emitter, targets))
    {
      hide Plus;
      hide Taken;
      hide Those;
      hide HybridFeatures;
      hide SelfLoadOut;
      hide UnusedOptIns;
      ghost var before := Out();
      PlusNothing(before);
      if rule.hybrid == {} {
        return;
      }
      FeatureListIs(taken.Keys);
      CompileTaken(emitter, taken, FeatureList(taken.Keys), targets);
      ghost var first := HybridFeatures(rule, emitter, FeatureList(taken.Keys), targets);
      ghost var second := if SelfLoad in rule.hybrid then SelfLoadOut(rule, source, emitter) else NOTHING;
      PlusNothing(Out());
      if SelfLoad in rule.hybrid {
        CompileSelfLoad(source, emitter);
      }
      PlusAssociates(before, first, second);
      ghost var legs := HybridLegsOut(rule, source, emitter, targets);
      var kinds := KindList(rule.hybrid - taken.Values - {SelfLoad});
      CheckUnusedOptIns(kinds);
      ghost var unused := UnusedOptIns(rule, kinds);
      PlusAssociates(before, legs, unused);
      assert hybridLegs == legs.hybridLegs by {
        UnusedNoLinks(rule, kinds);
        LegsOfPlus(before, Plus(legs, unused));
        LegsOfPlus(legs, unused);
      }
      PlusNothing(Plus(legs, unused));
      if hybridLegs != [] && rule.direction == TwoWay && OnOff in taken {
        Warning(Diagnostic("hybrid_reverse_carries_both", map["emitter" := emitter.caption]));
        PlusAssociates(before, Plus(legs, unused),
          Warn(Diagnostic("hybrid_reverse_carries_both", map["emitter" := emitter.caption])));
      }
    }

    /** Says when a press is trusted that nobody has observed. */
    method CheckSemantics(source: DeviceCapabilities, emitter: Emitter)
      modifies this`warnings
      ensures Out() == Plus(old(Out()), SemanticsOut(rule, source, emitter, old(hybridLegs)))
    {
      hide Plus;
      ghost var before := Out();
      PlusNothing(before);
      if !emitter.semanticsUnknown {
        return;
      }
      var about := map["emitter" := emitter.caption, "device" := source.handle.nameAtAuthoring];
      ghost var first := if rule.template == OffAll then Warn(Diagnostic("button_semantics_unknown", about))
        else NOTHING;
      if rule.template == OffAll {
        Warning(Diagnostic("button_semantics_unknown", about));
      }
      PlusNothing(first);
      if exists l | l in hybridLegs :: l.kind != ButtonLed {
        Warning(Diagnostic("hybrid_scene_unverified", about));
        PlusAssociates(before, first, Warn(Diagnostic("hybrid_scene_unverified", about)));
      }
    }

    /** The mirror choice as a parameter write, or why it cannot be made. */
    method CompileMirror(source: DeviceCapabilities)
      modifies this`warnings, this`settings
      ensures Out() == Plus(old(Out()), MirrorOut(rule, source))
    {
      hide Plus;
      if rule.mirrorSource == MirrorLeave {
        PlusNothing(Out());
        return;
      }
      if MIRROR_CAPABILITY !in source.settings ||
        MirrorName(rule.mirrorSource) !in source.settings[MIRROR_CAPABILITY].values {
        Warning(Diagnostic("settings_not_available",
          map["device" := source.handle.nameAtAuthoring, "setting" := MIRROR_CAPABILITY,
            "choice" := MirrorName(rule.mirrorSource)]));
        return;
      }
      var adapter := source.settings[MIRROR_CAPABILITY];
      var write := SettingWrite(source.handle, MIRROR_CAPABILITY, adapter.parameter, adapter.bitmask,
        adapter.values[MirrorName(rule.mirrorSource)]);
      PlusWork(Out(), [], [write], []);
      settings := settings + [write];
    }

    /** Freezes what has been decided, each distinct message once. */
    function Result(): CompiledRule
      reads this
    {
      CompiledRule(links, settings, hybridLegs, OnceEach(warnings), OnceEach(errors))
    }

    /** What is decided once the control is known. */
    method Decide(source: DeviceCapabilities, emitter: Emitter)
      requires SourceOf(rule, net) == Some(source) &&
        FindEmitter(source.emitters, rule.source.emitterId) == Some(emitter)
      requires Out() == NOTHING
      modifies this
      ensures Out() == Decided(rule, net)
    {
      hide Plus;
      hide Resolution;
      hide TargetProblems;
      hide TargetsOut;
      hide HybridOut;
      hide SemanticsOut;
      hide MirrorOut;
      hide Those;
      hide UsableTargets;
      var taken := HybridFeaturesOf();
      var actions := ResolvedActions(emitter, rule.features - taken.Keys, taken);
      FeatureListIs(Carried(rule, emitter));
      var reverse := FeatureList((set f | f in actions) + taken.Keys);
      assert (set f | f in actions) == Carried(rule, emitter);
      var targets := Targets();
      UsableAreKnown(rule, net, targets);
      LinkTargets(source, emitter, actions, reverse, targets);
      PlusNothing(Resolution(rule, emitter));
      assert hybridLegs == [] by {
        LegsOfPlus(Plus(Resolution(rule, emitter), TargetProblems(rule, net, rule.targets)),
          TargetsOut(rule, net, source, emitter, targets));
        LegsOfPlus(Resolution(rule, emitter), TargetProblems(rule, net, rule.targets));
        ResolutionHasNoHybrid(rule, emitter);
        ProblemsHaveNoLinks(rule, net, rule.targets);
        TargetsHaveNoHybrid(rule, net, source, emitter, targets);
      }
      LegsOfPlus(Out(), HybridOut(rule, source, emitter, targets));
      CompileHybrid(source, emitter, taken, targets);
      assert hybridLegs == HybridOut(rule, source, emitter, targets).hybridLegs;
      CheckSemantics(source, emitter);
      CompileMirror(source);
    }

    /** One run: everything decided, then put in order. */
    method Run() returns (result: CompiledRule)
      requires Out() == NOTHING
      modifies this
      ensures result == Frozen(Decided(rule, net))
    {
      hide Plus;
      hide OnceEach;
      var source := SourceCapabilities();
      var emitter: Option<Emitter> := None;
      if source.Some? {
        emitter := EmitterOf(source.value);
      }
      if source.None? || emitter.None? {
        assert Out() == Decided(rule, net) by {
          PlusNothing(Decided(rule, net));
        }
        NothingToSort(rule, net);
        return Result();
      }
      Decide(source.value, emitter.value);
      StringLessIsTotal();
      WordsLessIsTotal();
      links := SortBy(WordsLess, LinkKey, links);
      hybridLegs := SortBy(StringLess, LegIdentity, hybridLegs);
      result := Result();
    }
  }

  /** One rule against the devices as they are: the program's entry point. */
  method CompileRule(rule: Rule, net: Network) returns (result: CompiledRule)
    ensures result == Compile(rule, net)
  {
    if !rule.enabled {
      return NOTHING;
    }
    var compilation := new Compilation(rule, net);
    result := compilation.Run();
  }
}
