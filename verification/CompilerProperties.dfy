/** Compilation is never silent, never unsound, and refuses as narrowly as it can. */
module CompilerProperties {
  import opened Wrappers
  import opened Orders
  import opened Models
  import opened Compiler

  // What each step can add.

  lemma {:induction false} LegLinks(rule: Rule, leg: Leg, features: seq<Feature>, l: Link)
    requires forall f | f in features :: f in leg.emitter.actions
    ensures l in LegOut(rule, leg, features).links <==>
      l.feature in features && l.feature in leg.receiver.receivable && l == LinkOf(rule, leg, l.feature)
  {
    if features != [] {
      var last := features[|features| - 1];
      var front := features[..|features| - 1];
      assert features == front + [last];
      LegLinks(rule, leg, front, l);
      assert LegOut(rule, leg, features).links == LegOut(rule, leg, front).links + LegFeature(rule, leg, last).links;
    }
  }

  /** A leg asked for anything yields a link or an error. */
  lemma LegSpeaks(rule: Rule, leg: Leg, features: seq<Feature>)
    requires forall f | f in features :: f in leg.emitter.actions
    requires features != []
    ensures LegOut(rule, leg, features).links != [] || LegOut(rule, leg, features).errors != []
  {
  }

  lemma {:induction false} TargetsLinks(rule: Rule, net: Network, source: DeviceCapabilities, emitter: Emitter,
          ts: seq<RuleTarget>, l: Link)
    requires forall t | t in ts :: t.device.Identity() in net
    ensures l in TargetsOut(rule, net, source, emitter, ts).links <==>
      exists t | t in ts :: l in TargetOut(rule, net, source, emitter, t).links
  {
    hide TargetOut;
    if ts != [] {
      var last := ts[|ts| - 1];
      var front := ts[..|ts| - 1];
      assert ts == front + [last];
      TargetsLinks(rule, net, source, emitter, front, l);
      assert TargetsOut(rule, net, source, emitter, ts).links ==
        TargetsOut(rule, net, source, emitter, front).links + TargetOut(rule, net, source, emitter, last).links;
    }
  }

  lemma {:induction false} TargetsErrors(rule: Rule, net: Network, source: DeviceCapabilities, emitter: Emitter,
          ts: seq<RuleTarget>, t: RuleTarget)
    requires forall t | t in ts :: t.device.Identity() in net
    requires t in ts && TargetOut(rule, net, source, emitter, t).errors != []
    ensures TargetsOut(rule, net, source, emitter, ts).errors != []
  {
    hide TargetOut;
    var last := ts[|ts| - 1];
    var front := ts[..|ts| - 1];
    assert ts == front + [last];
    if t != last {
      TargetsErrors(rule, net, source, emitter, front, t);
    }
  }

  // Never unsound.

  /** What every compiled link is. */
  ghost predicate Sound(rule: Rule, net: Network, l: Link) {
    var s, r := l.source.Identity(), l.target.handle.Identity();
    && s in net && r in net && s != r
    && net[s].handle == l.source && net[r].handle == l.target.handle
    && !net[s].isLongRange && !net[r].isLongRange
    && l.feature in net[r].receivable
    && (exists e | e in net[s].emitters :: Emits(e, l))
    && l.ruleId == Some(rule.id) && l.backend == rule.backend && l.emitterGroup != ""
    && (exists t | t in rule.targets :: Between(rule, t, s, r))
  }

  /** The control and group a link uses are ones the control uses for its feature. */
  ghost predicate Emits(e: Emitter, l: Link) {
    && e.emitterId == l.emitterId
    && l.feature in e.actions && GroupOf(e.emitterId, e.actions[l.feature]) == l.emitterGroup
    && (l.target.endpoint.Some? ==> e.supportsEndpointTargets)
  }

  ghost predicate Between(rule: Rule, t: RuleTarget, s: string, r: string) {
    var a, b := rule.source.device.Identity(), t.device.Identity();
    (s == a && r == b) || (s == b && r == a && rule.direction == TwoWay)
  }

  lemma FoundEmitter(emitters: seq<Emitter>, id: string)
    requires FindEmitter(emitters, id).Some?
    ensures FindEmitter(emitters, id).value in emitters && FindEmitter(emitters, id).value.emitterId == id
  {
  }

  lemma LegIsSound(rule: Rule, net: Network, leg: Leg, features: seq<Feature>, t: RuleTarget, l: Link)
    requires Coherent(net) && forall f | f in features :: f in leg.emitter.actions
    requires l in LegOut(rule, leg, features).links
    requires leg.writer.handle.Identity() in net && net[leg.writer.handle.Identity()] == leg.writer &&
      !leg.writer.isLongRange
    requires leg.receiver.handle.Identity() in net && net[leg.receiver.handle.Identity()] == leg.receiver &&
      !leg.receiver.isLongRange
    requires leg.emitter in leg.writer.emitters
    requires t in rule.targets && !IsSelf(rule, t) &&
      Between(rule, t, leg.writer.handle.Identity(), leg.receiver.handle.Identity())
    ensures Sound(rule, net, l)
  {
    LegLinks(rule, leg, features, l);
    assert Emits(leg.emitter, l);
  }

  lemma TargetIsSound(rule: Rule, net: Network, source: DeviceCapabilities, emitter: Emitter, t: RuleTarget, l: Link)
    requires Coherent(net) && SourceOf(rule, net) == Some(source) && emitter in source.emitters
    requires t in rule.targets && Usable(rule, net, t)
    requires l in TargetOut(rule, net, source, emitter, t).links
    ensures Sound(rule, net, l)
  {
    hide Sound;
    var receiver := net[t.device.Identity()];
    var fs := FeatureList(Carried(rule, emitter));
    FeatureListIs(Carried(rule, emitter));
    var leg := Leg(source, rule.source.endpoint, emitter, receiver, t.endpoint);
    var back := FeatureList(Carried(rule, emitter) + Taken(rule).Keys);
    if l in LegOut(rule, leg, fs).links {
      LegIsSound(rule, net, leg, fs, t, l);
    } else {
      assert l in ReverseOut(rule, source, receiver, back).links;
      EmitterCarryingCarries(receiver.emitters, back);
      var e := EmitterCarrying(receiver.emitters, back).value;
      LegIsSound(rule, net, Leg(receiver, e.endpoint, e, source, ReverseEndpoint(rule, source)), back, t, l);
    }
  }

  lemma OnlyTargetsLink(rule: Rule, net: Network, source: DeviceCapabilities, emitter: Emitter, ts: seq<RuleTarget>)
    ensures HybridOut(rule, source, emitter, ts).links == []
    ensures Resolution(rule, emitter).links == []
    ensures TargetProblems(rule, net, rule.targets).links == []
    ensures MirrorOut(rule, source).links == []
    ensures forall legs :: SemanticsOut(rule, source, emitter, legs).links == []
  {
    hide HybridOut;
    hide TargetProblems;
    hide SemanticsOut;
    hide Resolution;
    HybridHasNoLinks(rule, source, emitter, ts);
    ProblemsHaveNoLinks(rule, net, rule.targets);
    ResolutionHasNoLinks(rule, emitter);
    forall legs ensures SemanticsOut(rule, source, emitter, legs).links == [] {
      SemanticsHaveNoLinks(rule, source, emitter, legs);
    }
  }

  lemma ResolutionHasNoLinks(rule: Rule, emitter: Emitter)
    ensures Resolution(rule, emitter).links == []
  {
    hide UnavailableMessages;
    hide Taken;
  }

  lemma SemanticsHaveNoLinks(rule: Rule, source: DeviceCapabilities, emitter: Emitter, legs: seq<HybridLeg>)
    ensures SemanticsOut(rule, source, emitter, legs).links == []
  {
  }

  lemma {:induction false} ProblemsHaveNoLinks(rule: Rule, net: Network, ts: seq<RuleTarget>)
    ensures TargetProblems(rule, net, ts).links == []
    ensures TargetProblems(rule, net, ts).hybridLegs == []
  {
    if ts != [] {
      ProblemsHaveNoLinks(rule, net, ts[..|ts| - 1]);
    }
  }

  lemma {:induction false} HybridTargetsNoLinks(rule: Rule, kind: HybridKind, emitter: Emitter, f: Feature,
          ts: seq<RuleTarget>)
    ensures HybridTargets(rule, kind, emitter, f, ts).links == []
  {
    if ts != [] {
      HybridTargetsNoLinks(rule, kind, emitter, f, ts[..|ts| - 1]);
    }
  }

  lemma {:induction false} HybridFeaturesNoLinks(rule: Rule, emitter: Emitter, fs: seq<Feature>, ts: seq<RuleTarget>)
    requires forall f | f in fs :: f in Taken(rule)
    ensures HybridFeatures(rule, emitter, fs, ts).links == []
  {
    if fs != [] {
      var last := fs[|fs| - 1];
      assert last in fs;
      HybridFeaturesNoLinks(rule, emitter, fs[..|fs| - 1], ts);
      HybridTargetsNoLinks(rule, Taken(rule)[last], emitter, last, ts);
    }
  }

  lemma {:induction false} SelfLoadNoLinks(rule: Rule, source: DeviceCapabilities, emitter: Emitter,
          ts: seq<RuleTarget>)
    ensures SelfLoadLegs(rule, source, emitter, ts).links == []
  {
    if ts != [] {
      SelfLoadNoLinks(rule, source, emitter, ts[..|ts| - 1]);
    }
  }

  lemma {:induction false} UnusedNoLinks(rule: Rule, kinds: seq<HybridKind>)
    ensures UnusedOptIns(rule, kinds).links == [] && UnusedOptIns(rule, kinds).hybridLegs == [] &&
      UnusedOptIns(rule, kinds).errors == []
  {
    if kinds != [] {
      UnusedNoLinks(rule, kinds[..|kinds| - 1]);
    }
  }

  lemma HybridHasNoLinks(rule: Rule, source: DeviceCapabilities, emitter: Emitter, ts: seq<RuleTarget>)
    ensures HybridOut(rule, source, emitter, ts).links == []
  {
    FeatureListIs(Taken(rule).Keys);
    HybridFeaturesNoLinks(rule, emitter, FeatureList(Taken(rule).Keys), ts);
    SelfLoadNoLinks(rule, source, emitter, SelfTargets(rule, rule.targets));
    UnusedNoLinks(rule, KindList(rule.hybrid - Taken(rule).Values - {SelfLoad}));
  }

  /** The links a rule decides are those its usable targets add. */
  lemma DecidedLinks(rule: Rule, net: Network)
    ensures Decided(rule, net).links ==
      match SourceOf(rule, net)
      case None => []
      case Some(source) =>
        match FindEmitter(source.emitters, rule.source.emitterId)
        case None => []
        case Some(emitter) => TargetsOut(rule, net, source, emitter, UsableTargets(rule, net, rule.targets)).links
  {
    hide Resolution;
    hide TargetProblems;
    hide TargetsOut;
    hide HybridOut;
    hide SemanticsOut;
    hide MirrorOut;
    if SourceOf(rule, net).Some? {
      var source := SourceOf(rule, net).value;
      if FindEmitter(source.emitters, rule.source.emitterId).Some? {
        OnlyTargetsLink(rule, net, source, FindEmitter(source.emitters, rule.source.emitterId).value,
          UsableTargets(rule, net, rule.targets));
      }
    }
  }

  lemma FrozenLinks(out: CompiledRule)
    ensures multiset(Frozen(out).links) == multiset(out.links)
    ensures forall l :: l in Frozen(out).links <==> l in out.links
    ensures multiset(Frozen(out).hybridLegs) == multiset(out.hybridLegs)
    ensures |Frozen(out).links| == |out.links| && |Frozen(out).hybridLegs| == |out.hybridLegs|
    ensures out.errors != [] <==> Frozen(out).errors != []
  {
    var f := Frozen(out);
    assert forall l :: l in f.links <==> l in multiset(f.links);
    assert forall l :: l in out.links <==> l in multiset(out.links);
    assert |multiset(f.links)| == |f.links| && |multiset(out.links)| == |out.links|;
    assert |multiset(f.hybridLegs)| == |f.hybridLegs| && |multiset(out.hybridLegs)| == |out.hybridLegs|;
    if out.errors != [] {
      assert out.errors[0] in f.errors;
    }
    if f.errors != [] {
      assert f.errors[0] in out.errors;
    }
  }

  /**
   Every link a rule compiles to can work: two distinct reachable devices, and a control, group and
   endpoint that fit.
   */
  lemma CompilationIsSound(rule: Rule, net: Network, l: Link)
    requires Coherent(net) && l in Compile(rule, net).links
    ensures rule.enabled && Sound(rule, net, l)
  {
    hide Sound;
    hide Decided;
    hide Frozen;
    hide TargetsOut;
    hide TargetOut;
    hide Usable;
    FrozenLinks(Decided(rule, net));
    DecidedLinks(rule, net);
    var source := SourceOf(rule, net).value;
    var emitter := FindEmitter(source.emitters, rule.source.emitterId).value;
    FoundEmitter(source.emitters, rule.source.emitterId);
    var ts := UsableTargets(rule, net, rule.targets);
    UsableAreKnown(rule, net, ts);
    TargetsLinks(rule, net, source, emitter, ts, l);
    var t :| t in ts && l in TargetOut(rule, net, source, emitter, t).links;
    TargetIsSound(rule, net, source, emitter, t, l);
  }

  lemma UsableAreKnown(rule: Rule, net: Network, ts: seq<RuleTarget>)
    requires forall t | t in ts :: Usable(rule, net, t)
    ensures forall t | t in ts :: t.device.Identity() in net
  {
  }

  // Never short.

  /** The forward link of one target for one feature. */
  function ForwardLink(rule: Rule, source: DeviceCapabilities, emitter: Emitter, receiver: DeviceCapabilities,
          t: RuleTarget, f: Feature): Link
    requires f in emitter.actions
  {
    LinkOf(rule, Leg(source, rule.source.endpoint, emitter, receiver, t.endpoint), f)
  }

  /**
   What a rule still owes natively, its control carries and its target accepts is linked, for every
   target that can be.
   */
  lemma CompilationIsComplete(rule: Rule, net: Network, source: DeviceCapabilities, emitter: Emitter, t: RuleTarget,
          f: Feature)
    requires rule.enabled && SourceOf(rule, net) == Some(source) &&
      FindEmitter(source.emitters, rule.source.emitterId) == Some(emitter)
    requires t in rule.targets && Usable(rule, net, t)
    requires f in Carried(rule, emitter) && f in net[t.device.Identity()].receivable
    ensures ForwardLink(rule, source, emitter, net[t.device.Identity()], t, f) in Compile(rule, net).links
  {
    hide Decided;
    hide Frozen;
    hide TargetsOut;
    hide ReverseOut;
    hide LegOut;
    hide Taken;
    var receiver := net[t.device.Identity()];
    var leg := Leg(source, rule.source.endpoint, emitter, receiver, t.endpoint);
    var fs := FeatureList(Carried(rule, emitter));
    FeatureListIs(Carried(rule, emitter));
    LegLinks(rule, leg, fs, LinkOf(rule, leg, f));
    TargetLinksAreCompiled(rule, net, source, emitter, t, LinkOf(rule, leg, f));
  }

  lemma TargetLinksAreCompiled(rule: Rule, net: Network, source: DeviceCapabilities, emitter: Emitter,
          t: RuleTarget, l: Link)
    requires rule.enabled && SourceOf(rule, net) == Some(source) &&
      FindEmitter(source.emitters, rule.source.emitterId) == Some(emitter)
    requires t in rule.targets && Usable(rule, net, t) && l in TargetOut(rule, net, source, emitter, t).links
    ensures l in Compile(rule, net).links
  {
    hide Decided;
    hide Frozen;
    hide TargetsOut;
    hide TargetOut;
    hide Usable;
    FrozenLinks(Decided(rule, net));
    DecidedLinks(rule, net);
    var ts := UsableTargets(rule, net, rule.targets);
    UsableAreKnown(rule, net, ts);
    TargetsLinks(rule, net, source, emitter, ts, l);
  }

  /**
   A two-way rule whose target has one control for everything is linked back, for every feature the
   source accepts.
   */
  lemma TwoWayIsLinkedBack(rule: Rule, net: Network, source: DeviceCapabilities, emitter: Emitter, t: RuleTarget,
          f: Feature)
    requires rule.enabled && SourceOf(rule, net) == Some(source) &&
      FindEmitter(source.emitters, rule.source.emitterId) == Some(emitter)
    requires t in rule.targets && Usable(rule, net, t) && rule.direction == TwoWay
    requires f in Carried(rule, emitter) + Taken(rule).Keys && f in source.receivable
    requires EmitterCarrying(net[t.device.Identity()].emitters,
      FeatureList(Carried(rule, emitter) + Taken(rule).Keys)).Some?
    ensures exists l | l in Compile(rule, net).links ::
      l.source == net[t.device.Identity()].handle && l.target.handle == source.handle && l.feature == f
  {
    hide Compile;
    hide LegOut;
    hide Taken;
    hide EmitterCarrying;
    var target := net[t.device.Identity()];
    FeatureListIs(Carried(rule, emitter));
    FeatureListIs(Carried(rule, emitter) + Taken(rule).Keys);
    var fs := FeatureList(Carried(rule, emitter) + Taken(rule).Keys);
    assert f in fs;
    EmitterCarryingCarries(target.emitters, fs);
    var e := EmitterCarrying(target.emitters, fs).value;
    var leg := Leg(target, e.endpoint, e, source, ReverseEndpoint(rule, source));
    LegLinks(rule, leg, fs, LinkOf(rule, leg, f));
    TargetLinksAreCompiled(rule, net, source, emitter, t, LinkOf(rule, leg, f));
  }

  // Never silent.

  /** Something came of it: a link, a leg, or an error. */
  ghost predicate Speaks(out: CompiledRule) {
    out.links != [] || out.hybridLegs != [] || out.errors != []
  }

  lemma PlusSpeaks(a: CompiledRule, b: CompiledRule)
    ensures Speaks(Plus(a, b)) <==> Speaks(a) || Speaks(b)
  {
  }

  lemma {:induction false} NoneCarriedIsSaid(emitter: Emitter, fs: seq<Feature>)
    requires fs != [] && forall f | f in fs :: f !in emitter.actions
    ensures UnavailableMessages(emitter, fs) != []
  {
    assert fs[0] in fs;
  }

  lemma ResolutionSpeaks(rule: Rule, emitter: Emitter)
    requires Owed(rule) != {} && Carried(rule, emitter) == {}
    ensures Speaks(Resolution(rule, emitter))
  {
    var f :| f in Owed(rule);
    FeatureListIs(Owed(rule));
    assert f in FeatureList(Owed(rule));
    forall g | g in FeatureList(Owed(rule)) ensures g !in emitter.actions {
      assert g !in Carried(rule, emitter);
    }
    NoneCarriedIsSaid(emitter, FeatureList(Owed(rule)));
  }

  lemma TargetSpeaks(rule: Rule, net: Network, source: DeviceCapabilities, emitter: Emitter, t: RuleTarget)
    requires t.device.Identity() in net && Carried(rule, emitter) != {}
    ensures Speaks(TargetOut(rule, net, source, emitter, t))
  {
    var fs := FeatureList(Carried(rule, emitter));
    FeatureListIs(Carried(rule, emitter));
    var f :| f in Carried(rule, emitter);
    assert f in fs;
    LegSpeaks(rule, Leg(source, rule.source.endpoint, emitter, net[t.device.Identity()], t.endpoint), fs);
  }

  lemma TargetsSpeak(rule: Rule, net: Network, source: DeviceCapabilities, emitter: Emitter, ts: seq<RuleTarget>)
    requires forall t | t in ts :: t.device.Identity() in net
    requires ts != [] && Carried(rule, emitter) != {}
    ensures Speaks(TargetsOut(rule, net, source, emitter, ts))
  {
    hide TargetOut;
    var last := ts[|ts| - 1];
    assert last in ts;
    TargetSpeaks(rule, net, source, emitter, last);
    PlusSpeaks(TargetsOut(rule, net, source, emitter, ts[..|ts| - 1]), TargetOut(rule, net, source, emitter, last));
  }

  lemma {:induction false} ProblemsSpeak(rule: Rule, net: Network, ts: seq<RuleTarget>, t: RuleTarget)
    requires t in ts && Speaks(TargetProblem(rule, net, t))
    ensures Speaks(TargetProblems(rule, net, ts))
  {
    hide TargetProblem;
    var last := ts[|ts| - 1];
    var front := ts[..|ts| - 1];
    assert ts == front + [last];
    PlusSpeaks(TargetProblems(rule, net, front), TargetProblem(rule, net, last));
    if t != last {
      ProblemsSpeak(rule, net, front, t);
    }
  }

  lemma HybridTargetsSpeak(rule: Rule, kind: HybridKind, emitter: Emitter, f: Feature, ts: seq<RuleTarget>)
    requires ts != []
    ensures Speaks(HybridTargets(rule, kind, emitter, f, ts))
  {
    var last := ts[|ts| - 1];
    PlusSpeaks(HybridTargets(rule, kind, emitter, f, ts[..|ts| - 1]),
      HybridOne(rule, kind, emitter, f, LinkTarget(last.device, last.endpoint)));
  }

  lemma HybridFeaturesSpeak(rule: Rule, emitter: Emitter, fs: seq<Feature>, ts: seq<RuleTarget>)
    requires ts != [] && fs != [] && forall f | f in fs :: f in Taken(rule)
    ensures Speaks(HybridFeatures(rule, emitter, fs, ts))
  {
    hide HybridTargets;
    var last := fs[|fs| - 1];
    assert last in fs;
    HybridTargetsSpeak(rule, Taken(rule)[last], emitter, last, ts);
    PlusSpeaks(HybridFeatures(rule, emitter, fs[..|fs| - 1], ts),
      HybridTaken(rule, emitter, last, Taken(rule)[last], ts));
  }

  lemma SelfLoadSpeaks(rule: Rule, source: DeviceCapabilities, emitter: Emitter, ts: seq<RuleTarget>)
    requires ts != []
    ensures Speaks(SelfLoadLegs(rule, source, emitter, ts))
  {
    var last := ts[|ts| - 1];
    var endpoint := if last.endpoint.None? then source.receivingEndpoint else last.endpoint;
    PlusSpeaks(SelfLoadLegs(rule, source, emitter, ts[..|ts| - 1]),
      HybridOne(rule, SelfLoad, emitter, OnOff, LinkTarget(source.handle, endpoint)));
  }

  lemma {:induction false} SelfTargetsAre(rule: Rule, ts: seq<RuleTarget>, t: RuleTarget)
    requires t in ts && IsSelf(rule, t)
    ensures SelfTargets(rule, ts) != []
  {
    var last := ts[|ts| - 1];
    assert ts == ts[..|ts| - 1] + [last];
    if t != last {
      SelfTargetsAre(rule, ts[..|ts| - 1], t);
    }
  }

  lemma HybridSpeaks(rule: Rule, source: DeviceCapabilities, emitter: Emitter, ts: seq<RuleTarget>)
    requires (ts != [] && Taken(rule) != map[]) || (SelfLoad in rule.hybrid && SelfTargets(rule, rule.targets) != [])
    ensures Speaks(HybridOut(rule, source, emitter, ts))
  {
    hide HybridFeatures;
    hide SelfLoadLegs;
    hide SelfTargets;
    hide UnusedOptIns;
    var fs := FeatureList(Taken(rule).Keys);
    FeatureListIs(Taken(rule).Keys);
    if SelfLoad in rule.hybrid && SelfTargets(rule, rule.targets) != [] {
      SelfLoadSpeaks(rule, source, emitter, SelfTargets(rule, rule.targets));
    } else {
      var f :| f in Taken(rule).Keys;
      assert f in fs;
      HybridFeaturesSpeak(rule, emitter, fs, ts);
    }
    PlusSpeaks(HybridFeatures(rule, emitter, fs, ts),
      if SelfLoad in rule.hybrid then SelfLoadOut(rule, source, emitter) else NOTHING);
  }

  /** What becomes of a rule whose control is found. */
  lemma ControlledSpeaks(rule: Rule, net: Network, source: DeviceCapabilities, emitter: Emitter, ts: seq<RuleTarget>)
    requires rule.Valid() && ts == UsableTargets(rule, net, rule.targets)
    ensures Speaks(Resolution(rule, emitter)) || Speaks(TargetProblems(rule, net, rule.targets))
         || Speaks(TargetsOut(rule, net, source, emitter, ts)) || Speaks(HybridOut(rule, source, emitter, ts))
  {
    hide Resolution;
    hide TargetProblems;
    hide TargetsOut;
    hide HybridOut;
    hide Taken;
    if ts == [] {
      var t := rule.targets[0];
      assert t in rule.targets;
      if IsSelf(rule, t) && SelfLoad in rule.hybrid {
        SelfTargetsAre(rule, rule.targets, t);
        HybridSpeaks(rule, source, emitter, ts);
      } else {
        assert !Usable(rule, net, t);
        ProblemsSpeak(rule, net, rule.targets, t);
      }
    } else if Carried(rule, emitter) != {} {
      TargetsSpeak(rule, net, source, emitter, ts);
    } else if Owed(rule) != {} {
      ResolutionSpeaks(rule, emitter);
    } else {
      var f :| f in rule.features;
      assert f !in Owed(rule);
      assert f in Taken(rule).Keys;
      HybridSpeaks(rule, source, emitter, ts);
    }
  }

  lemma DecidedSpeaks(rule: Rule, net: Network)
    requires rule.Valid()
    ensures Speaks(Decided(rule, net))
  {
    hide Resolution;
    hide TargetProblems;
    hide TargetsOut;
    hide HybridOut;
    hide SemanticsOut;
    hide MirrorOut;
    if SourceOf(rule, net).Some? {
      var source := SourceOf(rule, net).value;
      if FindEmitter(source.emitters, rule.source.emitterId).Some? {
        ControlledSpeaks(rule, net, source, FindEmitter(source.emitters, rule.source.emitterId).value,
          UsableTargets(rule, net, rule.targets));
      }
    }
  }

  /** An enabled rule that yields no link and no hybrid leg says why. */
  lemma CompilationIsNeverSilent(rule: Rule, net: Network)
    requires rule.Valid() && rule.enabled
    requires Compile(rule, net).links == [] && Compile(rule, net).hybridLegs == []
    ensures Compile(rule, net).errors != []
  {
    hide Decided;
    hide Frozen;
    DecidedSpeaks(rule, net);
    FrozenLinks(Decided(rule, net));
  }

  // Nothing that is asked goes unanswered.

  /** The user is told this. */
  ghost predicate Tells(out: CompiledRule, d: Diagnostic) {
    d in out.warnings || d in out.errors
  }

  lemma PlusTells(a: CompiledRule, b: CompiledRule, d: Diagnostic)
    ensures Tells(Plus(a, b), d) <==> Tells(a, d) || Tells(b, d)
  {
  }

  lemma FrozenTells(out: CompiledRule, d: Diagnostic)
    ensures Tells(Frozen(out), d) <==> Tells(out, d)
  {
    hide Plus;
  }

  function Unavailable(emitter: Emitter, f: Feature): Diagnostic {
    Diagnostic(FeatureUnavailable(f), map["feature" := FeatureName(f), "emitter" := emitter.caption])
  }

  function CannotReceive(receiver: DeviceCapabilities, f: Feature): Diagnostic {
    Diagnostic("target_cannot_receive", map["device" := receiver.handle.nameAtAuthoring, "feature" := FeatureName(f)])
  }

  /** What is wrong with a target as a whole: it is the rule's own device, nobody knows it, or it is out of reach. */
  function TargetReason(rule: Rule, net: Network, t: RuleTarget): Option<Diagnostic> {
    var id := t.device.Identity();
    if IsSelf(rule, t) then
      Some(Diagnostic("self_association_use_hybrid_leg", map["device" := t.device.nameAtAuthoring]))
    else if id !in net then Some(Diagnostic("unknown_device", map["device" := id]))
    else if net[id].isLongRange then
      Some(Diagnostic("target_is_long_range", map["device" := net[id].handle.nameAtAuthoring]))
    else None
  }

  /** Why one target does not get one feature from the control, in the order it is looked into. */
  function LinkReason(rule: Rule, net: Network, emitter: Emitter, t: RuleTarget, f: Feature): Option<Diagnostic> {
    if TargetReason(rule, net, t).Some? then TargetReason(rule, net, t)
    else if f !in emitter.actions then Some(Unavailable(emitter, f))
    else if f !in net[t.device.Identity()].receivable then Some(CannotReceive(net[t.device.Identity()], f))
    else None
  }

  /** Why one target does not get one feature at all. */
  function Reason(rule: Rule, net: Network, t: RuleTarget, f: Feature): Option<Diagnostic> {
    var id := rule.source.device.Identity();
    if id !in net then Some(Diagnostic("unknown_device", map["device" := id]))
    else if net[id].isLongRange then
      Some(Diagnostic("source_is_long_range", map["device" := net[id].handle.nameAtAuthoring]))
    else
      match FindEmitter(net[id].emitters, rule.source.emitterId)
      case None =>
        Some(Diagnostic("unknown_emitter",
          map["emitter" := rule.source.emitterId, "device" := net[id].handle.nameAtAuthoring]))
      case Some(emitter) => LinkReason(rule, net, emitter, t, f)
  }

  lemma {:induction false} UncarriedIsTold(emitter: Emitter, fs: seq<Feature>, f: Feature)
    requires f in fs && f !in emitter.actions
    ensures Unavailable(emitter, f) in UnavailableMessages(emitter, fs)
  {
    if fs[0] != f {
      assert fs == [fs[0]] + fs[1..];
      UncarriedIsTold(emitter, fs[1..], f);
    }
  }

  lemma {:induction false} TargetProblemIsTold(rule: Rule, net: Network, ts: seq<RuleTarget>, t: RuleTarget,
          d: Diagnostic)
    requires t in ts && Tells(TargetProblem(rule, net, t), d)
    ensures Tells(TargetProblems(rule, net, ts), d)
  {
    hide TargetProblem;
    hide Tells;
    var front, last := ts[..|ts| - 1], ts[|ts| - 1];
    assert ts == front + [last];
    PlusTells(TargetProblems(rule, net, front), TargetProblem(rule, net, last), d);
    if t != last {
      TargetProblemIsTold(rule, net, front, t, d);
    }
  }

  lemma {:induction false} RefusalIsTold(rule: Rule, leg: Leg, fs: seq<Feature>, f: Feature)
    requires forall g | g in fs :: g in leg.emitter.actions
    requires f in fs && f !in leg.receiver.receivable
    ensures Tells(LegOut(rule, leg, fs), CannotReceive(leg.receiver, f))
  {
    hide Tells;
    var front, last := fs[..|fs| - 1], fs[|fs| - 1];
    assert fs == front + [last];
    PlusTells(LegOut(rule, leg, front), LegFeature(rule, leg, last), CannotReceive(leg.receiver, f));
    if f == last {
      RefusedFeatureIsTold(rule, leg, f);
    } else {
      RefusalIsTold(rule, leg, front, f);
    }
  }

  lemma RefusedFeatureIsTold(rule: Rule, leg: Leg, f: Feature)
    requires f in leg.emitter.actions && f !in leg.receiver.receivable
    ensures Tells(LegFeature(rule, leg, f), CannotReceive(leg.receiver, f))
  {
  }

  lemma {:induction false} OneTargetIsTold(rule: Rule, net: Network, source: DeviceCapabilities, emitter: Emitter,
          ts: seq<RuleTarget>, t: RuleTarget, d: Diagnostic)
    requires forall u | u in ts :: u.device.Identity() in net
    requires t in ts && Tells(TargetOut(rule, net, source, emitter, t), d)
    ensures Tells(TargetsOut(rule, net, source, emitter, ts), d)
  {
    hide TargetOut;
    hide Tells;
    var front, last := ts[..|ts| - 1], ts[|ts| - 1];
    assert ts == front + [last];
    PlusTells(TargetsOut(rule, net, source, emitter, front), TargetOut(rule, net, source, emitter, last), d);
    if t != last {
      OneTargetIsTold(rule, net, source, emitter, front, t, d);
    }
  }

  lemma DecidedTells(rule: Rule, net: Network, source: DeviceCapabilities, emitter: Emitter, d: Diagnostic)
    requires SourceOf(rule, net) == Some(source) && FindEmitter(source.emitters, rule.source.emitterId) == Some(emitter)
    requires forall t | t in UsableTargets(rule, net, rule.targets) :: t.device.Identity() in net
    requires Tells(Resolution(rule, emitter), d) || Tells(TargetProblems(rule, net, rule.targets), d) ||
      Tells(TargetsOut(rule, net, source, emitter, UsableTargets(rule, net, rule.targets)), d)
    ensures Tells(Decided(rule, net), d)
  {
    hide Resolution;
    hide TargetProblems;
    hide TargetsOut;
    hide UsableTargets;
    hide HybridOut;
    hide SemanticsOut;
    hide MirrorOut;
  }

  /** The reason there is no link is among the messages. */
  lemma LinkReasonIsTold(rule: Rule, net: Network, source: DeviceCapabilities, emitter: Emitter, t: RuleTarget,
          f: Feature)
    requires SourceOf(rule, net) == Some(source) && FindEmitter(source.emitters, rule.source.emitterId) == Some(emitter)
    requires t in rule.targets && f in Owed(rule) && !(IsSelf(rule, t) && SelfLoad in rule.hybrid)
    requires LinkReason(rule, net, emitter, t, f).Some?
    ensures Tells(Decided(rule, net), LinkReason(rule, net, emitter, t, f).value)
  {
    hide Decided;
    hide TargetsOut;
    hide TargetOut;
    hide LegOut;
    hide Taken;
    hide Tells;
    hide TargetProblems;
    hide Resolution;
    var ts, d := UsableTargets(rule, net, rule.targets), LinkReason(rule, net, emitter, t, f).value;
    UsableAreKnown(rule, net, ts);
    if TargetReason(rule, net, t).Some? {
      ProblemIsTold(rule, net, t);
      TargetProblemIsTold(rule, net, rule.targets, t, d);
    } else if f !in emitter.actions {
      FeatureListIs(Owed(rule));
      UncarriedIsTold(emitter, FeatureList(Owed(rule)), f);
      ResolutionTells(rule, emitter, d);
    } else {
      FeatureListIs(Carried(rule, emitter));
      DeadTargetIsTold(rule, net, source, emitter, t, f);
      OneTargetIsTold(rule, net, source, emitter, ts, t, d);
    }
    DecidedTells(rule, net, source, emitter, d);
  }

  lemma ProblemIsTold(rule: Rule, net: Network, t: RuleTarget)
    requires TargetReason(rule, net, t).Some? && !(IsSelf(rule, t) && SelfLoad in rule.hybrid)
    ensures Tells(TargetProblem(rule, net, t), TargetReason(rule, net, t).value)
  {
  }

  lemma ResolutionTells(rule: Rule, emitter: Emitter, d: Diagnostic)
    requires d in UnavailableMessages(emitter, FeatureList(Owed(rule)))
    ensures Tells(Resolution(rule, emitter), d)
  {
    hide UnavailableMessages;
    hide Taken;
  }

  lemma DeadTargetIsTold(rule: Rule, net: Network, source: DeviceCapabilities, emitter: Emitter, t: RuleTarget,
          f: Feature)
    requires t.device.Identity() in net && f in Carried(rule, emitter) && f !in net[t.device.Identity()].receivable
    ensures Tells(TargetOut(rule, net, source, emitter, t), CannotReceive(net[t.device.Identity()], f))
  {
    hide LegOut;
    hide ReverseOut;
    hide Taken;
    var receiver := net[t.device.Identity()];
    var leg := Leg(source, rule.source.endpoint, emitter, receiver, t.endpoint);
    var fs := FeatureList(Carried(rule, emitter));
    FeatureListIs(Carried(rule, emitter));
    RefusalIsTold(rule, leg, fs, f);
    PlusTells(LegOut(rule, leg, fs),
      ReverseOut(rule, source, receiver, FeatureList(Carried(rule, emitter) + Taken(rule).Keys)),
      CannotReceive(receiver, f));
  }

  /** A link carries this feature from the rule's own device to this target's. */
  ghost predicate LinkedTo(rule: Rule, links: seq<Link>, t: RuleTarget, f: Feature) {
    exists l | l in links :: Serves(rule, l, t, f)
  }

  predicate Serves(rule: Rule, l: Link, t: RuleTarget, f: Feature) {
    && l.feature == f && l.source.Identity() == rule.source.device.Identity()
    && l.target.handle.Identity() == t.device.Identity()
  }

  /** A link from the rule's own device to a target's is the target's forward link, and nothing stood against it. */
  lemma LinkedHasNoReason(rule: Rule, net: Network, t: RuleTarget, l: Link)
    requires Coherent(net) && t in rule.targets && l in Compile(rule, net).links && Serves(rule, l, t, l.feature)
    ensures Reason(rule, net, t, l.feature).None?
  {
    hide Decided;
    hide Frozen;
    hide TargetsOut;
    hide TargetOut;
    hide Taken;
    hide DeviceHandle.Identity;
    FrozenLinks(Decided(rule, net));
    DecidedLinks(rule, net);
    var source := SourceOf(rule, net).value;
    var emitter := FindEmitter(source.emitters, rule.source.emitterId).value;
    FoundEmitter(source.emitters, rule.source.emitterId);
    var ts := UsableTargets(rule, net, rule.targets);
    UsableAreKnown(rule, net, ts);
    TargetsLinks(rule, net, source, emitter, ts, l);
    var u :| u in ts && l in TargetOut(rule, net, source, emitter, u).links;
    ForwardIsCarried(rule, net, source, emitter, u, l);
  }

  lemma ForwardIsCarried(rule: Rule, net: Network, source: DeviceCapabilities, emitter: Emitter, u: RuleTarget, l: Link)
    requires Coherent(net) && SourceOf(rule, net) == Some(source) && Usable(rule, net, u)
    requires l in TargetOut(rule, net, source, emitter, u).links && l.source.Identity() == rule.source.device.Identity()
    ensures l.feature in emitter.actions && l.feature in net[u.device.Identity()].receivable
    ensures l.target.handle.Identity() == u.device.Identity()
  {
    hide DeviceHandle.Identity;
    hide Taken;
    var receiver := net[u.device.Identity()];
    var fs := FeatureList(Carried(rule, emitter));
    FeatureListIs(Carried(rule, emitter));
    var leg := Leg(source, rule.source.endpoint, emitter, receiver, u.endpoint);
    var back := FeatureList(Carried(rule, emitter) + Taken(rule).Keys);
    LegLinks(rule, leg, fs, l);
    if l in ReverseOut(rule, source, receiver, back).links {
      EmitterCarryingCarries(receiver.emitters, back);
      var e := EmitterCarrying(receiver.emitters, back).value;
      LegLinks(rule, Leg(receiver, e.endpoint, e, source, ReverseEndpoint(rule, source)), back, l);
    }
  }

  /**
   Every target and every feature natively owed is answered: with the link itself, exactly if
   nothing stands against it, and otherwise with the very thing that does. Only a target naming
   the rule's own device may leave it to an opted-in leg.
   */
  lemma EveryRequestIsAnswered(rule: Rule, net: Network, t: RuleTarget, f: Feature)
    requires Coherent(net) && rule.enabled && t in rule.targets && f in Owed(rule)
    requires !(IsSelf(rule, t) && SelfLoad in rule.hybrid)
    ensures LinkedTo(rule, Compile(rule, net).links, t, f) <==> Reason(rule, net, t, f).None?
    ensures Reason(rule, net, t, f).Some? ==> Tells(Compile(rule, net), Reason(rule, net, t, f).value)
  {
    hide Decided;
    hide Frozen;
    hide Tells;
    hide Taken;
    hide SourceProblem;
    hide LinkReason;
    if Reason(rule, net, t, f).Some? {
      FrozenTells(Decided(rule, net), Reason(rule, net, t, f).value);
    }
    if l :| l in Compile(rule, net).links && Serves(rule, l, t, f) {
      LinkedHasNoReason(rule, net, t, l);
    }
    if SourceOf(rule, net).None? || FindEmitter(SourceOf(rule, net).value.emitters, rule.source.emitterId).None? {
      NoControlIsTold(rule, net, t, f);
    } else {
      var source := SourceOf(rule, net).value;
      var emitter := FindEmitter(source.emitters, rule.source.emitterId).value;
      if LinkReason(rule, net, emitter, t, f).Some? {
        LinkReasonIsTold(rule, net, source, emitter, t, f);
      } else {
        NoReasonIsLinked(rule, net, source, emitter, t, f);
      }
    }
  }

  lemma NoReasonIsLinked(rule: Rule, net: Network, source: DeviceCapabilities, emitter: Emitter, t: RuleTarget,
          f: Feature)
    requires Coherent(net) && rule.enabled && t in rule.targets && f in Owed(rule)
    requires SourceOf(rule, net) == Some(source) && FindEmitter(source.emitters, rule.source.emitterId) == Some(emitter)
    requires LinkReason(rule, net, emitter, t, f).None?
    ensures LinkedTo(rule, Compile(rule, net).links, t, f)
  {
    hide Compile;
    hide Taken;
    hide DeviceHandle.Identity;
    CompilationIsComplete(rule, net, source, emitter, t, f);
    var l := ForwardLink(rule, source, emitter, net[t.device.Identity()], t, f);
    assert l.feature == f && l.source == source.handle && l.target.handle == net[t.device.Identity()].handle;
    assert Serves(rule, l, t, f);
  }

  lemma NoControlIsTold(rule: Rule, net: Network, t: RuleTarget, f: Feature)
    requires SourceOf(rule, net).None? || FindEmitter(SourceOf(rule, net).value.emitters, rule.source.emitterId).None?
    ensures Reason(rule, net, t, f).Some? && Tells(Decided(rule, net), Reason(rule, net, t, f).value)
  {
  }

  // Refusals are narrow.

  /** The same rule for one target only. */
  function Alone(rule: Rule, t: RuleTarget): Rule {
    rule.(targets := [t])
  }

  ghost function AloneLinks(rule: Rule, net: Network, ts: seq<RuleTarget>): multiset<Link> {
    if ts == [] then multiset{}
    else AloneLinks(rule, net, ts[..|ts| - 1]) + multiset(Compile(Alone(rule, ts[|ts| - 1]), net).links)
  }

  lemma {:induction false} LegIgnoresTargets(rule: Rule, t: RuleTarget, leg: Leg, features: seq<Feature>)
    requires forall f | f in features :: f in leg.emitter.actions
    ensures LegOut(Alone(rule, t), leg, features) == LegOut(rule, leg, features)
  {
    if features != [] {
      assert features[|features| - 1] in features;
      LegIgnoresTargets(rule, t, leg, features[..|features| - 1]);
    }
  }

  lemma TargetIgnoresOthers(rule: Rule, net: Network, source: DeviceCapabilities, emitter: Emitter, t: RuleTarget)
    requires t.device.Identity() in net
    ensures TargetOut(Alone(rule, t), net, source, emitter, t) == TargetOut(rule, net, source, emitter, t)
  {
    hide LegOut;
    var receiver := net[t.device.Identity()];
    var back := FeatureList(Carried(rule, emitter) + Taken(rule).Keys);
    FeatureListIs(Carried(rule, emitter));
    assert Carried(Alone(rule, t), emitter) == Carried(rule, emitter);
    LegIgnoresTargets(rule, t, Leg(source, rule.source.endpoint, emitter, receiver, t.endpoint),
      FeatureList(Carried(rule, emitter)));
    EmitterCarryingCarries(receiver.emitters, back);
    if EmitterCarrying(receiver.emitters, back).Some? {
      var e := EmitterCarrying(receiver.emitters, back).value;
      LegIgnoresTargets(rule, t, Leg(receiver, e.endpoint, e, source, ReverseEndpoint(rule, source)), back);
    }
  }

  /** What one target links to, on its own. */
  lemma AloneIsItsTarget(rule: Rule, net: Network, source: DeviceCapabilities, emitter: Emitter, t: RuleTarget)
    requires rule.enabled && SourceOf(rule, net) == Some(source) &&
      FindEmitter(source.emitters, rule.source.emitterId) == Some(emitter)
    ensures multiset(Compile(Alone(rule, t), net).links) ==
      if Usable(rule, net, t) then multiset(TargetOut(rule, net, source, emitter, t).links) else multiset{}
  {
    hide TargetOut;
    hide Frozen;
    hide Decided;
    var alone := Alone(rule, t);
    FrozenLinks(Decided(alone, net));
    DecidedLinks(alone, net);
    assert UsableTargets(alone, net, [t]) == if Usable(rule, net, t) then [t] else [] by {
      assert [t][..0] == [];
    }
    if Usable(rule, net, t) {
      TargetIgnoresOthers(rule, net, source, emitter, t);
      assert [t][..0] == [];
      assert TargetsOut(alone, net, source, emitter, [t]).links == TargetOut(alone, net, source, emitter, t).links;
    }
  }

  lemma {:induction false} TargetsAddUp(rule: Rule, net: Network, source: DeviceCapabilities, emitter: Emitter,
          ts: seq<RuleTarget>)
    requires rule.enabled && SourceOf(rule, net) == Some(source) &&
      FindEmitter(source.emitters, rule.source.emitterId) == Some(emitter)
    ensures multiset(TargetsOut(rule, net, source, emitter, UsableTargets(rule, net, ts)).links) ==
      AloneLinks(rule, net, ts)
  {
    hide TargetOut;
    hide Usable;
    hide Compile;
    if ts != [] {
      var front, last := ts[..|ts| - 1], ts[|ts| - 1];
      TargetsAddUp(rule, net, source, emitter, front);
      AloneIsItsTarget(rule, net, source, emitter, last);
      var us := UsableTargets(rule, net, front);
      if Usable(rule, net, last) {
        UsableMeansKnown(rule, net, last);
        assert (us + [last])[..|us|] == us;
      } else {
        assert UsableTargets(rule, net, ts) == us;
      }
    }
  }

  lemma UsableMeansKnown(rule: Rule, net: Network, t: RuleTarget)
    requires Usable(rule, net, t)
    ensures t.device.Identity() in net
  {
  }

  lemma {:induction false} NothingAlone(rule: Rule, net: Network, ts: seq<RuleTarget>)
    requires rule.enabled
    requires SourceOf(rule, net).None? || FindEmitter(SourceOf(rule, net).value.emitters, rule.source.emitterId).None?
    ensures AloneLinks(rule, net, ts) == multiset{}
  {
    hide Decided;
    hide Frozen;
    if ts != [] {
      NothingAlone(rule, net, ts[..|ts| - 1]);
      var alone := Alone(rule, ts[|ts| - 1]);
      DecidedLinks(alone, net);
      FrozenLinks(Decided(alone, net));
    }
  }

  /**
   A rule's links are, counted, the links each of its targets gets alone: an impossible target changes
   nothing for the others.
   */
  lemma RefusalsAreNarrow(rule: Rule, net: Network)
    requires rule.enabled
    ensures multiset(Compile(rule, net).links) == AloneLinks(rule, net, rule.targets)
  {
    hide Decided;
    hide Frozen;
    hide TargetsOut;
    hide UsableTargets;
    FrozenLinks(Decided(rule, net));
    DecidedLinks(rule, net);
    if SourceOf(rule, net).Some? && FindEmitter(SourceOf(rule, net).value.emitters, rule.source.emitterId).Some? {
      var source := SourceOf(rule, net).value;
      TargetsAddUp(rule, net, source, FindEmitter(source.emitters, rule.source.emitterId).value, rule.targets);
    } else {
      NothingAlone(rule, net, rule.targets);
    }
  }
}
