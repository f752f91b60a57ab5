/** The legs Home Assistant carries: which there are, what they need, and what they replace. */
module HybridProperties {
  import opened Wrappers
  import opened Models
  import opened Compiler
  import opened CompilerProperties
  import Compilations

  // What the specification adds up to.

  /** One kind's leg on one control, when the device has told what it needs. */
  predicate CanCarry(kind: HybridKind, emitter: Emitter) {
    if kind == ButtonLed then emitter.indicatorId.Some? else emitter.sceneId.Some?
  }

  function LegFor(rule: Rule, kind: HybridKind, emitter: Emitter, f: Feature, target: LinkTarget): HybridLeg {
    HybridLeg(rule.id, kind, rule.source.device, emitter.emitterId, f, target, emitter.sceneId, emitter.indicatorId)
  }

  lemma OneLeg(rule: Rule, kind: HybridKind, emitter: Emitter, f: Feature, target: LinkTarget, leg: HybridLeg)
    ensures leg in HybridOne(rule, kind, emitter, f, target).hybridLegs <==>
      CanCarry(kind, emitter) && leg == LegFor(rule, kind, emitter, f, target)
  {
  }

  lemma {:induction false} TargetLegs(rule: Rule, kind: HybridKind, emitter: Emitter, f: Feature,
          ts: seq<RuleTarget>, leg: HybridLeg)
    ensures leg in HybridTargets(rule, kind, emitter, f, ts).hybridLegs <==>
      CanCarry(kind, emitter) &&
        exists t | t in ts :: leg == LegFor(rule, kind, emitter, f, LinkTarget(t.device, t.endpoint))
  {
    hide HybridOne;
    hide CanCarry;
    hide LegFor;
    if ts != [] {
      var front, last := ts[..|ts| - 1], ts[|ts| - 1];
      var target := LinkTarget(last.device, last.endpoint);
      assert ts == front + [last];
      TargetLegs(rule, kind, emitter, f, front, leg);
      OneLeg(rule, kind, emitter, f, target, leg);
      assert HybridTargets(rule, kind, emitter, f, ts) ==
        Plus(HybridTargets(rule, kind, emitter, f, front), HybridOne(rule, kind, emitter, f, target));
    }
  }

  /**
   Which opted-in kind takes a feature over: on/off goes to an off-only leg, or to an on-only one
   when there is no off-only one; a status report goes to the button's light; nothing else goes.
   */
  predicate TakesOver(rule: Rule, kind: HybridKind, f: Feature) {
    && f in rule.features && kind in rule.hybrid
    && match kind
       case OffOnly => f == OnOff
       case OnOnly => f == OnOff && OffOnly !in rule.hybrid
       case ButtonLed => f == StatusReport
       case SelfLoad => false
  }

  lemma TakenMeans(rule: Rule, f: Feature, kind: HybridKind)
    ensures f in Taken(rule) && Taken(rule)[f] == kind <==> TakesOver(rule, kind, f)
  {
  }

  /** A feature a leg took over gets one leg per usable target; a button's light follows one target only. */
  ghost predicate TakenLeg(rule: Rule, emitter: Emitter, kind: HybridKind, f: Feature, ts: seq<RuleTarget>,
          leg: HybridLeg) {
    && TakesOver(rule, kind, f) && CanCarry(kind, emitter)
    && (kind == ButtonLed ==> |ts| <= 1)
    && exists t | t in ts :: leg == LegFor(rule, kind, emitter, f, LinkTarget(t.device, t.endpoint))
  }

  lemma OneTakenLeg(rule: Rule, emitter: Emitter, f: Feature, ts: seq<RuleTarget>, leg: HybridLeg)
    requires f in Taken(rule)
    ensures leg in HybridTaken(rule, emitter, f, Taken(rule)[f], ts).hybridLegs <==>
      TakenLeg(rule, emitter, Taken(rule)[f], f, ts, leg)
  {
    hide HybridTargets;
    hide Taken;
    hide TakesOver;
    hide CanCarry;
    TakenMeans(rule, f, Taken(rule)[f]);
    TargetLegs(rule, Taken(rule)[f], emitter, f, ts, leg);
  }

  lemma {:induction false} TakenLegs(rule: Rule, emitter: Emitter, fs: seq<Feature>, ts: seq<RuleTarget>,
          leg: HybridLeg)
    requires forall f | f in fs :: f in Taken(rule)
    ensures leg in HybridFeatures(rule, emitter, fs, ts).hybridLegs <==>
      exists f | f in fs :: TakenLeg(rule, emitter, Taken(rule)[f], f, ts, leg)
  {
    hide HybridTaken;
    hide Taken;
    hide TakenLeg;
    if fs != [] {
      var front, last := fs[..|fs| - 1], fs[|fs| - 1];
      assert fs == front + [last];
      TakenLegs(rule, emitter, front, ts, leg);
      OneTakenLeg(rule, emitter, last, ts, leg);
    }
  }

  /** Where a leg acts on its own device. */
  function OwnLoad(source: DeviceCapabilities, t: RuleTarget): LinkTarget {
    LinkTarget(source.handle, if t.endpoint.None? then source.receivingEndpoint else t.endpoint)
  }

  lemma {:induction false} SelfLegs(rule: Rule, source: DeviceCapabilities, emitter: Emitter, ts: seq<RuleTarget>,
          leg: HybridLeg)
    ensures leg in SelfLoadLegs(rule, source, emitter, ts).hybridLegs <==>
      CanCarry(SelfLoad, emitter) &&
        exists t | t in ts :: leg == LegFor(rule, SelfLoad, emitter, OnOff, OwnLoad(source, t))
  {
    hide HybridOne;
    hide CanCarry;
    hide LegFor;
    if ts != [] {
      var front, last := ts[..|ts| - 1], ts[|ts| - 1];
      assert ts == front + [last];
      SelfLegs(rule, source, emitter, front, leg);
      OneLeg(rule, SelfLoad, emitter, OnOff, OwnLoad(source, last), leg);
      assert SelfLoadLegs(rule, source, emitter, ts) ==
        Plus(SelfLoadLegs(rule, source, emitter, front),
          HybridOne(rule, SelfLoad, emitter, OnOff, OwnLoad(source, last)));
    }
  }

  lemma {:induction false} SelfTargetsExactly(rule: Rule, ts: seq<RuleTarget>, t: RuleTarget)
    ensures t in SelfTargets(rule, ts) <==> t in ts && IsSelf(rule, t)
  {
    hide IsSelf;
    if ts != [] {
      SelfTargetsExactly(rule, ts[..|ts| - 1], t);
      assert ts == ts[..|ts| - 1] + [ts[|ts| - 1]];
    }
  }

  /** A self-load leg for a target that names the rule's own device. */
  ghost predicate SelfLeg(rule: Rule, source: DeviceCapabilities, emitter: Emitter, leg: HybridLeg) {
    && SelfLoad in rule.hybrid && CanCarry(SelfLoad, emitter)
    && exists t | t in rule.targets && IsSelf(rule, t) ::
      leg == LegFor(rule, SelfLoad, emitter, OnOff, OwnLoad(source, t))
  }

  lemma SelfLegsAre(rule: Rule, source: DeviceCapabilities, emitter: Emitter, leg: HybridLeg)
    requires SelfLoad in rule.hybrid
    ensures leg in SelfLoadOut(rule, source, emitter).hybridLegs <==> SelfLeg(rule, source, emitter, leg)
  {
    hide SelfTargets;
    hide IsSelf;
    hide CanCarry;
    var wanted := SelfTargets(rule, rule.targets);
    forall t ensures t in wanted <==> t in rule.targets && IsSelf(rule, t) {
      SelfTargetsExactly(rule, rule.targets, t);
    }
    SelfLegs(rule, source, emitter, wanted, leg);
    if SelfLeg(rule, source, emitter, leg) {
      var t :| t in rule.targets && IsSelf(rule, t) &&
        leg == LegFor(rule, SelfLoad, emitter, OnOff, OwnLoad(source, t));
      assert t in wanted;
    }
  }

  ghost predicate IsLeg(rule: Rule, source: DeviceCapabilities, emitter: Emitter, ts: seq<RuleTarget>, leg: HybridLeg) {
    SelfLeg(rule, source, emitter, leg) || exists kind, f :: TakenLeg(rule, emitter, kind, f, ts, leg)
  }

  lemma LegsOfHybrid(rule: Rule, source: DeviceCapabilities, emitter: Emitter, ts: seq<RuleTarget>, leg: HybridLeg)
    ensures leg in HybridOut(rule, source, emitter, ts).hybridLegs <==> IsLeg(rule, source, emitter, ts, leg)
  {
    hide HybridFeatures;
    hide SelfLoadOut;
    hide UnusedOptIns;
    hide SelfLeg;
    hide Those;
    FeatureListIs(Taken(rule).Keys);
    var fs := FeatureList(Taken(rule).Keys);
    if rule.hybrid == {} {
      NothingTaken(rule, source, emitter, ts, leg);
    } else {
      var legs := HybridLegsOut(rule, source, emitter, ts);
      UnusedNoLinks(rule, KindList(rule.hybrid - Taken(rule).Values - {SelfLoad}));
      assert HybridOut(rule, source, emitter, ts).hybridLegs == legs.hybridLegs;
      TakenLegs(rule, emitter, fs, ts, leg);
      forall kind, f ensures TakenLeg(rule, emitter, kind, f, ts, leg) ==> f in fs && Taken(rule)[f] == kind {
        TakenMeans(rule, f, kind);
      }
      if SelfLoad in rule.hybrid {
        SelfLegsAre(rule, source, emitter, leg);
      } else {
        NoSelfLeg(rule, source, emitter, leg);
      }
    }
  }

  lemma NoSelfLeg(rule: Rule, source: DeviceCapabilities, emitter: Emitter, leg: HybridLeg)
    requires SelfLoad !in rule.hybrid
    ensures !SelfLeg(rule, source, emitter, leg)
  {
  }

  lemma NothingTaken(rule: Rule, source: DeviceCapabilities, emitter: Emitter, ts: seq<RuleTarget>, leg: HybridLeg)
    requires rule.hybrid == {}
    ensures !IsLeg(rule, source, emitter, ts, leg)
  {
  }

  // What a rule compiles to.

  lemma OnlyHybridLegs(rule: Rule, net: Network, source: DeviceCapabilities, emitter: Emitter, leg: HybridLeg)
    requires rule.enabled && SourceOf(rule, net) == Some(source) &&
      FindEmitter(source.emitters, rule.source.emitterId) == Some(emitter)
    ensures leg in Compile(rule, net).hybridLegs <==>
      leg in HybridOut(rule, source, emitter, UsableTargets(rule, net, rule.targets)).hybridLegs
  {
    hide Frozen;
    hide Decided;
    hide HybridOut;
    hide UsableTargets;
    FrozenLinks(Decided(rule, net));
    DecidedLegs(rule, net, source, emitter);
    var decided, frozen := Decided(rule, net).hybridLegs, Frozen(Decided(rule, net)).hybridLegs;
    assert leg in frozen <==> leg in multiset(frozen);
    assert leg in decided <==> leg in multiset(decided);
  }

  lemma DecidedLegs(rule: Rule, net: Network, source: DeviceCapabilities, emitter: Emitter)
    requires SourceOf(rule, net) == Some(source) && FindEmitter(source.emitters, rule.source.emitterId) == Some(emitter)
    ensures Decided(rule, net).hybridLegs ==
      HybridOut(rule, source, emitter, UsableTargets(rule, net, rule.targets)).hybridLegs
  {
    hide Resolution;
    hide TargetProblems;
    hide TargetsOut;
    hide HybridOut;
    hide SemanticsOut;
    hide MirrorOut;
    hide UsableTargets;
    OnlyHybridAddsLegs(rule, net, source, emitter, UsableTargets(rule, net, rule.targets));
  }

  lemma OnlyHybridAddsLegs(rule: Rule, net: Network, source: DeviceCapabilities, emitter: Emitter, ts: seq<RuleTarget>)
    requires ts == UsableTargets(rule, net, rule.targets)
    ensures Resolution(rule, emitter).hybridLegs == [] && TargetProblems(rule, net, rule.targets).hybridLegs == []
    ensures TargetsOut(rule, net, source, emitter, ts).hybridLegs == []
    ensures MirrorOut(rule, source).hybridLegs == []
    ensures forall legs :: SemanticsOut(rule, source, emitter, legs).hybridLegs == []
  {
    hide TargetProblems;
    hide TargetsOut;
    ProblemsHaveNoLinks(rule, net, rule.targets);
    Compilations.ResolutionHasNoHybrid(rule, emitter);
    UsableAreKnown(rule, net, ts);
    Compilations.TargetsHaveNoHybrid(rule, net, source, emitter, ts);
  }

  /**
   Which legs a rule gets, exactly.

   One for each usable target and each feature that an opted-in kind takes over, or for each target
   naming the rule's own device when self-load was opted into; always from the rule's own control,
   and only when the device has told the scene or the indication the leg needs.
   */
  lemma HybridLegsAreExactly(rule: Rule, net: Network, source: DeviceCapabilities, emitter: Emitter, leg: HybridLeg)
    requires rule.enabled && SourceOf(rule, net) == Some(source) &&
      FindEmitter(source.emitters, rule.source.emitterId) == Some(emitter)
    ensures leg in Compile(rule, net).hybridLegs <==>
      IsLeg(rule, source, emitter, UsableTargets(rule, net, rule.targets), leg)
  {
    hide Compile;
    hide HybridOut;
    hide IsLeg;
    hide UsableTargets;
    OnlyHybridLegs(rule, net, source, emitter, leg);
    LegsOfHybrid(rule, source, emitter, UsableTargets(rule, net, rule.targets), leg);
  }

  /** A feature a leg took over is never also written as a link of the rule's own direction. */
  lemma TakenIsNotWritten(rule: Rule, net: Network, l: Link)
    requires Coherent(net) && l in Compile(rule, net).links && l.feature in Taken(rule)
    ensures l.source.Identity() != rule.source.device.Identity()
  {
    hide Decided;
    hide Frozen;
    hide TargetsOut;
    hide TargetOut;
    hide Usable;
    hide Taken;
    hide Coherent;
    FrozenLinks(Decided(rule, net));
    DecidedLinks(rule, net);
    var source := SourceOf(rule, net).value;
    var emitter := FindEmitter(source.emitters, rule.source.emitterId).value;
    var ts := UsableTargets(rule, net, rule.targets);
    UsableAreKnown(rule, net, ts);
    TargetsLinks(rule, net, source, emitter, ts, l);
    var t :| t in ts && l in TargetOut(rule, net, source, emitter, t).links;
    TakenIsOnlyReverse(rule, net, source, emitter, t, l);
  }

  lemma TakenIsOnlyReverse(rule: Rule, net: Network, source: DeviceCapabilities, emitter: Emitter, t: RuleTarget,
          l: Link)
    requires Coherent(net) && Usable(rule, net, t) && l.feature in Taken(rule)
    requires l in TargetOut(rule, net, source, emitter, t).links
    ensures l.source.Identity() != rule.source.device.Identity()
  {
    hide LegOut;
    hide Taken;
    var receiver := net[t.device.Identity()];
    var fs := FeatureList(Carried(rule, emitter));
    FeatureListIs(Carried(rule, emitter));
    LegLinks(rule, Leg(source, rule.source.endpoint, emitter, receiver, t.endpoint), fs, l);
    var back := FeatureList(Carried(rule, emitter) + Taken(rule).Keys);
    EmitterCarryingCarries(receiver.emitters, back);
    if EmitterCarrying(receiver.emitters, back).Some? {
      var e := EmitterCarrying(receiver.emitters, back).value;
      LegLinks(rule, Leg(receiver, e.endpoint, e, source, ReverseEndpoint(rule, source)), back, l);
    }
  }
}
