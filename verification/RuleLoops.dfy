/** Loop analysis over what the rules really compile to. */
module RuleLoops {
  import opened Wrappers
  import opened Models
  import opened Fingerprints
  import opened Compiler
  import opened CompilerProperties
  import opened Loops

  /** Each rule with what it compiles to, enabled or not, as the analysis is given them. */
  function CompiledPairs(rules: seq<Rule>, net: Network): seq<(string, CompiledRule)> {
    seq(|rules|, i requires 0 <= i < |rules| => (rules[i].id, Compile(rules[i].WithEnabled(true), net)))
  }

  /** No compiled link drives its own device. */
  ghost predicate JoinsTwo(l: Link) {
    l.source.Identity() != l.target.handle.Identity()
  }

  lemma {:induction false} WiresJoinTwo(compiled: seq<(string, CompiledRule)>, enabled: set<string>)
    requires forall p | p in compiled :: forall l | l in p.1.links :: JoinsTwo(l)
    ensures forall w | w in Wires(compiled, enabled) :: JoinsTwo(w.link)
  {
    hide JoinsTwo;
    if compiled != [] {
      assert compiled[0] in compiled;
      WiresJoinTwo(compiled[1..], enabled);
      var first := Tagged(compiled[0].1.links, compiled[0].0);
      forall w | w in first ensures JoinsTwo(w.link) {
        var i :| 0 <= i < |first| && first[i] == w;
        assert compiled[0].1.links[i] in compiled[0].1.links;
      }
    }
  }

  /**
   Every round trip of commands along links of enabled rules, between devices that repeat them, is
   inside exactly one reported loop.
   */
  lemma EveryCycleOfRulesIsReported(rules: seq<Rule>, net: Network, observed: map<string, map<string, int>>,
          loops: seq<Loop>, p: seq<string>)
    requires Coherent(net)
    requires ExactlyTheLoops(loops, Wires(CompiledPairs(rules, net), EnabledIds(rules)),
      ForwardingDevices(rules, observed), rules)
    requires ClosedWalk(Wires(CompiledPairs(rules, net), EnabledIds(rules)), ForwardingDevices(rules, observed), p)
    ensures exists i | 0 <= i < |loops| :: LiesInOnly(p, loops, i)
  {
    hide Compile;
    hide ExactlyTheLoops;
    hide ClosedWalk;
    hide Wires;
    hide ForwardingDevices;
    hide Coherent;
    hide LiesInOnly;
    var compiled := CompiledPairs(rules, net);
    forall q | q in compiled ensures forall l | l in q.1.links :: JoinsTwo(l) {
      var i :| 0 <= i < |compiled| && compiled[i] == q;
      forall l | l in q.1.links ensures JoinsTwo(l) {
        CompilationIsSound(rules[i].WithEnabled(true), net, l);
      }
    }
    WiresJoinTwo(compiled, EnabledIds(rules));
    ClosedWalkIsReported(loops, Wires(compiled, EnabledIds(rules)), ForwardingDevices(rules, observed), rules, p);
  }
}
