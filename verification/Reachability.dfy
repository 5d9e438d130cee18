/**
 The reachability evaluator that consumes the connections
 (backend/src/services/reachabilityPolicyService.ts), and what editing the firewall
 configuration can and cannot change in its decisions.
 */
module Reachability {
  import opened Wrappers
  import opened Topology
  import opened TopologyCompiler
  import TopologyPass

  datatype Expected = Allow | Block | Unknown

  /** Which sentence the evidence carries; the two `Inferred` forms are the source's last-resort branches. */
  datatype Basis = AllowedByRule | AllowedByDefault | AllowedInferred | BlockedByIsolation | BlockedByRule
      | BlockedInferred

  datatype Evidence = Evidence(expected: Expected, explicit: bool, basis: Basis, quoted: Option<RuleInfo>)

  datatype PolicySource = FromIntent | FromEffective | Hybrid | Conflict

  datatype Decision = Decision(
    expected: Expected, intentExpected: Expected, effectiveExpected: Expected,
    conflict: bool, confidence: real, policySource: PolicySource)

  function EvidenceFor(c: Connection): Evidence {
    var rule := if c.rules == [] then None else Some(c.rules[0]);
    if c.allowed then
      if rule.Some? then Evidence(Allow, true, AllowedByRule, rule)
      else if c.allowedByDefault then Evidence(Allow, false, AllowedByDefault, None)
      else Evidence(Allow, false, AllowedInferred, None)
    else if c.blockedByIsolation then Evidence(Block, true, BlockedByIsolation, None)
    else if rule.Some? then Evidence(Block, true, BlockedByRule, rule)
    else Evidence(Block, false, BlockedInferred, None)
  }

  /** Evidence tells the truth: its verdict, and the rule it quotes, are the ones that decide. */
  ghost predicate EvidenceMeans(cfg: Config, s: string, d: string, e: Evidence) {
    && (e.expected == if Allowed(cfg, s, d) then Allow else Block)
    && (e.explicit <==> Blocked(cfg, s, d) || !Uncovered(cfg, s, d))
    && e.basis == (
         if Allowed(cfg, s, d) then if Uncovered(cfg, s, d) then AllowedByDefault else AllowedByRule
         else if Blocked(cfg, s, d) then BlockedByIsolation else BlockedByRule)
    && (e.quoted.Some? <==> e.basis in {AllowedByRule, BlockedByRule})
    && (e.quoted.Some? ==>
          && Decides(cfg, e.quoted.value.origin, s, d)
          && (Permits(cfg, e.quoted.value.origin) <==> e.expected == Allow))
    && (e.quoted.None? ==> Blocked(cfg, s, d) || Uncovered(cfg, s, d))
  }

  lemma EvidenceIsTruthful(cfg: Config, c: Connection)
    requires ConnectionMeans(cfg, c)
    ensures EvidenceMeans(cfg, c.srcId, c.dstId, EvidenceFor(c))
  {
    var s, d := c.srcId, c.dstId;
    if c.rules == [] {
      assert Uncovered(cfg, s, d);
    } else {
      var h := c.rules[0].origin;
      assert Decides(cfg, h, s, d) && Covers(cfg, h, s, d);
      if g :| Decides(cfg, g, s, d) && Permits(cfg, g) {
        TopologyPass.DecisionUnique(cfg, g, h, s, d);
      }
    }
  }

  const WAN := "WAN"

  ghost predicate LanPair(cfg: Config, s: string, d: string) {
    IsNetwork(cfg, s) && IsNetwork(cfg, d) && s != d && s != WAN && d != WAN
  }

  ghost predicate MapMeans(cfg: Config, m: map<string, Evidence>) {
    && (forall s, d :: LanPair(cfg, s, d) ==> PairKey(s, d) in m && EvidenceMeans(cfg, s, d, m[PairKey(s, d)]))
    && (forall k :: k in m ==> exists s, d :: LanPair(cfg, s, d) && k == PairKey(s, d))
  }

  predicate Mapped(c: Connection) {
    c.srcId != WAN && c.dstId != WAN
  }

  function KeyOf(c: Connection): string {
    PairKey(c.srcId, c.dstId)
  }

  ghost predicate MapHolds(conns: seq<Connection>, n: nat, m: map<string, Evidence>)
    requires n <= |conns|
  {
    && (forall l :: 0 <= l < n && Mapped(conns[l]) ==>
      KeyOf(conns[l]) in m && m[KeyOf(conns[l])] == EvidenceFor(conns[l]))
    && (forall key :: key in m ==> exists l :: 0 <= l < n && Mapped(conns[l]) && key == KeyOf(conns[l]))
  }

  /** The loop itself: connections touching the internet node are skipped. */
  method FillMap(connections: seq<Connection>) returns (m: map<string, Evidence>)
    requires forall l, k :: 0 <= l < k < |connections| ==> KeyOf(connections[l]) != KeyOf(connections[k])
    ensures MapHolds(connections, |connections|, m)
  {
    m := map[];
    for k := 0 to |connections|
      invariant MapHolds(connections, k, m)
    {
      var c := connections[k];
      if c.dstId == WAN || c.srcId == WAN { continue; }
      m := m[KeyOf(c) := EvidenceFor(c)];
    }
  }

  method BuildEffectiveReachabilityMap(cfg: Config, connections: seq<Connection>) returns (m: map<string, Evidence>)
    requires WellFormed(cfg) && IsTopologyOf(cfg, connections)
    ensures MapMeans(cfg, m)
  {
    forall l, k | 0 <= l < k < |connections|
      ensures KeyOf(connections[l]) != KeyOf(connections[k])
    {
      KeysDiffer(cfg, connections, l, k);
    }
    m := FillMap(connections);
    MapComplete(cfg, connections, m);
  }

  lemma KeysDiffer(cfg: Config, conns: seq<Connection>, l: nat, k: nat)
    requires WellFormed(cfg) && IsTopologyOf(cfg, conns) && l < k < |conns|
    ensures KeyOf(conns[l]) != KeyOf(conns[k])
  {
    if KeyOf(conns[l]) == KeyOf(conns[k]) {
      ReadingUnambiguous(cfg);
      KeyDeterminesPair(ReadingOf(cfg), conns[l].srcId, conns[l].dstId, conns[k].srcId, conns[k].dstId);
    }
  }

  lemma MapComplete(cfg: Config, conns: seq<Connection>, m: map<string, Evidence>)
    requires IsTopologyOf(cfg, conns)
    requires MapHolds(conns, |conns|, m)
    ensures MapMeans(cfg, m)
  {
    forall s, d | LanPair(cfg, s, d)
      ensures PairKey(s, d) in m && EvidenceMeans(cfg, s, d, m[PairKey(s, d)])
    {
      var k :| 0 <= k < |conns| && conns[k].srcId == s && conns[k].dstId == d;
      assert Mapped(conns[k]);
      EvidenceIsTruthful(cfg, conns[k]);
    }
    forall key | key in m
      ensures exists s, d :: LanPair(cfg, s, d) && key == PairKey(s, d)
    {
      var l :| 0 <= l < |conns| && Mapped(conns[l]) && key == KeyOf(conns[l]);
      assert LanPair(cfg, conns[l].srcId, conns[l].dstId);
    }
  }

  function ToDecision(intent: Expected, evidence: Option<Evidence>): Decision {
    var effective := if evidence.Some? then evidence.value.expected else Unknown;
    if intent != Unknown && effective != Unknown && intent != effective then
      Decision(intent, intent, effective, true, 0.45, Conflict)
    else if intent != Unknown && effective != Unknown then
      Decision(intent, intent, effective, false, 0.95, Hybrid)
    else if intent != Unknown then
      Decision(intent, intent, effective, false, 0.72, FromIntent)
    else if effective != Unknown then
      Decision(effective, intent, effective, false, 0.7, FromEffective)
    else
      Decision(Unknown, intent, effective, false, 0.2, Hybrid)
  }

  /** The evaluator: `intent` is the intent profile's expectation for the two networks' categories. */
  function Evaluate(m: map<string, Evidence>, intent: Expected, s: string, d: string): Decision {
    ToDecision(intent, if PairKey(s, d) in m then Some(m[PairKey(s, d)]) else None)
  }

  // ---------- Editing the configuration ----------

  ghost predicate SameNetworks(cfg: Config, cfg': Config) {
    && |cfg.networks| == |cfg'.networks|
    && (forall i :: 0 <= i < |cfg.networks| ==>
          && cfg.networks[i].id == cfg'.networks[i].id && cfg.networks[i].name == cfg'.networks[i].name
          && cfg.networks[i].subnet == cfg'.networks[i].subnet)
    && cfg.groups == cfg'.groups
  }

  lemma SameExplicit(cfg: Config, cfg': Config, ref: string, groups: seq<string>, id: string)
    requires SameNetworks(cfg, cfg') && NamesExplicitly(cfg, ref, groups, id)
    ensures NamesExplicitly(cfg', ref, groups, id)
  {
    if ref != "" && Refers(cfg, ref, id) {
      var i :| 0 <= i < |cfg.networks| && cfg.networks[i].id == id && NamedBy(cfg.networks[i], ref)
               && forall j :: 0 <= j < i ==> !NamedBy(cfg.networks[j], ref);
      assert cfg'.networks[i].id == id && NamedBy(cfg'.networks[i], ref);
      assert Refers(cfg', ref, id);
    } else {
      var g :| g in groups && InGroup(cfg, g, id);
      var m, i :| m in cfg.groups[g] && 0 <= i < |cfg.networks| && cfg.networks[i].id == id
        && MemberDenotes(cfg.networks[i], m);
      assert MemberDenotes(cfg'.networks[i], m);
      assert InGroup(cfg', g, id);
    }
  }

  lemma SameSelects(cfg: Config, cfg': Config, ref: string, groups: seq<string>, private: bool, id: string)
    requires SameNetworks(cfg, cfg') && Selects(cfg, ref, groups, private, id)
    ensures Selects(cfg', ref, groups, private, id)
  {
    if NamesExplicitly(cfg, ref, groups, id) {
      SameExplicit(cfg, cfg', ref, groups, id);
    } else {
      forall x
        ensures !NamesExplicitly(cfg', ref, groups, x)
      {
        if NamesExplicitly(cfg', ref, groups, x) { SameExplicit(cfg', cfg, ref, groups, x); }
      }
      SameIds(cfg, cfg', id);
    }
  }

  lemma SameIds(cfg: Config, cfg': Config, id: string)
    requires SameNetworks(cfg, cfg')
    ensures IsNetwork(cfg, id) <==> IsNetwork(cfg', id)
  {
    if i :| 0 <= i < |cfg.networks| && cfg.networks[i].id == id { assert cfg'.networks[i].id == id; }
    if i :| 0 <= i < |cfg'.networks| && cfg'.networks[i].id == id { assert cfg.networks[i].id == id; }
  }

  /** The same rule or policy, at another list position of an equivalent configuration, covers the same pairs. */
  lemma SameCoverage(cfg: Config, h: Hit, cfg': Config, h': Hit, s: string, d: string)
    requires SameNetworks(cfg, cfg') && IsHit(cfg, h) && IsHit(cfg', h')
    requires
      match (h, h') {
        case (Legacy(i), Legacy(j)) => cfg.rules[i] == cfg'.rules[j]
        case (Policy(i), Policy(j)) => cfg.policies[i] == cfg'.policies[j]
        case _ => false
      }
    requires Covers(cfg, h, s, d)
    ensures Covers(cfg', h', s, d)
  {
    SameIds(cfg, cfg', s);
    SameIds(cfg, cfg', d);
    if h.Legacy? {
      var rule := cfg.rules[h.i];
      SameSelects(cfg, cfg', rule.srcNetwork, rule.srcGroups, MentionsPrivateRange(rule), s);
      SameSelects(cfg, cfg', rule.dstNetwork, rule.dstGroups, MentionsPrivateRange(rule), d);
    }
  }

  /** Rule `k` can never be the first match: every pair it covers has an outranking rule. */
  ghost predicate Shadowed(cfg: Config, k: nat) {
    k < |cfg.rules| &&
    forall s, d :: Covers(cfg, Legacy(k), s, d) ==>
      exists j :: 0 <= j < |cfg.rules| && j != k && Covers(cfg, Legacy(j), s, d) && Outranks(cfg, Legacy(j), Legacy(k))
  }

  function WithoutRule(cfg: Config, k: nat): Config
    requires k < |cfg.rules|
  {
    cfg.(rules := cfg.rules[..k] + cfg.rules[k + 1..])
  }

  /** Position of a surviving rule after rule `k` is removed. */
  function Renumber(h: Hit, k: nat): Hit
    requires h != Legacy(k)
  {
    if h.Legacy? && h.i > k then Legacy(h.i - 1) else h
  }

  function Restore(h: Hit, k: nat): Hit {
    if h.Legacy? && h.i >= k then Legacy(h.i + 1) else h
  }

  lemma RemovalKeepsCoverage(cfg: Config, k: nat, h: Hit, s: string, d: string)
    requires k < |cfg.rules| && h != Legacy(k)
    ensures Covers(cfg, h, s, d) <==> Covers(WithoutRule(cfg, k), Renumber(h, k), s, d)
  {
    var cfg' := WithoutRule(cfg, k);
    if IsHit(cfg, h) {
      if Covers(cfg, h, s, d) { SameCoverage(cfg, h, cfg', Renumber(h, k), s, d); }
      if Covers(cfg', Renumber(h, k), s, d) { SameCoverage(cfg', Renumber(h, k), cfg, h, s, d); }
    }
  }

  lemma RemovalKeepsRank(cfg: Config, k: nat, g: Hit, h: Hit)
    requires k < |cfg.rules| && g != Legacy(k) && h != Legacy(k) && IsHit(cfg, g) && IsHit(cfg, h)
    ensures IsHit(WithoutRule(cfg, k), Renumber(g, k)) && IsHit(WithoutRule(cfg, k), Renumber(h, k))
    ensures Outranks(cfg, g, h) <==> Outranks(WithoutRule(cfg, k), Renumber(g, k), Renumber(h, k))
    ensures Permits(cfg, h) <==> Permits(WithoutRule(cfg, k), Renumber(h, k))
  {
  }

  /** The decision survives the removal of a shadowed rule. */
  lemma RemovalKeepsDecision(cfg: Config, k: nat, h: Hit, s: string, d: string)
    requires Shadowed(cfg, k) && Decides(cfg, h, s, d)
    ensures h != Legacy(k) && Decides(WithoutRule(cfg, k), Renumber(h, k), s, d)
    ensures Permits(cfg, h) <==> Permits(WithoutRule(cfg, k), Renumber(h, k))
  {
    var cfg' := WithoutRule(cfg, k);
    assert h != Legacy(k);
    RemovalKeepsCoverage(cfg, k, h, s, d);
    RemovalKeepsRank(cfg, k, h, h);
    forall g | Covers(cfg', g, s, d) && g != Renumber(h, k)
      ensures Outranks(cfg', Renumber(h, k), g)
    {
      var g0 := Restore(g, k);
      assert Renumber(g0, k) == g;
      RemovalKeepsCoverage(cfg, k, g0, s, d);
      RemovalKeepsRank(cfg, k, h, g0);
    }
  }

  /** Every pair that anything covers has a deciding rule or policy. */
  lemma CoveredIsDecided(cfg: Config, s: string, d: string)
    requires !Uncovered(cfg, s, d)
    ensures exists h :: Decides(cfg, h, s, d)
  {
    TopologyPass.FirstHitDecides(cfg, s, d);
    var first := FirstHit(ReadingOf(cfg), TopologyPass.FullOrder(cfg), s, d);
    assert Decides(cfg, first.value, s, d);
  }

  /** Removing a shadowed legacy rule changes no pair's verdict. */
  lemma RemovingShadowedRule(cfg: Config, k: nat, s: string, d: string)
    requires Shadowed(cfg, k)
    ensures Allowed(WithoutRule(cfg, k), s, d) <==> Allowed(cfg, s, d)
  {
    var cfg' := WithoutRule(cfg, k);
    if Uncovered(cfg, s, d) {
      forall h
        ensures !Covers(cfg', h, s, d)
      {
        RemovalKeepsCoverage(cfg, k, Restore(h, k), s, d);
        assert Renumber(Restore(h, k), k) == h;
      }
      assert Uncovered(cfg', s, d);
    } else {
      CoveredIsDecided(cfg, s, d);
      var h :| Decides(cfg, h, s, d);
      RemovalKeepsDecision(cfg, k, h, s, d);
      SameVerdict(cfg, h, cfg', Renumber(h, k), s, d);
    }
    assert Blocked(cfg', s, d) <==> Blocked(cfg, s, d);
  }

  lemma SameVerdict(cfg: Config, h: Hit, cfg': Config, h': Hit, s: string, d: string)
    requires Decides(cfg, h, s, d) && Decides(cfg', h', s, d)
    requires Permits(cfg, h) <==> Permits(cfg', h')
    ensures PermittedByRules(cfg, s, d) <==> PermittedByRules(cfg', s, d)
  {
    if g :| Decides(cfg, g, s, d) && Permits(cfg, g) { TopologyPass.DecisionUnique(cfg, g, h, s, d); }
    if g :| Decides(cfg', g, s, d) && Permits(cfg', g) { TopologyPass.DecisionUnique(cfg', g, h', s, d); }
  }

  /** Two evidence maps that answer every query with the same expectation. */
  ghost predicate Agree(m: map<string, Evidence>, m': map<string, Evidence>) {
    m.Keys == m'.Keys && forall key :: key in m ==> m[key].expected == m'[key].expected
  }

  /** The map answers for exactly these pairs, and each answer is the given verdict. */
  ghost predicate Answers(
    pairs: (string, string) -> bool, verdict: (string, string) -> bool, m: map<string, Evidence>) {
    && (forall s, d :: pairs(s, d) ==>
      PairKey(s, d) in m && m[PairKey(s, d)].expected == if verdict(s, d) then Allow else Block)
    && (forall key :: key in m ==> exists s, d :: pairs(s, d) && key == PairKey(s, d))
  }

  ghost function PairsOf(cfg: Config): (string, string) -> bool {
    (s, d) => LanPair(cfg, s, d)
  }

  ghost function VerdictsOf(cfg: Config): (string, string) -> bool {
    (s, d) => Allowed(cfg, s, d)
  }

  lemma MapAnswers(cfg: Config, m: map<string, Evidence>)
    requires MapMeans(cfg, m)
    ensures Answers(PairsOf(cfg), VerdictsOf(cfg), m)
  {
    forall key | key in m
      ensures exists s, d :: PairsOf(cfg)(s, d) && key == PairKey(s, d)
    {
      var s, d :| LanPair(cfg, s, d) && key == PairKey(s, d);
      assert PairsOf(cfg)(s, d);
    }
  }

  lemma SameAnswersAgree(
    pairs: (string, string) -> bool, verdict: (string, string) -> bool, pairs': (string, string) -> bool,
    verdict': (string, string) -> bool, m: map<string, Evidence>, m': map<string, Evidence>)
    requires Answers(pairs, verdict, m) && Answers(pairs', verdict', m')
    requires forall s, d :: pairs(s, d) == pairs'(s, d) && verdict(s, d) == verdict'(s, d)
    ensures Agree(m, m')
  {
    forall key
      ensures key in m <==> key in m'
      ensures key in m ==> m[key].expected == m'[key].expected
    {
      if key in m {
        var s, d :| pairs(s, d) && key == PairKey(s, d);
        assert pairs'(s, d);
      }
      if key in m' {
        var s, d :| pairs'(s, d) && key == PairKey(s, d);
        assert pairs(s, d);
      }
    }
  }

  lemma SameVerdicts(cfg: Config, k: nat, s: string, d: string)
    requires Shadowed(cfg, k)
    ensures PairsOf(cfg)(s, d) == PairsOf(WithoutRule(cfg, k))(s, d)
    ensures VerdictsOf(cfg)(s, d) == VerdictsOf(WithoutRule(cfg, k))(s, d)
  {
    RemovingShadowedRule(cfg, k, s, d);
  }

  lemma RemovingShadowedRuleKeepsEvidence(
    cfg: Config, k: nat, before: map<string, Evidence>, after: map<string, Evidence>)
    requires Shadowed(cfg, k) && MapMeans(cfg, before) && MapMeans(WithoutRule(cfg, k), after)
    ensures Agree(before, after)
  {
    var cfg' := WithoutRule(cfg, k);
    MapAnswers(cfg, before);
    MapAnswers(cfg', after);
    forall s, d {
      SameVerdicts(cfg, k, s, d);
    }
    SameAnswersAgree(PairsOf(cfg), VerdictsOf(cfg), PairsOf(cfg'), VerdictsOf(cfg'), before, after);
  }

  /** ... and so no evaluator decision, for any intent and any pair of ids asked about. */
  lemma RemovingShadowedRuleKeepsDecisions(
    cfg: Config, k: nat, before: map<string, Evidence>, after: map<string, Evidence>, intent: Expected, s: string,
    d: string)
    requires Shadowed(cfg, k) && MapMeans(cfg, before) && MapMeans(WithoutRule(cfg, k), after)
    ensures Evaluate(after, intent, s, d) == Evaluate(before, intent, s, d)
  {
    RemovingShadowedRuleKeepsEvidence(cfg, k, before, after);
    AgreeingMapsDecideAlike(before, after, intent, s, d);
  }

  lemma AgreeingMapsDecideAlike(
    m: map<string, Evidence>, m': map<string, Evidence>, intent: Expected, s: string, d: string)
    requires Agree(m, m')
    ensures Evaluate(m', intent, s, d) == Evaluate(m, intent, s, d)
  {
  }

  /** What the configuration itself says of two ids: nothing unless they are two LAN networks. */
  ghost function ActualPolicy(
    pairs: (string, string) -> bool, verdict: (string, string) -> bool, s: string, d: string): Expected {
    if !pairs(s, d) then Unknown else if verdict(s, d) then Allow else Block
  }

  /** The ids asked about share the key of some other pair of networks. */
  ghost predicate Mistaken(pairs: (string, string) -> bool, s: string, d: string) {
    exists a, b :: pairs(a, b) && (KeysMeet(s, d, a, b) || KeysMeet(a, b, s, d))
  }

  lemma AnswerAt(
    m: map<string, Evidence>, pairs: (string, string) -> bool, verdict: (string, string) -> bool, s: string,
    d: string)
    requires Answers(pairs, verdict, m)
    ensures PairKey(s, d) in m <==> pairs(s, d) || Mistaken(pairs, s, d)
    ensures pairs(s, d) ==> m[PairKey(s, d)].expected == if verdict(s, d) then Allow else Block
    ensures PairKey(s, d) in m ==> m[PairKey(s, d)].expected != Unknown
  {
    if PairKey(s, d) in m {
      var a, b :| pairs(a, b) && PairKey(s, d) == PairKey(a, b);
      SameKeyIff(s, d, a, b);
    }
    if Mistaken(pairs, s, d) {
      var a, b :| pairs(a, b) && (KeysMeet(s, d, a, b) || KeysMeet(a, b, s, d));
      SameKeyIff(s, d, a, b);
    }
  }

  /** A decision against what is actually the case. */
  predicate Judges(decision: Decision, intent: Expected, actual: Expected) {
    && decision.effectiveExpected == actual
    && (decision.conflict <==> intent != Unknown && actual != Unknown && intent != actual)
    && decision.expected == (if intent == Unknown then actual else intent)
    && decision.intentExpected == intent
    && decision.policySource == (
         if decision.conflict then Conflict else if intent == Unknown && actual != Unknown then FromEffective
         else if intent != Unknown && actual == Unknown then FromIntent else Hybrid)
    && decision.confidence == (
         if decision.conflict then 0.45 else if intent == Unknown && actual == Unknown then 0.2
         else if intent == Unknown then 0.7 else if actual == Unknown then 0.72 else 0.95)
  }

  lemma DecisionJudges(
    m: map<string, Evidence>, pairs: (string, string) -> bool, verdict: (string, string) -> bool, intent: Expected,
    s: string, d: string)
    requires Answers(pairs, verdict, m)
    ensures Judges(Evaluate(m, intent, s, d), intent, ActualPolicy(pairs, verdict, s, d)) <==>
      pairs(s, d) || !Mistaken(pairs, s, d)
  {
    AnswerAt(m, pairs, verdict, s, d);
  }

  /**
   What the evaluator reports against what the configuration does - a conflict exactly when a known intent is
   contradicted, the intent's own verdict whenever it has one, full confidence exactly when both agree - is right
   exactly when the ids are two LAN networks, or are not mistaken for two others.
   */
  lemma DecisionTellsTheTruth(cfg: Config, m: map<string, Evidence>, intent: Expected, s: string, d: string)
    requires MapMeans(cfg, m)
    ensures Judges(Evaluate(m, intent, s, d), intent, ActualPolicy(PairsOf(cfg), VerdictsOf(cfg), s, d))
            <==> LanPair(cfg, s, d) || !Mistaken(PairsOf(cfg), s, d)
  {
    MapAnswers(cfg, m);
    DecisionJudges(m, PairsOf(cfg), VerdictsOf(cfg), intent, s, d);
  }

  /** `cfg'` is `cfg` with more isolation: flags switched on, or L3 ACL entries added. */
  ghost predicate MoreIsolated(cfg: Config, cfg': Config) {
    && SameNetworks(cfg, cfg') && cfg.rules == cfg'.rules && cfg.policies == cfg'.policies
    && (forall i :: 0 <= i < |cfg.networks| && cfg.networks[i].networkIsolation ==> cfg'.networks[i].networkIsolation)
    && (forall e :: e in cfg.acl ==> e in cfg'.acl)
  }

  /** Adding isolation never opens a path. */
  lemma IsolationOnlyCloses(cfg: Config, cfg': Config, s: string, d: string)
    requires MoreIsolated(cfg, cfg') && Allowed(cfg', s, d)
    ensures Allowed(cfg, s, d)
  {
    if Isolated(cfg, s, d) { IsolationKept(cfg, cfg', s, d); }
    if Isolated(cfg, d, s) { IsolationKept(cfg, cfg', d, s); }
    forall h
      ensures Covers(cfg, h, s, d) <==> Covers(cfg', h, s, d)
    {
      if Covers(cfg, h, s, d) { SameCoverage(cfg, h, cfg', h, s, d); }
      if Covers(cfg', h, s, d) { SameCoverage(cfg', h, cfg, h, s, d); }
    }
    if !Uncovered(cfg, s, d) {
      CoveredIsDecided(cfg, s, d);
      var h :| Decides(cfg, h, s, d);
      assert Decides(cfg', h, s, d);
      SameVerdict(cfg, h, cfg', h, s, d);
    }
  }

  lemma IsolationKept(cfg: Config, cfg': Config, s: string, d: string)
    requires MoreIsolated(cfg, cfg') && Isolated(cfg, s, d)
    ensures Isolated(cfg', s, d)
  {
    if AclBlocks(cfg, s, d) {
      var k :| 0 <= k < |cfg.acl| && AclEntryBlocks(cfg.acl[k], s, d);
      assert cfg.acl[k] in cfg'.acl;
      var l :| 0 <= l < |cfg'.acl| && cfg'.acl[l] == cfg.acl[k];
      assert AclEntryBlocks(cfg'.acl[l], s, d);
    } else {
      var id := if HasIsolation(cfg, s) then s else d;
      var i :| 0 <= i < |cfg.networks| && cfg.networks[i].id == id && cfg.networks[i].networkIsolation;
      assert cfg'.networks[i].id == id && cfg'.networks[i].networkIsolation;
    }
  }
}
