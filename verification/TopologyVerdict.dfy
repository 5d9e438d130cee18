/**
 The verdicts of the topology in the configuration's own words: which rules and policies cover a pair, which of them
 decides, what its action means, and what isolation does.
 */
module TopologyVerdict {
  import opened Wrappers
  import opened Topology
  import TopologyPass
  import Reachability
  import Text

  // ---------- Which rules and policies cover a pair ----------

  /** The texts of a rule that widen a side naming no network. */
  const PRIVATE_RANGES := ["rfc1918", "10.0.0.0", "192.168.", "172.16."]

  /** `id` is the first network in the list with this name or id. */
  ghost predicate IsReferenced(cfg: Config, ref: string, id: string) {
    exists i :: 0 <= i < |cfg.networks| && cfg.networks[i].id == id
                && (cfg.networks[i].name == ref || cfg.networks[i].id == ref)
                && forall j :: 0 <= j < i ==> cfg.networks[j].name != ref && cfg.networks[j].id != ref
  }

  /** Some member of the group is the network's id, subnet or name. */
  ghost predicate IsMember(cfg: Config, group: string, id: string) {
    group in cfg.groups && exists m, i ::
      && m in cfg.groups[group] && 0 <= i < |cfg.networks| && cfg.networks[i].id == id
      && (cfg.networks[i].id == m || cfg.networks[i].subnet == Some(m) || cfg.networks[i].name == m)
  }

  ghost predicate IsGrouped(cfg: Config, groups: seq<string>, id: string) {
    exists g :: g in groups && IsMember(cfg, g, id)
  }

  ghost predicate IsNamed(cfg: Config, ref: string, groups: seq<string>, id: string) {
    (ref != "" && IsReferenced(cfg, ref, id)) || IsGrouped(cfg, groups, id)
  }

  ghost predicate OnSide(cfg: Config, rule: FirewallRule, ref: string, groups: seq<string>, id: string) {
    || IsNamed(cfg, ref, groups, id)
    || ((forall x :: !IsNamed(cfg, ref, groups, x))
        && exists k :: 0 <= k < |PRIVATE_RANGES| && Text.Includes(Text.Lower(rule.rendering), PRIVATE_RANGES[k]))
  }

  lemma ReferencedIff(cfg: Config, ref: string, id: string)
    ensures Refers(cfg, ref, id) <==> IsReferenced(cfg, ref, id)
  {
    if Refers(cfg, ref, id) {
      var i :| 0 <= i < |cfg.networks| && cfg.networks[i].id == id && NamedBy(cfg.networks[i], ref)
               && forall j :: 0 <= j < i ==> !NamedBy(cfg.networks[j], ref);
      assert forall j :: 0 <= j < i ==> !NamedBy(cfg.networks[j], ref);
    }
    if IsReferenced(cfg, ref, id) {
      var i :| 0 <= i < |cfg.networks| && cfg.networks[i].id == id
               && (cfg.networks[i].name == ref || cfg.networks[i].id == ref)
               && forall j :: 0 <= j < i ==> cfg.networks[j].name != ref && cfg.networks[j].id != ref;
      assert NamedBy(cfg.networks[i], ref);
    }
  }

  lemma MemberIff(cfg: Config, group: string, id: string)
    ensures InGroup(cfg, group, id) <==> IsMember(cfg, group, id)
  {
    if InGroup(cfg, group, id) {
      var m, i :|
        m in cfg.groups[group] && 0 <= i < |cfg.networks| && cfg.networks[i].id == id
        && MemberDenotes(cfg.networks[i], m);
      assert m in cfg.groups[group] && cfg.networks[i].id == id;
    }
    if IsMember(cfg, group, id) {
      var m, i :|
        && m in cfg.groups[group] && 0 <= i < |cfg.networks| && cfg.networks[i].id == id
        && (cfg.networks[i].id == m || cfg.networks[i].subnet == Some(m) || cfg.networks[i].name == m);
      assert MemberDenotes(cfg.networks[i], m);
    }
  }

  lemma GroupedIff(cfg: Config, groups: seq<string>, id: string)
    ensures (exists g :: g in groups && InGroup(cfg, g, id)) <==> IsGrouped(cfg, groups, id)
  {
    forall g | g in groups
      ensures InGroup(cfg, g, id) <==> IsMember(cfg, g, id)
    {
      MemberIff(cfg, g, id);
    }
  }

  lemma NamedIff(cfg: Config, ref: string, groups: seq<string>, id: string)
    ensures NamesExplicitly(cfg, ref, groups, id) <==> IsNamed(cfg, ref, groups, id)
  {
    ReferencedIff(cfg, ref, id);
    GroupedIff(cfg, groups, id);
  }

  lemma PrivateIff(rule: FirewallRule)
    ensures MentionsPrivateRange(rule) <==>
      exists k :: 0 <= k < |PRIVATE_RANGES| && Text.Includes(Text.Lower(rule.rendering), PRIVATE_RANGES[k])
  {
    var text := Text.Lower(rule.rendering);
    assert Text.Includes(text, PRIVATE_RANGES[0]) <==> Text.Includes(text, "rfc1918");
    assert Text.Includes(text, PRIVATE_RANGES[1]) <==> Text.Includes(text, "10.0.0.0");
    assert Text.Includes(text, PRIVATE_RANGES[2]) <==> Text.Includes(text, "192.168.");
    assert Text.Includes(text, PRIVATE_RANGES[3]) <==> Text.Includes(text, "172.16.");
  }

  lemma SideIff(cfg: Config, rule: FirewallRule, ref: string, groups: seq<string>, id: string)
    requires IsNetwork(cfg, id)
    ensures Selects(cfg, ref, groups, MentionsPrivateRange(rule), id) <==> OnSide(cfg, rule, ref, groups, id)
  {
    PrivateIff(rule);
    forall x
      ensures NamesExplicitly(cfg, ref, groups, x) <==> IsNamed(cfg, ref, groups, x)
    {
      NamedIff(cfg, ref, groups, x);
    }
  }

  /** A legacy rule covers a pair of networks exactly if it is an enabled LAN rule with the two on its two sides. */
  lemma RuleCoversIff(cfg: Config, i: nat, s: string, d: string)
    requires i < |cfg.rules| && IsPair(cfg, s, d)
    ensures
      var rule := cfg.rules[i];
      Covers(cfg, Legacy(i), s, d) <==>
        && rule.enabled && Text.Includes(Text.Lower(rule.ruleset), "lan")
        && OnSide(cfg, rule, rule.srcNetwork, rule.srcGroups, s)
        && OnSide(cfg, rule, rule.dstNetwork, rule.dstGroups, d)
  {
    var rule := cfg.rules[i];
    SideIff(cfg, rule, rule.srcNetwork, rule.srcGroups, s);
    SideIff(cfg, rule, rule.dstNetwork, rule.dstGroups, d);
  }

  /** What a policy's side selects: the networks it lists, or all of them if it says ANY. */
  predicate Lists(side: PolicySide) {
    side.matchingTarget == "NETWORK" && |side.networkIds| > 0
  }

  predicate OnPolicySide(side: PolicySide, id: string) {
    (Lists(side) && id in side.networkIds) || side.matchingTarget == "ANY"
  }

  /** A policy covers a pair of networks exactly if it is enabled, not predefined, and lists networks on some side. */
  lemma PolicyCoversIff(cfg: Config, i: nat, s: string, d: string)
    requires i < |cfg.policies| && IsPair(cfg, s, d)
    ensures
      var p := cfg.policies[i];
      Covers(cfg, Policy(i), s, d) <==>
        && p.enabled && !p.predefined && (Lists(p.source) || Lists(p.destination))
        && OnPolicySide(p.source, s) && OnPolicySide(p.destination, d)
  {
  }

  // ---------- Which of them decides ----------

  lemma FirstRuleDecides(cfg: Config, i: nat, s: string, d: string)
    requires i < |cfg.rules| && Covers(cfg, Legacy(i), s, d)
    requires forall j: nat :: j < |cfg.rules| && j != i && Covers(cfg, Legacy(j), s, d) ==>
      var one, other := cfg.rules[i].ruleIndex, cfg.rules[j].ruleIndex;
      one < other || (one == other && i < j)
    ensures Decides(cfg, Legacy(i), s, d)
  {
    forall g | Covers(cfg, g, s, d) && g != Legacy(i)
      ensures Outranks(cfg, Legacy(i), g)
    {
      assert g == if g.Policy? then Policy(g.i) else Legacy(g.i);
    }
  }

  lemma FirstPolicyDecides(cfg: Config, i: nat, s: string, d: string)
    requires i < |cfg.policies| && Covers(cfg, Policy(i), s, d)
    requires forall j: nat :: j < |cfg.rules| ==> !Covers(cfg, Legacy(j), s, d)
    requires forall j: nat :: j < |cfg.policies| && j != i && Covers(cfg, Policy(j), s, d) ==>
      var one, other := cfg.policies[i].index, cfg.policies[j].index;
      one < other || (one == other && i < j)
    ensures Decides(cfg, Policy(i), s, d)
  {
    forall g | Covers(cfg, g, s, d) && g != Policy(i)
      ensures Outranks(cfg, Policy(i), g)
    {
      assert g == if g.Policy? then Policy(g.i) else Legacy(g.i);
    }
  }

  /** A covered pair always has such a rule or, where no rule covers it, such a policy. */
  lemma SomethingIsFirst(cfg: Config, s: string, d: string) returns (h: Hit)
    requires exists g :: Covers(cfg, g, s, d)
    ensures Covers(cfg, h, s, d)
    ensures h.Legacy? ==> forall j: nat :: j < |cfg.rules| && j != h.i && Covers(cfg, Legacy(j), s, d) ==>
      var one, other := cfg.rules[h.i].ruleIndex, cfg.rules[j].ruleIndex;
      one < other || (one == other && h.i < j)
    ensures h.Policy? ==> forall j: nat :: j < |cfg.rules| ==> !Covers(cfg, Legacy(j), s, d)
    ensures h.Policy? ==> forall j: nat :: j < |cfg.policies| && j != h.i && Covers(cfg, Policy(j), s, d) ==>
      var one, other := cfg.policies[h.i].index, cfg.policies[j].index;
      one < other || (one == other && h.i < j)
  {
    Reachability.CoveredIsDecided(cfg, s, d);
    h :| Decides(cfg, h, s, d);
    OutrankedRules(cfg, h, s, d);
    OutrankedPolicies(cfg, h, s, d);
  }

  lemma OutrankedRules(cfg: Config, h: Hit, s: string, d: string)
    requires Decides(cfg, h, s, d)
    ensures forall j: nat :: j < |cfg.rules| && Legacy(j) != h && Covers(cfg, Legacy(j), s, d) ==>
      h.Legacy?
      && (cfg.rules[h.i].ruleIndex < cfg.rules[j].ruleIndex
          || (cfg.rules[h.i].ruleIndex == cfg.rules[j].ruleIndex && h.i < j))
  {
    forall j: nat | j < |cfg.rules| && Legacy(j) != h && Covers(cfg, Legacy(j), s, d)
      ensures Outranks(cfg, h, Legacy(j))
    {
    }
  }

  lemma OutrankedPolicies(cfg: Config, h: Hit, s: string, d: string)
    requires Decides(cfg, h, s, d)
    ensures h.Policy? ==> forall j: nat :: j < |cfg.policies| && Policy(j) != h && Covers(cfg, Policy(j), s, d) ==>
      cfg.policies[h.i].index < cfg.policies[j].index
      || (cfg.policies[h.i].index == cfg.policies[j].index && h.i < j)
  {
    forall j: nat | j < |cfg.policies| && Policy(j) != h && Covers(cfg, Policy(j), s, d)
      ensures Outranks(cfg, h, Policy(j))
    {
    }
  }

  // ---------- The verdicts ----------

  lemma HasIsolationIff(cfg: Config, id: string)
    ensures HasIsolation(cfg, id) <==>
      exists i :: 0 <= i < |cfg.networks| && cfg.networks[i].networkIsolation && cfg.networks[i].id == id
  {
  }

  lemma AclBlocksIff(cfg: Config, s: string, d: string)
    ensures AclBlocks(cfg, s, d) <==>
      exists k :: 0 <= k < |cfg.acl| && cfg.acl[k].sourceNetwork == s && d in cfg.acl[k].destinationNetworks
  {
    if AclBlocks(cfg, s, d) {
      var k :| 0 <= k < |cfg.acl| && AclEntryBlocks(cfg.acl[k], s, d);
      assert cfg.acl[k].sourceNetwork == s;
    }
    if k :| 0 <= k < |cfg.acl| && cfg.acl[k].sourceNetwork == s && d in cfg.acl[k].destinationNetworks {
      assert AclEntryBlocks(cfg.acl[k], s, d);
    }
  }

  /**
   A connection is blocked by isolation exactly if one of its networks keeps to itself or an entry of the switches
   blocks either direction; no such connection is allowed.
   */
  lemma IsolationVerdict(cfg: Config, conns: seq<Connection>, k: nat)
    requires IsTopologyOf(cfg, conns) && k < |conns|
    ensures
      var c := conns[k];
      c.blockedByIsolation <==>
        || (exists i :: 0 <= i < |cfg.networks| && cfg.networks[i].networkIsolation
                        && (cfg.networks[i].id == c.srcId || cfg.networks[i].id == c.dstId))
        || (exists e :: e in cfg.acl && e.sourceNetwork == c.srcId && c.dstId in e.destinationNetworks)
        || (exists e :: e in cfg.acl && e.sourceNetwork == c.dstId && c.srcId in e.destinationNetworks)
    ensures conns[k].blockedByIsolation ==> !conns[k].allowed && !conns[k].allowedByDefault
  {
    var c := conns[k];
    HasIsolationIff(cfg, c.srcId);
    HasIsolationIff(cfg, c.dstId);
    AclBlocksIff(cfg, c.srcId, c.dstId);
    AclBlocksIff(cfg, c.dstId, c.srcId);
  }

  lemma DecidedVerdict(cfg: Config, h: Hit, s: string, d: string)
    requires Decides(cfg, h, s, d)
    ensures PermittedByRules(cfg, s, d) <==> Permits(cfg, h)
  {
    if g :| Decides(cfg, g, s, d) && Permits(cfg, g) { TopologyPass.DecisionUnique(cfg, g, h, s, d); }
  }

  /** What the other fields of a connection are, once the deciding rule or policy permits it or not. */
  lemma DecidedConnection(cfg: Config, c: Connection, h: Hit)
    requires ConnectionMeans(cfg, c) && Decides(cfg, h, c.srcId, c.dstId)
    ensures c.allowed <==> Permits(cfg, h) && !c.blockedByIsolation
    ensures !c.allowedByDefault
    ensures
      c.blockReason ==
        if c.allowed then None else if !c.blockedByIsolation then Some(ByFirewall)
        else Some(if Permits(cfg, h) then ByIsolation else ByBoth)
    ensures c.rules != [] && c.rules[0].origin == h
  {
    var s, d := c.srcId, c.dstId;
    DecidedVerdict(cfg, h, s, d);
    assert Covers(cfg, h, s, d);
    var k :| 0 <= k < |c.rules| && c.rules[k].origin == h;
    TopologyPass.DecisionUnique(cfg, c.rules[0].origin, h, s, d);
  }

  /** The covering rule of least index, and of equal indices the one listed first, allows exactly if it accepts. */
  lemma RuleVerdict(cfg: Config, conns: seq<Connection>, k: nat, i: nat)
    requires IsTopologyOf(cfg, conns) && k < |conns|
    requires i < |cfg.rules| && Covers(cfg, Legacy(i), conns[k].srcId, conns[k].dstId)
    requires forall j: nat ::
      j < |cfg.rules| && j != i && Covers(cfg, Legacy(j), conns[k].srcId, conns[k].dstId) ==>
        var one, other := cfg.rules[i].ruleIndex, cfg.rules[j].ruleIndex;
        one < other || (one == other && i < j)
    ensures
      var c, accepts := conns[k], cfg.rules[i].action == "accept";
      && (c.allowed <==> accepts && !c.blockedByIsolation) && !c.allowedByDefault
      && c.blockReason == (
           if c.allowed then None else if !c.blockedByIsolation then Some(ByFirewall)
           else Some(if accepts then ByIsolation else ByBoth))
      && c.rules != [] && c.rules[0].origin == Legacy(i)
  {
    FirstRuleDecides(cfg, i, conns[k].srcId, conns[k].dstId);
    DecidedConnection(cfg, conns[k], Legacy(i));
  }

  /** Where no rule covers the pair, the covering policy of least index allows exactly if its action is to allow. */
  lemma PolicyVerdict(cfg: Config, conns: seq<Connection>, k: nat, i: nat)
    requires IsTopologyOf(cfg, conns) && k < |conns|
    requires i < |cfg.policies| && Covers(cfg, Policy(i), conns[k].srcId, conns[k].dstId)
    requires forall j: nat :: j < |cfg.rules| ==> !Covers(cfg, Legacy(j), conns[k].srcId, conns[k].dstId)
    requires forall j: nat ::
      j < |cfg.policies| && j != i && Covers(cfg, Policy(j), conns[k].srcId, conns[k].dstId) ==>
        var one, other := cfg.policies[i].index, cfg.policies[j].index;
        one < other || (one == other && i < j)
    ensures
      var c, allows := conns[k], Text.Lower(cfg.policies[i].action) == "allow";
      && (c.allowed <==> allows && !c.blockedByIsolation) && !c.allowedByDefault
      && c.blockReason == (
           if c.allowed then None else if !c.blockedByIsolation then Some(ByFirewall)
           else Some(if allows then ByIsolation else ByBoth))
      && c.rules != [] && c.rules[0].origin == Policy(i)
  {
    FirstPolicyDecides(cfg, i, conns[k].srcId, conns[k].dstId);
    DecidedConnection(cfg, conns[k], Policy(i));
  }

  /** A pair that nothing covers is allowed by default unless isolation blocks it. */
  lemma DefaultVerdict(cfg: Config, conns: seq<Connection>, k: nat)
    requires IsTopologyOf(cfg, conns) && k < |conns|
    requires forall h :: !Covers(cfg, h, conns[k].srcId, conns[k].dstId)
    ensures
      var c := conns[k];
      && c.allowed == c.allowedByDefault == !c.blockedByIsolation && c.rules == []
      && c.blockReason == if c.blockedByIsolation then Some(ByIsolation) else None
  {
    var c := conns[k];
    assert c.rules != [] ==> Covers(cfg, c.rules[0].origin, c.srcId, c.dstId);
  }

  /** A connection is bidirectional exactly if the one of the opposite direction says the same. */
  lemma BothWays(cfg: Config, conns: seq<Connection>, k: nat, l: nat)
    requires IsTopologyOf(cfg, conns) && k < |conns| && l < |conns|
    requires conns[l].srcId == conns[k].dstId && conns[l].dstId == conns[k].srcId
    ensures conns[k].bidirectional <==> conns[k].allowed == conns[l].allowed
    ensures conns[k].bidirectional <==> conns[l].bidirectional
  {
    assert ConnectionMeans(cfg, conns[k]) && ConnectionMeans(cfg, conns[l]);
  }

  /** Each rule and policy of a connection's list is shown under its own name, action and index. */
  lemma ListShows(cfg: Config, conns: seq<Connection>, k: nat, a: nat)
    requires IsTopologyOf(cfg, conns) && k < |conns| && a < |conns[k].rules|
    ensures
      var info := conns[k].rules[a];
      match info.origin
      case Legacy(i) =>
        && i < |cfg.rules| && info.ruleIndex == cfg.rules[i].ruleIndex
        && info.name == (if cfg.rules[i].name == "" then "Unnamed Rule" else cfg.rules[i].name)
        && info.action == (if cfg.rules[i].action == "" then "drop" else cfg.rules[i].action)
      case Policy(i) =>
        && i < |cfg.policies| && info.ruleIndex == cfg.policies[i].index
        && info.name == (if cfg.policies[i].name == "" then "Unnamed Policy" else cfg.policies[i].name)
        && info.action == cfg.policies[i].action
  {
    assert ConnectionMeans(cfg, conns[k]) && conns[k].rules[a] in conns[k].rules;
  }
}
