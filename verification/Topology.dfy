/**
 Inter-network connections inferred from UniFi firewall configuration
 (backend/src/services/topologyAnalyzer.ts, buildConnections).

 Pair by pair, what the configuration means: which rules cover an ordered pair of networks, which
 of them decides, and when isolation overrides. The program that computes it is in TopologyCompiler
 and TopologyPass.
 */
module Topology {
  import opened Wrappers
  import Text
  import PrioritySort

  datatype NetworkNode = NetworkNode(id: string, name: string, subnet: Option<string>, networkIsolation: bool)

  /** `rendering` is the rule's JSON text, which the source searches for private-range patterns. */
  datatype FirewallRule = FirewallRule(
    name: string, enabled: bool, ruleset: string, ruleIndex: int, action: string,
    srcNetwork: string, dstNetwork: string, srcGroups: seq<string>, dstGroups: seq<string>,
    rendering: string)

  datatype PolicySide = PolicySide(matchingTarget: string, networkIds: seq<string>)

  datatype FirewallPolicy = FirewallPolicy(
    name: string, action: string, enabled: bool, predefined: bool, index: int,
    source: PolicySide, destination: PolicySide)

  datatype L3AclIsolation = L3AclIsolation(sourceNetwork: string, destinationNetworks: seq<string>)

  datatype Config = Config(
    networks: seq<NetworkNode>, rules: seq<FirewallRule>, policies: seq<FirewallPolicy>,
    groups: map<string, seq<string>>, acl: seq<L3AclIsolation>)

  /** A rule or policy of the configuration, by list position (its UniFi id). */
  datatype Hit = Legacy(i: nat) | Policy(i: nat)

  datatype RuleInfo = RuleInfo(origin: Hit, name: string, action: string, ruleIndex: int)

  datatype BlockReason = ByFirewall | ByIsolation | ByBoth

  datatype Connection = Connection(
    srcId: string, dstId: string, allowed: bool, bidirectional: bool, rules: seq<RuleInfo>,
    allowedByDefault: bool, blockedByIsolation: bool, blockReason: Option<BlockReason>)

  // ---------- What a configuration means, pair by pair ----------

  /** The texts "s:d" and "s':d'" coincide, the longer source running on into the other's destination. */
  predicate KeysMeet(s: string, d: string, s': string, d': string) {
    |s| < |s'| && s + ":" <= s' && d == s'[|s| + 1..] + ":" + d'
  }

  /** Network ids are unique, and no two pairs of them share a key. */
  ghost predicate WellFormed(cfg: Config) {
    UniqueIds(cfg) && KeysApart(cfg)
  }

  ghost predicate UniqueIds(cfg: Config) {
    forall i, j :: 0 <= i < j < |cfg.networks| ==> cfg.networks[i].id != cfg.networks[j].id
  }

  ghost predicate KeysApart(cfg: Config) {
    forall s, d, s', d' {:trigger KeysMeet(s, d, s', d')} ::
      IsPair(cfg, s, d) && IsPair(cfg, s', d') ==> !KeysMeet(s, d, s', d')
  }

  predicate IsNetwork(cfg: Config, id: string) {
    exists i :: 0 <= i < |cfg.networks| && cfg.networks[i].id == id
  }

  predicate IsPair(cfg: Config, s: string, d: string) {
    IsNetwork(cfg, s) && IsNetwork(cfg, d) && s != d
  }

  predicate NamedBy(n: NetworkNode, ref: string) {
    n.name == ref || n.id == ref
  }

  /** `id` is the first network whose name or id is `ref`. */
  ghost predicate Refers(cfg: Config, ref: string, id: string) {
    exists i :: 0 <= i < |cfg.networks| && cfg.networks[i].id == id && NamedBy(cfg.networks[i], ref)
                && forall j :: 0 <= j < i ==> !NamedBy(cfg.networks[j], ref)
  }

  predicate MemberDenotes(n: NetworkNode, member: string) {
    n.id == member || n.subnet == Some(member) || n.name == member
  }

  ghost predicate InGroup(cfg: Config, group: string, id: string) {
    group in cfg.groups
    && exists m, i :: m in cfg.groups[group] && 0 <= i < |cfg.networks|
                      && cfg.networks[i].id == id && MemberDenotes(cfg.networks[i], m)
  }

  ghost predicate NamesExplicitly(cfg: Config, ref: string, groups: seq<string>, id: string) {
    (ref != "" && Refers(cfg, ref, id)) || exists g :: g in groups && InGroup(cfg, g, id)
  }

  predicate MentionsPrivateRange(rule: FirewallRule) {
    var text := Text.Lower(rule.rendering);
    Text.Includes(text, "rfc1918") || Text.Includes(text, "10.0.0.0")
    || Text.Includes(text, "192.168.") || Text.Includes(text, "172.16.")
  }

  /** One side of a legacy rule: explicit networks, or every network for a private-range rule naming none. */
  ghost predicate Selects(cfg: Config, ref: string, groups: seq<string>, private: bool, id: string) {
    || NamesExplicitly(cfg, ref, groups, id)
    || (private && IsNetwork(cfg, id) && forall x :: !NamesExplicitly(cfg, ref, groups, x))
  }

  predicate IsLanRule(rule: FirewallRule) {
    rule.enabled && Text.Includes(Text.Lower(rule.ruleset), "lan")
  }

  predicate NamesNetworks(side: PolicySide) {
    side.matchingTarget == "NETWORK" && side.networkIds != []
  }

  predicate IsUserPolicy(p: FirewallPolicy) {
    p.enabled && !p.predefined
  }

  predicate PolicySelects(side: PolicySide, id: string) {
    if NamesNetworks(side) then id in side.networkIds else side.matchingTarget == "ANY"
  }

  predicate IsHit(cfg: Config, h: Hit) {
    match h
    case Legacy(i) => i < |cfg.rules|
    case Policy(i) => i < |cfg.policies|
  }

  /** The enabled rule or policy `h` speaks about traffic from network `s` to network `d`. */
  ghost predicate Covers(cfg: Config, h: Hit, s: string, d: string) {
    IsHit(cfg, h) && s != d && IsNetwork(cfg, s) && IsNetwork(cfg, d) &&
    match h
    case Legacy(i) =>
      var rule := cfg.rules[i];
      && IsLanRule(rule)
      && Selects(cfg, rule.srcNetwork, rule.srcGroups, MentionsPrivateRange(rule), s)
      && Selects(cfg, rule.dstNetwork, rule.dstGroups, MentionsPrivateRange(rule), d)
    case Policy(i) =>
      var p := cfg.policies[i];
      && IsUserPolicy(p) && (NamesNetworks(p.source) || NamesNetworks(p.destination))
      && PolicySelects(p.source, s) && PolicySelects(p.destination, d)
  }

  function RuleKeys(cfg: Config): seq<int> {
    seq(|cfg.rules|, i requires 0 <= i < |cfg.rules| => cfg.rules[i].ruleIndex)
  }

  function PolicyKeys(cfg: Config): seq<int> {
    seq(|cfg.policies|, i requires 0 <= i < |cfg.policies| => cfg.policies[i].index)
  }

  /** Legacy rules outrank policies; within a kind the lower (index, list position) wins. */
  predicate Outranks(cfg: Config, g: Hit, h: Hit)
    requires IsHit(cfg, g) && IsHit(cfg, h)
  {
    match (g, h)
    case (Legacy(i), Legacy(j)) => PrioritySort.Before(RuleKeys(cfg), i, j)
    case (Policy(i), Policy(j)) => PrioritySort.Before(PolicyKeys(cfg), i, j)
    case (Legacy(_), Policy(_)) => true
    case (Policy(_), Legacy(_)) => false
  }

  /** `h` covers the pair and no other covering rule or policy outranks it. */
  ghost predicate Decides(cfg: Config, h: Hit, s: string, d: string) {
    Covers(cfg, h, s, d) && forall g :: Covers(cfg, g, s, d) && g != h ==> Outranks(cfg, h, g)
  }

  predicate Permits(cfg: Config, h: Hit)
    requires IsHit(cfg, h)
  {
    match h
    case Legacy(i) => cfg.rules[i].action == "accept"
    case Policy(i) => Text.Lower(cfg.policies[i].action) == "allow"
  }

  ghost predicate Uncovered(cfg: Config, s: string, d: string) {
    forall h :: !Covers(cfg, h, s, d)
  }

  /** The firewall verdict: the deciding rule's action, or allow when nothing covers the pair. */
  ghost predicate PermittedByRules(cfg: Config, s: string, d: string) {
    Uncovered(cfg, s, d) || exists h :: Decides(cfg, h, s, d) && Permits(cfg, h)
  }

  predicate AclEntryBlocks(entry: L3AclIsolation, s: string, d: string) {
    entry.sourceNetwork == s && d in entry.destinationNetworks
  }

  ghost predicate AclBlocks(cfg: Config, s: string, d: string) {
    exists k :: 0 <= k < |cfg.acl| && AclEntryBlocks(cfg.acl[k], s, d)
  }

  ghost predicate HasIsolation(cfg: Config, id: string) {
    exists i :: 0 <= i < |cfg.networks| && cfg.networks[i].id == id && cfg.networks[i].networkIsolation
  }

  ghost predicate Isolated(cfg: Config, s: string, d: string) {
    HasIsolation(cfg, s) || HasIsolation(cfg, d) || AclBlocks(cfg, s, d)
  }

  /** Isolation in either direction blocks both. */
  ghost predicate Blocked(cfg: Config, s: string, d: string) {
    Isolated(cfg, s, d) || Isolated(cfg, d, s)
  }

  ghost predicate Allowed(cfg: Config, s: string, d: string) {
    PermittedByRules(cfg, s, d) && !Blocked(cfg, s, d)
  }

  /** What the list of a connection shows of a rule or policy. */
  function InfoOf(cfg: Config, h: Hit): RuleInfo
    requires IsHit(cfg, h)
  {
    match h
    case Legacy(i) =>
      var r := cfg.rules[i];
      RuleInfo(
        h, if r.name == "" then "Unnamed Rule" else r.name, if r.action == "" then "drop" else r.action, r.ruleIndex)
    case Policy(i) =>
      var p := cfg.policies[i];
      RuleInfo(h, if p.name == "" then "Unnamed Policy" else p.name, p.action, p.index)
  }

  ghost predicate AllTold(cfg: Config, rules: seq<RuleInfo>) {
    forall info :: info in rules ==> IsHit(cfg, info.origin) && info == InfoOf(cfg, info.origin)
  }

  ghost predicate ConnectionMeans(cfg: Config, c: Connection) {
    var s, d := c.srcId, c.dstId;
    && (c.allowed <==> Allowed(cfg, s, d))
    && (c.bidirectional <==> (Allowed(cfg, s, d) <==> Allowed(cfg, d, s)))
    && (c.blockedByIsolation <==> Blocked(cfg, s, d))
    && (c.allowedByDefault <==> Uncovered(cfg, s, d) && !Blocked(cfg, s, d))
    && (c.blockReason.None? <==> Allowed(cfg, s, d))
    && (c.blockReason.Some? ==>
          && (c.blockReason.value.ByFirewall? <==> !Blocked(cfg, s, d))
          && (c.blockReason.value.ByIsolation? <==> PermittedByRules(cfg, s, d)))
    && (forall h :: Covers(cfg, h, s, d) <==> exists k :: 0 <= k < |c.rules| && c.rules[k].origin == h)
    && (c.rules != [] ==> Decides(cfg, c.rules[0].origin, s, d))
    && AllTold(cfg, c.rules)
  }

  /** The whole result: one connection per ordered pair of distinct networks, each with its meaning. */
  ghost predicate IsTopologyOf(cfg: Config, conns: seq<Connection>) {
    && (forall k :: 0 <= k < |conns| ==>
          && IsNetwork(cfg, conns[k].srcId) && IsNetwork(cfg, conns[k].dstId)
          && conns[k].srcId != conns[k].dstId && ConnectionMeans(cfg, conns[k]))
    && (forall k, l :: 0 <= k < l < |conns| ==>
          conns[k].srcId != conns[l].srcId || conns[k].dstId != conns[l].dstId)
    && (forall s, d :: IsNetwork(cfg, s) && IsNetwork(cfg, d) && s != d ==>
          exists k :: 0 <= k < |conns| && conns[k].srcId == s && conns[k].dstId == d)
  }
}
