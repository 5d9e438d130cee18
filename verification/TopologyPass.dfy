/** The complete pass: rule resolution, the rule and policy loops, and the list of connections. */
module TopologyPass {
  import opened Wrappers
  import opened Topology
  import opened TopologyCompiler
  import Text
  import PrioritySort

  // ---------- Which networks a legacy rule names ----------

  method FindNetwork(cfg: Config, ref: string) returns (found: seq<string>)
    ensures forall id :: id in found <==> Refers(cfg, ref, id)
  {
    for i := 0 to |cfg.networks|
      invariant forall j :: 0 <= j < i ==> !NamedBy(cfg.networks[j], ref)
    {
      if NamedBy(cfg.networks[i], ref) {
        assert Refers(cfg, ref, cfg.networks[i].id);
        return [cfg.networks[i].id];
      }
    }
    found := [];
  }

  ghost predicate DenotedBefore(cfg: Config, members: seq<string>, m: nat, i: nat, id: string) {
    exists a, b :: 0 <= a < |members| && 0 <= b < |cfg.networks| && (a < m || (a == m && b < i))
                   && cfg.networks[b].id == id && MemberDenotes(cfg.networks[b], members[a])
  }

  method ResolveNetworkFromGroup(cfg: Config, group: string) returns (ids: seq<string>)
    ensures forall id :: id in ids <==> InGroup(cfg, group, id)
  {
    ids := [];
    if group !in cfg.groups { return; }
    var members := cfg.groups[group];
    for m := 0 to |members|
      invariant forall id :: id in ids <==> DenotedBefore(cfg, members, m, 0, id)
    {
      var member := members[m];
      ghost var start := ids;
      if IsNetwork(cfg, member) {
        ids := ids + [member];
      }
      for i := 0 to |cfg.networks|
        invariant forall id :: id in ids ==> DenotedBefore(cfg, members, m + 1, 0, id)
        invariant forall id :: id in ids <== DenotedBefore(cfg, members, m, i, id)
        invariant IsNetwork(cfg, member) ==> member in ids
      {
        var net := cfg.networks[i];
        if net.subnet == Some(member) || net.name == member {
          assert MemberDenotes(cfg.networks[i], members[m]);
          ids := ids + [net.id];
        }
        assert forall id :: DenotedBefore(cfg, members, m, i + 1, id) ==>
          DenotedBefore(cfg, members, m, i, id) || (id == net.id && MemberDenotes(net, member));
        assert IsNetwork(cfg, net.id);
      }
      forall id | DenotedBefore(cfg, members, m + 1, 0, id)
        ensures id in ids
      {
        assert DenotedBefore(cfg, members, m, |cfg.networks|, id);
      }
    }
    forall id
      ensures id in ids <==> InGroup(cfg, group, id)
    {
      if DenotedBefore(cfg, members, |members|, 0, id) {
        var a, b :| 0 <= a < |members| && 0 <= b < |cfg.networks| && cfg.networks[b].id == id
          && MemberDenotes(cfg.networks[b], members[a]);
        assert members[a] in members;
      }
    }
  }

  method ResolveSide(cfg: Config, ref: string, groups: seq<string>, private: bool) returns (ids: seq<string>)
    ensures forall id :: id in ids <==> Selects(cfg, ref, groups, private, id)
  {
    ids := [];
    if ref != "" {
      ids := FindNetwork(cfg, ref);
    }
    ghost var direct := ids;
    for g := 0 to |groups|
      invariant forall id :: id in ids <==> id in direct || exists k :: 0 <= k < g && InGroup(cfg, groups[k], id)
    {
      var members := ResolveNetworkFromGroup(cfg, groups[g]);
      ids := ids + members;
    }
    assert forall id :: id in ids <==> NamesExplicitly(cfg, ref, groups, id);
    if private && ids == [] {
      ids := AllIds(cfg);
    } else if ids != [] {
      assert NamesExplicitly(cfg, ref, groups, ids[0]);
    }
  }

  function AllIds(cfg: Config): (ids: seq<string>)
    ensures forall id :: id in ids <==> IsNetwork(cfg, id)
  {
    var r := seq(|cfg.networks|, i requires 0 <= i < |cfg.networks| => cfg.networks[i].id);
    assert forall i :: 0 <= i < |r| ==> r[i] == cfg.networks[i].id;
    assert forall i :: 0 <= i < |cfg.networks| ==> cfg.networks[i].id == r[i];
    r
  }

  // ---------- The two passes ----------

  function Indices(n: nat): (r: seq<nat>)
    ensures |r| == n && forall i :: 0 <= i < n ==> r[i] == i
  {
    seq(n, i => i)
  }

  function Hits(legacy: bool, positions: seq<nat>): (r: seq<Hit>)
    ensures |r| == |positions|
    ensures forall k :: 0 <= k < |positions| ==> r[k] == if legacy then Legacy(positions[k]) else Policy(positions[k])
  {
    seq(|positions|, k requires 0 <= k < |positions| => if legacy then Legacy(positions[k]) else Policy(positions[k]))
  }

  lemma HitsAppend(legacy: bool, positions: seq<nat>, k: nat)
    requires k < |positions|
    ensures Hits(legacy, positions[..k + 1]) == Hits(legacy, positions[..k]) + Hits(legacy, [positions[k]])
  {
  }

  /** A hit that covers no pair leaves the table's meaning unchanged. */
  lemma SkippedHit(cfg: Config, r: Reading, order: seq<Hit>, h: Hit, table: PairTable)
    requires AllHits(cfg, order) && IsHit(cfg, h) && TableMeans(cfg, r, order, table)
    requires forall s, d :: !r.covers(h, s, d)
    ensures TableMeans(cfg, r, order + [h], table)
  {
    forall s, d | r.Pair(s, d)
      ensures EntryMeans(cfg, r, order + [h], s, d, table[PairKey(s, d)])
    {
      UntouchedEntry(cfg, r, order, h, s, d, table[PairKey(s, d)]);
    }
  }

  function SortedRules(cfg: Config): (r: seq<nat>)
    ensures PrioritySort.Positions(RuleKeys(cfg), r) && PrioritySort.Ordered(RuleKeys(cfg), r)
    ensures forall x: nat :: x in r <==> x < |cfg.rules|
  {
    var all := Indices(|cfg.rules|);
    forall x: nat | x < |cfg.rules|
      ensures x in all
    {
      assert all[x] == x;
    }
    PrioritySort.StableSort(RuleKeys(cfg), all)
  }

  function UserPolicies(cfg: Config, n: nat): (r: seq<nat>)
    requires n <= |cfg.policies|
    ensures forall x: nat :: x in r <==> x < n && IsUserPolicy(cfg.policies[x])
    ensures forall a, b :: 0 <= a < b < |r| ==> r[a] != r[b]
  {
    if n == 0 then []
    else if IsUserPolicy(cfg.policies[n - 1]) then UserPolicies(cfg, n - 1) + [n - 1]
    else UserPolicies(cfg, n - 1)
  }

  function SortedPolicies(cfg: Config): (r: seq<nat>)
    ensures PrioritySort.Positions(PolicyKeys(cfg), r) && PrioritySort.Ordered(PolicyKeys(cfg), r)
    ensures forall x: nat :: x in r <==> x < |cfg.policies| && IsUserPolicy(cfg.policies[x])
  {
    var user := UserPolicies(cfg, |cfg.policies|);
    assert forall a :: 0 <= a < |user| ==> user[a] in user;
    PrioritySort.StableSort(PolicyKeys(cfg), user)
  }

  function FullOrder(cfg: Config): seq<Hit> {
    Hits(true, SortedRules(cfg)) + Hits(false, SortedPolicies(cfg))
  }

  method ApplyRules(cfg: Config, initial: PairTable) returns (table: PairTable)
    requires WellFormed(cfg) && TableMeans(cfg, ReadingOf(cfg), [], initial)
    ensures AllHits(cfg, Hits(true, SortedRules(cfg)))
    ensures TableMeans(cfg, ReadingOf(cfg), Hits(true, SortedRules(cfg)), table)
  {
    var sorted := SortedRules(cfg);
    ghost var r := ReadingOf(cfg);
    table := initial;
    for k := 0 to |sorted|
      invariant AllHits(cfg, Hits(true, sorted[..k]))
      invariant TableMeans(cfg, r, Hits(true, sorted[..k]), table)
    {
      var i := sorted[k];
      var rule := cfg.rules[i];
      ghost var order := Hits(true, sorted[..k]);
      HitsAppend(true, sorted, k);
      assert Hits(true, sorted[..k + 1]) == order + [Legacy(i)];
      if !rule.enabled || !Text.Includes(Text.Lower(rule.ruleset), "lan") {
        SkippedHit(cfg, r, order, Legacy(i), table);
        continue;
      }
      var private := MentionsPrivateRange(rule);
      var srcs := ResolveSide(cfg, rule.srcNetwork, rule.srcGroups, private);
      var dsts := ResolveSide(cfg, rule.dstNetwork, rule.dstGroups, private);
      ReadingUnambiguous(cfg);
      table := ApplyHit(cfg, r, table, order, Legacy(i), srcs, dsts);
    }
    assert sorted[..|sorted|] == sorted;
  }

  method ApplyPolicies(cfg: Config, ghost before: seq<Hit>, initial: PairTable) returns (table: PairTable)
    requires WellFormed(cfg) && AllHits(cfg, before) && TableMeans(cfg, ReadingOf(cfg), before, initial)
    ensures AllHits(cfg, before + Hits(false, SortedPolicies(cfg)))
    ensures TableMeans(cfg, ReadingOf(cfg), before + Hits(false, SortedPolicies(cfg)), table)
  {
    var sorted := SortedPolicies(cfg);
    ghost var r := ReadingOf(cfg);
    table := initial;
    assert before + Hits(false, sorted[..0]) == before;
    for k := 0 to |sorted|
      invariant AllHits(cfg, before + Hits(false, sorted[..k]))
      invariant TableMeans(cfg, r, before + Hits(false, sorted[..k]), table)
    {
      var i := sorted[k];
      var policy := cfg.policies[i];
      ghost var order := before + Hits(false, sorted[..k]);
      HitsAppend(false, sorted, k);
      assert before + Hits(false, sorted[..k + 1]) == order + [Policy(i)];
      var srcHasNetworks := NamesNetworks(policy.source);
      var dstHasNetworks := NamesNetworks(policy.destination);
      if !srcHasNetworks && !dstHasNetworks {
        SkippedHit(cfg, r, order, Policy(i), table);
        continue;
      }
      var srcs := SideNetworks(cfg, policy.source);
      var dsts := SideNetworks(cfg, policy.destination);
      if srcs == [] || dsts == [] {
        SkippedHit(cfg, r, order, Policy(i), table);
        continue;
      }
      ReadingUnambiguous(cfg);
      table := ApplyHit(cfg, r, table, order, Policy(i), srcs, dsts);
    }
    assert sorted[..|sorted|] == sorted;
  }

  function SideNetworks(cfg: Config, side: PolicySide): (ids: seq<string>)
    ensures forall id :: IsNetwork(cfg, id) ==> (id in ids <==> PolicySelects(side, id))
    ensures ids == [] ==> forall id :: IsNetwork(cfg, id) ==> !PolicySelects(side, id)
  {
    if NamesNetworks(side) then side.networkIds
    else if side.matchingTarget == "ANY" then AllIds(cfg)
    else []
  }

  // ---------- The processed list is the priority order ----------

  lemma HitsJoined(rules: seq<nat>, policies: seq<nat>, a: nat)
    requires a < |rules| + |policies|
    ensures (Hits(true, rules) + Hits(false, policies))[a]
         == if a < |rules| then Legacy(rules[a]) else Policy(policies[a - |rules|])
  {
  }

  lemma FullOrderAt(cfg: Config, a: nat)
    requires a < |FullOrder(cfg)|
    ensures
      var n := |SortedRules(cfg)|;
      if a < n then FullOrder(cfg)[a] == Legacy(SortedRules(cfg)[a])
      else a - n < |SortedPolicies(cfg)| && FullOrder(cfg)[a] == Policy(SortedPolicies(cfg)[a - n])
  {
    HitsJoined(SortedRules(cfg), SortedPolicies(cfg), a);
  }

  lemma FullOrderRankedAt(cfg: Config, a: nat, b: nat)
    requires a < b < |FullOrder(cfg)|
    ensures IsHit(cfg, FullOrder(cfg)[a]) && IsHit(cfg, FullOrder(cfg)[b])
    ensures FullOrder(cfg)[a] != FullOrder(cfg)[b] && Outranks(cfg, FullOrder(cfg)[a], FullOrder(cfg)[b])
  {
    FullOrderAt(cfg, a);
    FullOrderAt(cfg, b);
    var n := |SortedRules(cfg)|;
    if b < n {
      assert PrioritySort.Before(RuleKeys(cfg), SortedRules(cfg)[a], SortedRules(cfg)[b]);
    } else if n <= a {
      assert PrioritySort.Before(PolicyKeys(cfg), SortedPolicies(cfg)[a - n], SortedPolicies(cfg)[b - n]);
    }
  }

  lemma FullOrderRanked(cfg: Config)
    ensures RankedOrder(cfg, FullOrder(cfg))
  {
    var order := FullOrder(cfg);
    forall a | 0 <= a < |order|
      ensures IsHit(cfg, order[a])
    {
      FullOrderAt(cfg, a);
    }
    forall a, b | 0 <= a < b < |order|
      ensures order[a] != order[b] && Outranks(cfg, order[a], order[b])
    {
      FullOrderRankedAt(cfg, a, b);
    }
  }

  predicate Considered(cfg: Config, h: Hit) {
    IsHit(cfg, h) && (h.Policy? ==> IsUserPolicy(cfg.policies[h.i]))
  }

  lemma FullOrderComplete(cfg: Config, h: Hit)
    requires Considered(cfg, h)
    ensures h in FullOrder(cfg)
  {
    var rules, policies := SortedRules(cfg), SortedPolicies(cfg);
    match h
    case Legacy(i) =>
      assert i in rules;
      var a :| 0 <= a < |rules| && rules[a] == i;
      assert FullOrder(cfg)[a] == h;
    case Policy(i) =>
      assert i in policies;
      var a :| 0 <= a < |policies| && policies[a] == i;
      assert FullOrder(cfg)[|rules| + a] == h;
  }

  /** First match over the processed list is the declarative decision. */
  lemma FirstHitDecides(cfg: Config, s: string, d: string)
    ensures
      var first := FirstHit(ReadingOf(cfg), FullOrder(cfg), s, d);
      && (first.None? <==> Uncovered(cfg, s, d))
      && (first.Some? ==> Decides(cfg, first.value, s, d))
  {
    var r, order := ReadingOf(cfg), FullOrder(cfg);
    FullOrderRanked(cfg);
    var first := FirstHit(r, order, s, d);
    forall h | Covers(cfg, h, s, d)
      ensures h in order
    {
      FullOrderComplete(cfg, h);
    }
    assert forall h :: r.covers(h, s, d) == Covers(cfg, h, s, d);
    if first.Some? {
      forall g | Covers(cfg, g, s, d) && g != first.value
        ensures Outranks(cfg, first.value, g)
      {
        FirstHitOutranks(cfg, r, order, s, d, g);
      }
    }
  }

  /** At most one rule or policy decides a pair. */
  lemma DecisionUnique(cfg: Config, g: Hit, h: Hit, s: string, d: string)
    requires Decides(cfg, g, s, d) && Decides(cfg, h, s, d)
    ensures g == h
  {
  }

  /** What a finished table entry says. */
  ghost predicate EntryDecided(cfg: Config, s: string, d: string, e: PairEntry) {
    && (e.blockedByIsolation <==> Isolated(cfg, s, d))
    && (e.forwardAllowed.GetOr(true) <==> PermittedByRules(cfg, s, d))
    && (e.forwardAllowed.None? <==> Uncovered(cfg, s, d))
    && (forall h :: Shows(e.rules, h) <==> Covers(cfg, h, s, d))
    && (e.rules != [] ==> Decides(cfg, e.rules[0].origin, s, d))
    && AllTold(cfg, e.rules)
  }

  lemma FinishedEntry(cfg: Config, s: string, d: string, e: PairEntry)
    requires AllHits(cfg, FullOrder(cfg)) && EntryMeans(cfg, ReadingOf(cfg), FullOrder(cfg), s, d, e)
    ensures EntryDecided(cfg, s, d, e)
  {
    var r, order := ReadingOf(cfg), FullOrder(cfg);
    FullOrderRanked(cfg);
    FirstHitDecides(cfg, s, d);
    var first := FirstHit(r, order, s, d);
    forall h
      ensures r.covers(h, s, d) == Covers(cfg, h, s, d) && (Covers(cfg, h, s, d) ==> h in order)
    {
      if Covers(cfg, h, s, d) {
        FullOrderComplete(cfg, h);
      }
    }
    if first.Some? {
      forall h | Decides(cfg, h, s, d)
        ensures h == first.value
      {
        DecisionUnique(cfg, h, first.value, s, d);
      }
    }
  }

  // ---------- The list of connections ----------

  function Connect(src: NetworkNode, dst: NetworkNode, forward: PairEntry, reverse: PairEntry): Connection {
    var blocked := forward.blockedByIsolation || reverse.blockedByIsolation;
    var forwardByRule := forward.forwardAllowed.GetOr(true);
    var reverseByRule := reverse.forwardAllowed.GetOr(true);
    var forwardAllowed := forwardByRule && !blocked;
    var reverseAllowed := reverseByRule && !blocked;
    var reason :=
      if forwardAllowed then None
      else if !forwardByRule && blocked then Some(ByBoth)
      else if blocked then Some(ByIsolation)
      else Some(ByFirewall);
    Connection(src.id, dst.id, forwardAllowed, forwardAllowed == reverseAllowed, forward.rules,
               forward.forwardAllowed.None? && !blocked && forwardAllowed, blocked, reason)
  }

  lemma ConnectMeans(cfg: Config, src: NetworkNode, dst: NetworkNode, forward: PairEntry, reverse: PairEntry)
    requires EntryDecided(cfg, src.id, dst.id, forward) && EntryDecided(cfg, dst.id, src.id, reverse)
    ensures ConnectionMeans(cfg, Connect(src, dst, forward, reverse))
  {
    var c := Connect(src, dst, forward, reverse);
    forall h
      ensures Covers(cfg, h, src.id, dst.id) <==> exists k :: 0 <= k < |c.rules| && c.rules[k].origin == h
    {
      assert Shows(forward.rules, h) <==> Covers(cfg, h, src.id, dst.id);
    }
  }

  /** The ordered pairs the two loops have passed when they stand at (i, j), in visiting order. */
  ghost function PairsUpTo(cfg: Config, i: nat, j: nat): seq<(nat, nat)>
    decreases i, j
  {
    if j > 0 then PairsUpTo(cfg, i, j - 1) + (if i == j - 1 then [] else [(i, j - 1)])
    else if i > 0 then PairsUpTo(cfg, i - 1, |cfg.networks|)
    else []
  }

  /** Every pair of distinct positions is visited, and no pair twice. */
  lemma {:induction false} PairsComplete(cfg: Config, i: nat, j: nat, p: (nat, nat))
    requires j <= |cfg.networks|
    ensures p in PairsUpTo(cfg, i, j) <==> p.0 != p.1 && p.1 < |cfg.networks| && (p.0 < i || (p.0 == i && p.1 < j))
    decreases i, j
  {
    if j > 0 {
      PairsComplete(cfg, i, j - 1, p);
    } else if i > 0 {
      PairsComplete(cfg, i - 1, |cfg.networks|, p);
    }
  }

  lemma {:induction false} PairsDistinct(cfg: Config, i: nat, j: nat)
    requires j <= |cfg.networks|
    ensures forall k, l :: 0 <= k < l < |PairsUpTo(cfg, i, j)| ==> PairsUpTo(cfg, i, j)[k] != PairsUpTo(cfg, i, j)[l]
    decreases i, j
  {
    if j > 0 {
      PairsDistinct(cfg, i, j - 1);
      PairsComplete(cfg, i, j - 1, (i, j - 1));
    } else if i > 0 {
      PairsDistinct(cfg, i - 1, |cfg.networks|);
    }
  }

  ghost predicate IsConnection(cfg: Config, p: (nat, nat), c: Connection) {
    && p.0 < |cfg.networks| && p.1 < |cfg.networks| && p.0 != p.1
    && c.srcId == cfg.networks[p.0].id && c.dstId == cfg.networks[p.1].id && ConnectionMeans(cfg, c)
  }

  ghost predicate Progress(cfg: Config, conns: seq<Connection>, pairs: seq<(nat, nat)>) {
    |conns| == |pairs| && forall k :: 0 <= k < |conns| ==> IsConnection(cfg, pairs[k], conns[k])
  }

  lemma ProgressStep(cfg: Config, conns: seq<Connection>, pairs: seq<(nat, nat)>, p: (nat, nat), c: Connection)
    requires Progress(cfg, conns, pairs) && IsConnection(cfg, p, c)
    ensures Progress(cfg, conns + [c], pairs + [p])
  {
  }

  lemma ProgressDone(cfg: Config, conns: seq<Connection>)
    requires UniqueIds(cfg) && Progress(cfg, conns, PairsUpTo(cfg, |cfg.networks|, 0))
    ensures IsTopologyOf(cfg, conns)
  {
    var n := |cfg.networks|;
    var pairs := PairsUpTo(cfg, n, 0);
    PairsDistinct(cfg, n, 0);
    forall k | 0 <= k < |conns|
      ensures IsNetwork(cfg, conns[k].srcId) && IsNetwork(cfg, conns[k].dstId)
      ensures conns[k].srcId != conns[k].dstId && ConnectionMeans(cfg, conns[k])
    {
      ConnectionDone(cfg, pairs[k], conns[k]);
    }
    forall k, l | 0 <= k < l < |conns|
      ensures conns[k].srcId != conns[l].srcId || conns[k].dstId != conns[l].dstId
    {
      ConnectionsApart(cfg, pairs[k], conns[k], pairs[l], conns[l]);
    }
    forall s, d | IsNetwork(cfg, s) && IsNetwork(cfg, d) && s != d
      ensures exists k :: 0 <= k < |conns| && conns[k].srcId == s && conns[k].dstId == d
    {
      var k := PairDone(cfg, conns, s, d);
    }
  }

  lemma ConnectionDone(cfg: Config, p: (nat, nat), c: Connection)
    requires UniqueIds(cfg) && IsConnection(cfg, p, c)
    ensures IsNetwork(cfg, c.srcId) && IsNetwork(cfg, c.dstId) && c.srcId != c.dstId
    ensures ConnectionMeans(cfg, c)
  {
  }

  lemma ConnectionsApart(cfg: Config, p: (nat, nat), c: Connection, p': (nat, nat), c': Connection)
    requires UniqueIds(cfg) && IsConnection(cfg, p, c) && IsConnection(cfg, p', c') && p != p'
    ensures c.srcId != c'.srcId || c.dstId != c'.dstId
  {
  }

  lemma PairDone(cfg: Config, conns: seq<Connection>, s: string, d: string) returns (k: nat)
    requires Progress(cfg, conns, PairsUpTo(cfg, |cfg.networks|, 0)) && IsPair(cfg, s, d)
    ensures k < |conns| && conns[k].srcId == s && conns[k].dstId == d
  {
    var pairs := PairsUpTo(cfg, |cfg.networks|, 0);
    var a: nat :| a < |cfg.networks| && cfg.networks[a].id == s;
    var b: nat :| b < |cfg.networks| && cfg.networks[b].id == d;
    PairsComplete(cfg, |cfg.networks|, 0, (a, b));
    k :| k < |pairs| && pairs[k] == (a, b);
    assert IsConnection(cfg, pairs[k], conns[k]);
  }

  method ConnectPair(cfg: Config, pairRules: PairTable, i: nat, j: nat) returns (c: Connection)
    requires UniqueIds(cfg) && i < |cfg.networks| && j < |cfg.networks| && i != j
    requires AllHits(cfg, FullOrder(cfg)) && TableMeans(cfg, ReadingOf(cfg), FullOrder(cfg), pairRules)
    ensures IsConnection(cfg, (i, j), c)
  {
    var src, dst := cfg.networks[i], cfg.networks[j];
    assert ReadingOf(cfg).Pair(src.id, dst.id) && ReadingOf(cfg).Pair(dst.id, src.id);
    var forward, reverse := pairRules[PairKey(src.id, dst.id)], pairRules[PairKey(dst.id, src.id)];
    FinishedEntry(cfg, src.id, dst.id, forward);
    FinishedEntry(cfg, dst.id, src.id, reverse);
    ConnectMeans(cfg, src, dst, forward, reverse);
    c := Connect(src, dst, forward, reverse);
  }

  /** Fills the pair table: isolation flags, then rules, then policies. */
  method BuildPairTable(cfg: Config) returns (pairRules: PairTable)
    requires WellFormed(cfg)
    ensures AllHits(cfg, FullOrder(cfg)) && TableMeans(cfg, ReadingOf(cfg), FullOrder(cfg), pairRules)
  {
    pairRules := InitPairs(cfg);
    pairRules := ApplyRules(cfg, pairRules);
    pairRules := ApplyPolicies(cfg, Hits(true, SortedRules(cfg)), pairRules);
  }

  /** The source function: exactly one connection per ordered pair, each meaning what the configuration means. */
  method BuildConnections(cfg: Config) returns (connections: seq<Connection>)
    requires WellFormed(cfg)
    ensures IsTopologyOf(cfg, connections)
  {
    var pairRules := BuildPairTable(cfg);
    connections := [];
    for i := 0 to |cfg.networks|
      invariant Progress(cfg, connections, PairsUpTo(cfg, i, 0))
    {
      for j := 0 to |cfg.networks|
        invariant Progress(cfg, connections, PairsUpTo(cfg, i, j))
      {
        if cfg.networks[i].id != cfg.networks[j].id {
          var connection := ConnectPair(cfg, pairRules, i, j);
          ProgressStep(cfg, connections, PairsUpTo(cfg, i, j), (i, j), connection);
          connections := connections + [connection];
        } else {
          assert PairsUpTo(cfg, i, j + 1) == PairsUpTo(cfg, i, j);
        }
      }
    }
    ProgressDone(cfg, connections);
  }

  // ---------- What happens when keys meet ----------

  /** The same networks, with nothing configured but one user policy that blocks the first pair. */
  function OnlyBlocking(networks: seq<NetworkNode>, s: string, d: string): Config {
    Config(
      seq(|networks|, i requires 0 <= i < |networks| => networks[i].(networkIsolation := false)), [],
      [FirewallPolicy("p", "block", true, false, 0, PolicySide("NETWORK", [s]), PolicySide("NETWORK", [d]))], map[], [])
  }

  lemma OnlyBlockingIds(networks: seq<NetworkNode>, s: string, d: string)
    ensures
      var cfg := OnlyBlocking(networks, s, d);
      |cfg.networks| == |networks| && forall i :: 0 <= i < |networks| ==> cfg.networks[i].id == networks[i].id
  {
  }

  lemma OnlyBlockingVerdicts(networks: seq<NetworkNode>, s: string, d: string, a: string, b: string)
    requires
      var cfg := OnlyBlocking(networks, s, d);
      IsNetwork(cfg, s) && IsNetwork(cfg, d) && s != d
    ensures
      var cfg := OnlyBlocking(networks, s, d);
      !Blocked(cfg, a, b) && (PermittedByRules(cfg, a, b) <==> a != s || b != d)
  {
    var cfg := OnlyBlocking(networks, s, d);
    forall h
      ensures Covers(cfg, h, a, b) <==> h == Policy(0) && a == s && b == d
    {
    }
    assert Text.Lower("block")[0] == 'b';
    if a == s && b == d { assert Covers(cfg, Policy(0), a, b); }
  }

  /** Two pairs served by one entry get one verdict. */
  lemma SharedEntry(
    cfg: Config, table: PairTable, src: NetworkNode, dst: NetworkNode, src': NetworkNode, dst': NetworkNode)
    requires PairKey(src.id, dst.id) == PairKey(src'.id, dst'.id)
    requires PairKey(src.id, dst.id) in table && PairKey(dst.id, src.id) in table && PairKey(dst'.id, src'.id) in table
    requires !Blocked(cfg, src.id, dst.id) && !Blocked(cfg, src'.id, dst'.id)
    requires PermittedByRules(cfg, src.id, dst.id) != PermittedByRules(cfg, src'.id, dst'.id)
    ensures
      var forward := table[PairKey(src.id, dst.id)];
      !(ConnectionMeans(cfg, Connect(src, dst, forward, table[PairKey(dst.id, src.id)]))
        && ConnectionMeans(cfg, Connect(src', dst', forward, table[PairKey(dst'.id, src'.id)])))
  {
  }

  /** The connections a table yields for two pairs both mean what the configuration says. */
  ghost predicate Serves(
    cfg: Config, table: PairTable, src: NetworkNode, dst: NetworkNode, src': NetworkNode, dst': NetworkNode) {
    && PairKey(src.id, dst.id) in table && PairKey(dst.id, src.id) in table
    && PairKey(src'.id, dst'.id) in table && PairKey(dst'.id, src'.id) in table
    && ConnectionMeans(cfg, Connect(src, dst, table[PairKey(src.id, dst.id)], table[PairKey(dst.id, src.id)]))
    && ConnectionMeans(cfg, Connect(src', dst', table[PairKey(src'.id, dst'.id)], table[PairKey(dst'.id, src'.id)]))
  }

  /**
   Whenever the keys of two pairs of networks meet, there is a configuration of these networks - one policy
   blocking the first pair - for which no pair table, however it was filled, yields the right connections.
   */
  lemma MeetingKeysFail(networks: seq<NetworkNode>, i: nat, j: nat, k: nat, l: nat)
    requires i < |networks| && j < |networks| && k < |networks| && l < |networks|
    requires networks[i].id != networks[j].id
      && KeysMeet(networks[i].id, networks[j].id, networks[k].id, networks[l].id)
    ensures
      var cfg := OnlyBlocking(networks, networks[i].id, networks[j].id);
      forall table :: !Serves(cfg, table, cfg.networks[i], cfg.networks[j], cfg.networks[k], cfg.networks[l])
  {
    var s, d, s', d' := networks[i].id, networks[j].id, networks[k].id, networks[l].id;
    var cfg := OnlyBlocking(networks, s, d);
    OnlyBlockingIds(networks, s, d);
    OnlyBlockingVerdicts(networks, s, d, s, d);
    OnlyBlockingVerdicts(networks, s, d, s', d');
    SameKeyIff(s, d, s', d');
    forall table
      ensures !Serves(cfg, table, cfg.networks[i], cfg.networks[j], cfg.networks[k], cfg.networks[l])
    {
      if Serves(cfg, table, cfg.networks[i], cfg.networks[j], cfg.networks[k], cfg.networks[l]) {
        SharedEntry(cfg, table, cfg.networks[i], cfg.networks[j], cfg.networks[k], cfg.networks[l]);
      }
    }
  }

  /** The networks "a", "b:c", "a:b" and "c": the policy that blocks a -> b:c cannot be told from one for a:b -> c. */
  lemma MeetingKeysInstance() returns (networks: seq<NetworkNode>)
    ensures |networks| == 4 && networks[0].id == "a" && networks[1].id == "b:c" && networks[2].id == "a:b"
      && networks[3].id == "c"
    ensures
      var cfg := OnlyBlocking(networks, "a", "b:c");
      UniqueIds(cfg)
        && forall table :: !Serves(cfg, table, cfg.networks[0], cfg.networks[1], cfg.networks[2], cfg.networks[3])
  {
    networks := [
      NetworkNode("a", "A", None, false), NetworkNode("b:c", "B", None, false),
      NetworkNode("a:b", "C", None, false), NetworkNode("c", "D", None, false)];
    assert "a" + ":" == "a:" && "a:b"[..2] == "a:" && "a:b"[2..] == "b" && "b" + ":" + "c" == "b:c";
    assert KeysMeet("a", "b:c", "a:b", "c");
    OnlyBlockingIds(networks, "a", "b:c");
    MeetingKeysFail(networks, 0, 1, 2, 3);
  }
}
