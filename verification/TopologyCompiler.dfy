/**
 The single pass of buildConnections: sorted rules, then sorted policies, fill a pair
 table in which the first match wins; isolation is overlaid when connections are listed.
 */
module TopologyCompiler {
  import opened Wrappers
  import opened Topology
  import Text
  import PrioritySort

  datatype PairEntry = PairEntry(forwardAllowed: Option<bool>, rules: seq<RuleInfo>, blockedByIsolation: bool)

  type PairTable = map<string, PairEntry>

  function PairKey(s: string, d: string): string {
    s + ":" + d
  }

  lemma {:induction false} PairKeySplits(s: string, d: string, s': string, d': string)
    requires |s| <= |s'|
    ensures PairKey(s, d) == PairKey(s', d') <==> (s == s' && d == d') || KeysMeet(s, d, s', d')
  {
    var k, k' := PairKey(s, d), PairKey(s', d');
    assert k[..|s|] == s && k[|s|..|s| + 1] == ":" && k[|s| + 1..] == d;
    assert k'[..|s'|] == s' && k'[|s'| + 1..] == d';
    if k == k' {
      if |s| == |s'| {
        assert s == s' && d == d';
      } else {
        assert s'[..|s| + 1] == k[..|s| + 1] == s + ":";
        assert d == k'[|s| + 1..] == s'[|s| + 1..] + ":" + d';
      }
    }
    if KeysMeet(s, d, s', d') { assert s' == s + ":" + s'[|s| + 1..]; }
  }

  /** Two pairs share a key exactly when they are the same pair or one's source runs on into the other's destination. */
  lemma SameKeyIff(s: string, d: string, s': string, d': string)
    ensures PairKey(s, d) == PairKey(s', d') <==>
      (s == s' && d == d') || KeysMeet(s, d, s', d') || KeysMeet(s', d', s, d)
  {
    if |s| <= |s'| { PairKeySplits(s, d, s', d'); } else { PairKeySplits(s', d', s, d); }
  }

  /** A source another pair's source runs on from is followed by a colon. */
  lemma MeetingSourceHasColon(s: string, d: string, s': string, d': string)
    requires KeysMeet(s, d, s', d')
    ensures ':' in s'
  {
    assert s'[|s|] == (s + ":")[|s|];
  }

  /** Ids without colons never meet. */
  lemma ColonFreeKeysApart(cfg: Config)
    requires forall i :: 0 <= i < |cfg.networks| ==> ':' !in cfg.networks[i].id
    ensures KeysApart(cfg)
  {
    forall s, d, s', d' | KeysMeet(s, d, s', d')
      ensures ':' in s'
    {
      MeetingSourceHasColon(s, d, s', d');
    }
  }

  /**
   What the pair table is measured against: the networks, which hits cover a pair, and
   which pairs are isolated. The pass is proved for any such reading of a configuration.
   */
  datatype Reading = Reading(ids: iset<string>, covers: (Hit, string, string) -> bool,
      isolated: (string, string) -> bool) {

    ghost predicate Pair(s: string, d: string) {
      s in ids && d in ids && s != d
    }
  }

  ghost function ReadingOf(cfg: Config): Reading {
    Reading(
      iset id | IsNetwork(cfg, id),
      (h, s, d) => Covers(cfg, h, s, d),
      (s, d) => Isolated(cfg, s, d))
  }

  // ---------- First match in a processed list ----------

  ghost predicate AllHits(cfg: Config, order: seq<Hit>) {
    forall k :: 0 <= k < |order| ==> IsHit(cfg, order[k])
  }

  ghost function FirstHit(r: Reading, order: seq<Hit>, s: string, d: string): (first: Option<Hit>)
    ensures first.None? <==> forall h :: h in order ==> !r.covers(h, s, d)
    ensures first.Some? ==> first.value in order && r.covers(first.value, s, d)
  {
    if order == [] then None
    else
      var last := |order| - 1;
      var earlier := FirstHit(r, order[..last], s, d);
      assert forall h :: h in order <==> h in order[..last] || h == order[last];
      if earlier.Some? then earlier
      else if r.covers(order[last], s, d) then Some(order[last])
      else None
  }

  ghost predicate RankedOrder(cfg: Config, order: seq<Hit>) {
    && AllHits(cfg, order)
    && (forall a, b :: 0 <= a < b < |order| ==> order[a] != order[b] && Outranks(cfg, order[a], order[b]))
  }

  /** In a ranked list the first match outranks every other match. */
  lemma {:induction false} FirstHitOutranks(cfg: Config, r: Reading, order: seq<Hit>, s: string, d: string, g: Hit)
    requires RankedOrder(cfg, order)
    requires g in order && r.covers(g, s, d)
    ensures
      var h := FirstHit(r, order, s, d);
      h.Some? && (g != h.value ==> Outranks(cfg, h.value, g))
  {
    var last := |order| - 1;
    var front := order[..last];
    if g in front {
      FirstHitOutranks(cfg, r, front, s, d, g);
    } else {
      var h := FirstHit(r, front, s, d);
      if h.Some? {
        var a :| 0 <= a < |front| && front[a] == h.value;
        assert order[a] == h.value && order[last] == g;
      }
    }
  }

  // ---------- The pair table ----------

  predicate Shows(rules: seq<RuleInfo>, h: Hit) {
    exists k :: 0 <= k < |rules| && rules[k].origin == h
  }

  /** Entry `e` is what first-match evaluation of `order` says about the pair. */
  ghost predicate EntryMeans(cfg: Config, r: Reading, order: seq<Hit>, s: string, d: string, e: PairEntry)
    requires AllHits(cfg, order)
  {
    var first := FirstHit(r, order, s, d);
    && e.blockedByIsolation == r.isolated(s, d)
    && (first.None? ==> e.forwardAllowed.None? && e.rules == [])
    && (first.Some? ==>
      e.forwardAllowed == Some(Permits(cfg, first.value)) && e.rules != [] && e.rules[0].origin == first.value)
    && (forall h :: Shows(e.rules, h) <==> h in order && r.covers(h, s, d))
    && AllTold(cfg, e.rules)
  }

  ghost predicate TableMeans(cfg: Config, r: Reading, order: seq<Hit>, table: PairTable)
    requires AllHits(cfg, order)
  {
    forall s, d :: r.Pair(s, d) ==> PairKey(s, d) in table && EntryMeans(cfg, r, order, s, d, table[PairKey(s, d)])
  }

  /** No two pairs of the networks share a key. */
  ghost predicate Unambiguous(r: Reading) {
    forall s, d, s', d' {:trigger KeysMeet(s, d, s', d')} :: r.Pair(s, d) && r.Pair(s', d') ==> !KeysMeet(s, d, s', d')
  }

  lemma ReadingUnambiguous(cfg: Config)
    requires WellFormed(cfg)
    ensures Unambiguous(ReadingOf(cfg))
  {
    var r := ReadingOf(cfg);
    forall s, d
      ensures r.Pair(s, d) <==> IsPair(cfg, s, d)
    {
    }
  }

  lemma KeyDeterminesPair(r: Reading, s: string, d: string, s': string, d': string)
    requires Unambiguous(r) && r.Pair(s, d) && r.Pair(s', d') && PairKey(s, d) == PairKey(s', d')
    ensures s == s' && d == d'
  {
    SameKeyIff(s, d, s', d');
  }

  /** The first loop nest: every ordered pair starts without a verdict and with its isolation flag. */
  method InitPairs(cfg: Config) returns (table: PairTable)
    requires WellFormed(cfg)
    ensures TableMeans(cfg, ReadingOf(cfg), [], table)
  {
    table := map[];
    for i := 0 to |cfg.networks|
      invariant forall a, b :: 0 <= a < i && 0 <= b < |cfg.networks| && a != b ==>
        EntryStarted(cfg, cfg.networks[a].id, cfg.networks[b].id, table)
    {
      for j := 0 to |cfg.networks|
        invariant forall a, b :: 0 <= a < i && 0 <= b < |cfg.networks| && a != b ==>
          EntryStarted(cfg, cfg.networks[a].id, cfg.networks[b].id, table)
        invariant forall b :: 0 <= b < j && i != b ==> EntryStarted(cfg, cfg.networks[i].id, cfg.networks[b].id, table)
      {
        var src, dst := cfg.networks[i], cfg.networks[j];
        if src.id == dst.id { continue; }
        var byAcl := AclLookup(cfg, src.id, dst.id);
        var blocked := src.networkIsolation || dst.networkIsolation || byAcl;
        NodeIsolation(cfg, i);
        NodeIsolation(cfg, j);
        var before := table;
        table := table[PairKey(src.id, dst.id) := PairEntry(None, [], blocked)];
        forall a, b | 0 <= a < |cfg.networks| && 0 <= b < |cfg.networks| && a != b
          && EntryStarted(cfg, cfg.networks[a].id, cfg.networks[b].id, before)
          ensures EntryStarted(cfg, cfg.networks[a].id, cfg.networks[b].id, table)
        {
          if PairKey(cfg.networks[a].id, cfg.networks[b].id) == PairKey(src.id, dst.id) {
            ReadingUnambiguous(cfg);
            KeyDeterminesPair(ReadingOf(cfg), cfg.networks[a].id, cfg.networks[b].id, src.id, dst.id);
          }
        }
      }
    }
    AllStarted(cfg, table);
  }

  lemma AllStarted(cfg: Config, table: PairTable)
    requires forall a, b :: 0 <= a < |cfg.networks| && 0 <= b < |cfg.networks| && a != b ==>
      EntryStarted(cfg, cfg.networks[a].id, cfg.networks[b].id, table)
    ensures TableMeans(cfg, ReadingOf(cfg), [], table)
  {
    var r := ReadingOf(cfg);
    forall s, d | r.Pair(s, d)
      ensures PairKey(s, d) in table && EntryMeans(cfg, r, [], s, d, table[PairKey(s, d)])
    {
      var a: nat :| a < |cfg.networks| && cfg.networks[a].id == s;
      var b: nat :| b < |cfg.networks| && cfg.networks[b].id == d;
      StartMeans(cfg, cfg.networks[a].id, cfg.networks[b].id, table);
    }
  }

  lemma StartMeans(cfg: Config, s: string, d: string, table: PairTable)
    requires EntryStarted(cfg, s, d, table)
    ensures EntryMeans(cfg, ReadingOf(cfg), [], s, d, table[PairKey(s, d)])
  {
  }

  ghost predicate EntryStarted(cfg: Config, s: string, d: string, table: PairTable) {
    PairKey(s, d) in table && table[PairKey(s, d)] == PairEntry(None, [], Isolated(cfg, s, d))
  }

  lemma NodeIsolation(cfg: Config, i: nat)
    requires UniqueIds(cfg) && i < |cfg.networks|
    ensures HasIsolation(cfg, cfg.networks[i].id) <==> cfg.networks[i].networkIsolation
  {
  }

  predicate Listed(table: map<string, set<string>>, s: string, d: string) {
    s in table && d in table[s]
  }

  /** The switch-level lookup: a set of blocked destinations per source. */
  method AclLookup(cfg: Config, s: string, d: string) returns (blocked: bool)
    ensures blocked <==> AclBlocks(cfg, s, d)
  {
    var l3AclBlocked: map<string, set<string>> := map[];
    for k := 0 to |cfg.acl|
      invariant forall x, y :: Listed(l3AclBlocked, x, y) ==> exists m :: 0 <= m < k && AclEntryBlocks(cfg.acl[m], x, y)
      invariant forall x, y, m :: 0 <= m < k && AclEntryBlocks(cfg.acl[m], x, y) ==> Listed(l3AclBlocked, x, y)
    {
      var entry := cfg.acl[k];
      var before := l3AclBlocked;
      var known := if entry.sourceNetwork in before then before[entry.sourceNetwork] else {};
      l3AclBlocked := before[entry.sourceNetwork := known + set y | y in entry.destinationNetworks];
      assert forall x, y :: Listed(l3AclBlocked, x, y) <==> Listed(before, x, y) || AclEntryBlocks(entry, x, y);
    }
    blocked := Listed(l3AclBlocked, s, d);
  }

  // ---------- One rule or policy ----------

  /** First match wins; every covering rule is listed for display. */
  function Touch(cfg: Config, h: Hit, e: PairEntry): PairEntry
    requires IsHit(cfg, h)
  {
    PairEntry(
      if e.forwardAllowed.None? then Some(Permits(cfg, h)) else e.forwardAllowed,
      e.rules + [InfoOf(cfg, h)], e.blockedByIsolation)
  }

  lemma FirstHitAppend(r: Reading, order: seq<Hit>, h: Hit, s: string, d: string)
    ensures FirstHit(r, order + [h], s, d) ==
            var first := FirstHit(r, order, s, d);
            if first.Some? then first else if r.covers(h, s, d) then Some(h) else None
  {
    assert (order + [h])[..|order|] == order;
  }

  lemma UntouchedEntry(cfg: Config, r: Reading, order: seq<Hit>, h: Hit, s: string, d: string, e: PairEntry)
    requires AllHits(cfg, order) && IsHit(cfg, h) && !r.covers(h, s, d)
    requires EntryMeans(cfg, r, order, s, d, e)
    ensures EntryMeans(cfg, r, order + [h], s, d, e)
  {
    FirstHitAppend(r, order, h, s, d);
  }

  lemma ShowsAppend(rules: seq<RuleInfo>, info: RuleInfo, g: Hit)
    ensures Shows(rules + [info], g) <==> Shows(rules, g) || info.origin == g
  {
    var rules' := rules + [info];
    assert rules'[|rules|] == info;
    if k :| 0 <= k < |rules| && rules[k].origin == g {
      assert rules'[k].origin == g;
    }
  }

  /** `order'` is the processed list before or after this rule's first visit to the pair. */
  lemma TouchedEntry(
    cfg: Config, r: Reading, order: seq<Hit>, order': seq<Hit>, h: Hit, s: string, d: string, e: PairEntry)
    requires AllHits(cfg, order) && IsHit(cfg, h) && r.covers(h, s, d)
    requires order' == order || order' == order + [h]
    requires EntryMeans(cfg, r, order', s, d, e)
    ensures EntryMeans(cfg, r, order + [h], s, d, Touch(cfg, h, e))
  {
    FirstHitAppend(r, order, h, s, d);
    ToldAppend(cfg, h, e.rules);
    forall g {
      ShowsAppend(e.rules, InfoOf(cfg, h), g);
    }
  }

  lemma ToldAppend(cfg: Config, h: Hit, rules: seq<RuleInfo>)
    requires IsHit(cfg, h) && AllTold(cfg, rules)
    ensures AllTold(cfg, rules + [InfoOf(cfg, h)])
  {
  }

  ghost predicate Visited(srcs: seq<string>, dsts: seq<string>, i: nat, j: nat, s: string, d: string)
    requires i <= |srcs| && j <= |dsts|
  {
    (s in srcs[..i] && d in dsts) || (i < |srcs| && s == srcs[i] && d in dsts[..j])
  }

  ghost function OrderAt(order: seq<Hit>, h: Hit, visited: bool): seq<Hit> {
    if visited then order + [h] else order
  }

  ghost predicate Partway(
    cfg: Config, r: Reading, order: seq<Hit>, h: Hit, srcs: seq<string>, dsts: seq<string>, i: nat, j: nat,
    table: PairTable)
    requires AllHits(cfg, order) && IsHit(cfg, h) && i <= |srcs| && j <= |dsts|
  {
    forall s, d :: r.Pair(s, d) ==>
      && PairKey(s, d) in table
      && EntryMeans(cfg, r, OrderAt(order, h, Visited(srcs, dsts, i, j, s, d)), s, d, table[PairKey(s, d)])
  }

  /** The nested loops that apply one rule or policy to every pair it covers. */
  method ApplyHit(
    cfg: Config, ghost r: Reading, table: PairTable, ghost order: seq<Hit>, h: Hit, srcs: seq<string>,
    dsts: seq<string>)
    returns (updated: PairTable)
    requires AllHits(cfg, order) && IsHit(cfg, h) && Unambiguous(r) && TableMeans(cfg, r, order, table)
    requires forall id :: id in r.ids <==> IsNetwork(cfg, id)
    requires forall s, d :: r.Pair(s, d) ==> (r.covers(h, s, d) <==> s in srcs && d in dsts)
    ensures TableMeans(cfg, r, order + [h], updated)
  {
    updated := table;
    for i := 0 to |srcs|
      invariant Partway(cfg, r, order, h, srcs, dsts, i, 0, updated)
    {
      var src := srcs[i];
      for j := 0 to |dsts|
        invariant Partway(cfg, r, order, h, srcs, dsts, i, j, updated)
      {
        var dst := dsts[j];
        assert dsts[..j + 1] == dsts[..j] + [dst];
        if IsNetwork(cfg, src) && IsNetwork(cfg, dst) && src != dst {
          assert r.Pair(src, dst);
          var before := updated;
          updated := before[PairKey(src, dst) := Touch(cfg, h, before[PairKey(src, dst)])];
          PartwayStep(cfg, r, order, h, srcs, dsts, i, j, before, updated);
        }
      }
      assert srcs[..i + 1] == srcs[..i] + [src];
      assert dsts[..|dsts|] == dsts;
    }
    PartwayDone(cfg, r, order, h, srcs, dsts, updated);
  }

  lemma PartwayDone(
    cfg: Config, r: Reading, order: seq<Hit>, h: Hit, srcs: seq<string>, dsts: seq<string>, table: PairTable)
    requires AllHits(cfg, order) && IsHit(cfg, h) && Partway(cfg, r, order, h, srcs, dsts, |srcs|, 0, table)
    requires forall s, d :: r.Pair(s, d) ==> (r.covers(h, s, d) <==> s in srcs && d in dsts)
    ensures TableMeans(cfg, r, order + [h], table)
  {
    assert srcs[..|srcs|] == srcs;
    forall s, d | r.Pair(s, d)
      ensures EntryMeans(cfg, r, order + [h], s, d, table[PairKey(s, d)])
    {
      if !Visited(srcs, dsts, |srcs|, 0, s, d) {
        UntouchedEntry(cfg, r, order, h, s, d, table[PairKey(s, d)]);
      }
    }
  }

  lemma PartwayStep(
    cfg: Config, r: Reading, order: seq<Hit>, h: Hit, srcs: seq<string>, dsts: seq<string>, i: nat, j: nat,
    before: PairTable, after: PairTable)
    requires AllHits(cfg, order) && IsHit(cfg, h) && i < |srcs| && j < |dsts| && Unambiguous(r)
    requires r.Pair(srcs[i], dsts[j]) && r.covers(h, srcs[i], dsts[j])
    requires Partway(cfg, r, order, h, srcs, dsts, i, j, before)
    requires after == before[PairKey(srcs[i], dsts[j]) := Touch(cfg, h, before[PairKey(srcs[i], dsts[j])])]
    ensures Partway(cfg, r, order, h, srcs, dsts, i, j + 1, after)
  {
    forall s, d | r.Pair(s, d)
      ensures PairKey(s, d) in after
      ensures EntryMeans(cfg, r, OrderAt(order, h, Visited(srcs, dsts, i, j + 1, s, d)), s, d, after[PairKey(s, d)])
    {
      VisitedStep(srcs, dsts, i, j, s, d);
      if s == srcs[i] && d == dsts[j] {
        TouchedEntry(cfg, r, order, OrderAt(order, h, Visited(srcs, dsts, i, j, s, d)), h, s, d, before[PairKey(s, d)]);
      } else if PairKey(s, d) == PairKey(srcs[i], dsts[j]) {
        KeyDeterminesPair(r, s, d, srcs[i], dsts[j]);
      }
    }
  }

  lemma VisitedStep(srcs: seq<string>, dsts: seq<string>, i: nat, j: nat, s: string, d: string)
    requires i < |srcs| && j < |dsts|
    ensures Visited(srcs, dsts, i, j + 1, s, d) <==> Visited(srcs, dsts, i, j, s, d) || (s == srcs[i] && d == dsts[j])
  {
    assert dsts[..j + 1] == dsts[..j] + [dsts[j]];
  }
}
