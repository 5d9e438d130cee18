/**
 The detector's evaluate loop: pages of findings, chunks of flow ids, chunks of scopes, pages of
 threats. Proved to report exactly the relational join, for every page size and any order of flow rows.
 */
module CorroborationPass {
  import opened Wrappers
  import opened Identity
  import opened Corroboration
  import opened Grouped
  import Paging

  // ---------- Candidates of a page ----------

  /** The loop over a finding's evidence. */
  method ReadEvidence(p: Platform, items: seq<EvidenceItem>, indicator: string)
    returns (flowIds: set<string>, feeds: seq<string>)
    ensures flowIds == FlowIds(items) && feeds == Feeds(p, items, indicator)
  {
    flowIds, feeds := {}, [];
    for i := 0 to |items|
      invariant flowIds == FlowIds(items[..i]) && feeds == Feeds(p, items[..i], indicator)
    {
      assert items[..i + 1][..i] == items[..i];
      assert items[..i + 1] == items[..i] + [items[i]];
      FlowIdsAppend(items[..i], items[i]);
      if items[i].FlowItem? && items[i].id != "" { flowIds := flowIds + {items[i].id}; }
      if NamesIndicator(p, items[i], indicator) { feeds := feeds + [items[i].feed]; }
    }
    assert items[..|items|] == items;
  }

  method CandidateFrom(p: Platform, row: FindingRow) returns (c: Option<Candidate>)
    ensures c == CandidateOf(p, row)
  {
    if row.metadata.None? || row.metadata.value.identity.None? { return None; }
    var identity := ParseDetectorIdentity(p, row.metadata.value.identity.value);
    if identity.None? || identity.value.sourceKind != Unifi || identity.value.connectionId.None?
      || identity.value.scopeId.None? {
      return None;
    }
    if identity.value.srcMac.None? && identity.value.srcIp.None? { return None; }
    var indicator := NormalizeIp(p, row.metadata.value.matchedValue);
    if indicator.None? || row.evidence.None? { return None; }
    var flowIds, feeds := ReadEvidence(p, row.evidence.value, indicator.value);
    c := if flowIds == {} || feeds == [] then None
      else Some(Candidate(row.id, identity.value, indicator.value, flowIds, feeds));
  }

  lemma FlowIdsAppend(items: seq<EvidenceItem>, e: EvidenceItem)
    ensures FlowIds(items + [e]) == FlowIds(items) + if e.FlowItem? && e.id != "" then {e.id} else {}
  {
    assert forall x :: x in items + [e] <==> x in items || x == e;
  }

  method CandidatesFrom(p: Platform, rows: seq<FindingRow>) returns (cs: seq<Candidate>)
    ensures forall c :: c in cs <==> c in Candidates(p, rows)
  {
    cs := [];
    for i := 0 to |rows|
      invariant forall c :: c in cs <==> c in Candidates(p, rows[..i])
    {
      var c := CandidateFrom(p, rows[i]);
      assert rows[..i + 1] == rows[..i] + [rows[i]];
      if c.Some? { cs := cs + [c.value]; }
    }
    assert rows[..|rows|] == rows;
  }

  predicate Indexed(byFlowId: map<string, seq<Candidate>>, id: string, c: Candidate) {
    id in byFlowId && c in byFlowId[id]
  }

  /** The inverted index from flow id to the candidates naming it; its keys in insertion order. */
  method IndexByFlow(cs: seq<Candidate>) returns (byFlowId: map<string, seq<Candidate>>, flowIds: seq<string>)
    ensures forall id, c :: Indexed(byFlowId, id, c) <==> c in cs && id in c.flowIds
    ensures Distinct(flowIds) && forall id :: id in flowIds <==> id in byFlowId
  {
    byFlowId, flowIds := map[], [];
    for i := 0 to |cs|
      invariant forall id, c :: Indexed(byFlowId, id, c) <==> c in cs[..i] && id in c.flowIds
      invariant Distinct(flowIds) && forall id :: id in flowIds <==> id in byFlowId
    {
      var candidate := cs[i];
      var todo := candidate.flowIds;
      ghost var start := byFlowId;
      while todo != {}
        invariant todo <= candidate.flowIds
        invariant forall id, c :: Indexed(byFlowId, id, c) <==>
          Indexed(start, id, c) || (c == candidate && id in candidate.flowIds - todo)
        invariant Distinct(flowIds) && forall id :: id in flowIds <==> id in byFlowId
      {
        var id :| id in todo;
        var entries := if id in byFlowId then byFlowId[id] else [];
        if id !in byFlowId { flowIds := flowIds + [id]; }
        ghost var before := byFlowId;
        byFlowId := byFlowId[id := entries + [candidate]];
        assert forall x, c :: Indexed(byFlowId, x, c) <==> Indexed(before, x, c) || (x == id && c == candidate);
        todo := todo - {id};
      }
      assert cs[..i + 1] == cs[..i] + [candidate];
    }
    assert cs[..|cs|] == cs;
  }

  // ---------- Queries ----------

  predicate Selected(ctx: Context, ids: seq<string>, f: FlowRow) {
    f.id in ids && InWindow(ctx, f.occurredAt) && f.scopeId.Some?
  }

  ghost predicate AllSelected(db: Database, ctx: Context, ids: seq<string>, rows: seq<FlowRow>) {
    forall f :: f in db.flows && Selected(ctx, ids, f) ==> f in rows
  }

  /** Selected flows, in an order of the database's choosing, cut off after `take` rows. */
  method FindFlows(db: Database, ctx: Context, ids: seq<string>, take: nat) returns (rows: seq<FlowRow>)
    requires Sound(db)
    ensures Distinct(rows) && forall f :: f in rows ==> f in db.flows && Selected(ctx, ids, f)
    ensures |rows| <= take && (|rows| == take || AllSelected(db, ctx, ids, rows))
  {
    rows := [];
    for i := 0 to |db.flows|
      invariant |rows| <= take && Distinct(rows)
      invariant forall f :: f in rows ==> f in db.flows[..i] && Selected(ctx, ids, f)
      invariant |rows| == take || forall f :: f in db.flows[..i] && Selected(ctx, ids, f) ==> f in rows
    {
      assert db.flows[..i + 1] == db.flows[..i] + [db.flows[i]];
      if Selected(ctx, ids, db.flows[i]) && |rows| < take { rows := rows + [db.flows[i]]; }
    }
    assert db.flows[..|db.flows|] == db.flows;
  }

  lemma {:induction false} DistinctCount<T(!new)>(s: seq<T>)
    requires Distinct(s)
    ensures |set x | x in s| == |s|
  {
    if s == [] {
      assert (set x | x in s) == {};
    } else {
      var last := |s| - 1;
      DistinctCount(s[..last]);
      assert s == s[..last] + [s[last]];
      assert (set x | x in s) == (set x | x in s[..last]) + {s[last]};
    }
  }

  function Ids(rows: seq<FlowRow>): seq<string> {
    seq(|rows|, i requires 0 <= i < |rows| => rows[i].id)
  }

  lemma IdsDistinct(db: Database, rows: seq<FlowRow>)
    requires Sound(db) && Distinct(rows) && forall f :: f in rows ==> f in db.flows
    ensures Distinct(Ids(rows))
  {
    forall i, j | 0 <= i < j < |rows|
      ensures Ids(rows)[i] != Ids(rows)[j]
    {
      SameIdSameFlow(db, rows[i], rows[j]);
    }
  }

  lemma SameIdSameFlow(db: Database, f: FlowRow, g: FlowRow)
    requires Sound(db) && f in db.flows && g in db.flows
    ensures f.id == g.id ==> f == g
  {
  }

  /** The ids of a chunk are unique, so asking for at most that many rows cuts nothing off. */
  lemma ChunkIsComplete(db: Database, ctx: Context, ids: seq<string>, take: nat, rows: seq<FlowRow>)
    requires Sound(db) && Distinct(rows) && forall f :: f in rows ==> f in db.flows && Selected(ctx, ids, f)
    requires |ids| <= take == |rows| && Distinct(ids)
    ensures AllSelected(db, ctx, ids, rows)
  {
    IdsDistinct(db, rows);
    DistinctCount(ids);
    DistinctCount(Ids(rows));
    var wanted, got := set x | x in ids, set x | x in Ids(rows);
    forall id | id in got
      ensures id in wanted
    {
      var i :| 0 <= i < |rows| && Ids(rows)[i] == id;
      assert rows[i] in rows;
    }
    SubsetOfSameSize(got, wanted);
    forall f | f in db.flows && Selected(ctx, ids, f)
      ensures f in rows
    {
      assert f.id in got;
      var i :| 0 <= i < |rows| && Ids(rows)[i] == f.id;
      SameIdSameFlow(db, rows[i], f);
    }
  }

  lemma SubsetOfSameSize<T>(a: set<T>, b: set<T>)
    requires a <= b && |a| >= |b|
    ensures a == b
  {
    assert b == a + (b - a);
  }

  // ---------- Matching flows ----------

  datatype FlowMatch = FlowMatch(candidate: Candidate, flow: FlowRow, identity: DetectorIdentity)

  type SourceKey = (string, string)

  type Matches = map<SourceKey, seq<FlowMatch>>

  /** The (scope, source address) pair a match is filed under. */
  function KeyOf(p: Platform, f: FlowRow): SourceKey {
    (f.scopeId.GetOr(""), NormalizeIp(p, f.srcIp).GetOr(""))
  }

  predicate Filed(m: Matches, key: SourceKey, x: FlowMatch) {
    key in m && x in m[key]
  }

  predicate IsMatch(p: Platform, ctx: Context, x: FlowMatch) {
    FlowMatches(p, ctx, x.candidate, x.flow) && FlowIdentity(p, x.flow) == Some(x.identity)
  }

  ghost predicate HasScopes(m: Matches, scopes: seq<string>) {
    forall key :: key in m ==> key.0 in scopes
  }

  method File(m: Matches, scopes: seq<string>, key: SourceKey, x: FlowMatch) returns (m': Matches, scopes': seq<string>)
    requires HasScopes(m, scopes)
    ensures HasScopes(m', scopes')
    ensures forall k, y :: Filed(m', k, y) <==> Filed(m, k, y) || (k == key && y == x)
  {
    var matches := if key in m then m[key] else [];
    m' := m[key := matches + [x]];
    scopes' := if key.0 in scopes then scopes else scopes + [key.0];
  }

  /** The candidates naming one flow are compared with it. */
  method MatchFlow(p: Platform, ctx: Context, named: seq<Candidate>, flow: FlowRow, m: Matches, scopes: seq<string>)
    returns (m': Matches, scopes': seq<string>)
    requires HasScopes(m, scopes) && flow.scopeId.Some? && Nonempty(Some(flow.id)).Some?
    requires forall c :: c in named ==> flow.id in c.flowIds
    ensures HasScopes(m', scopes')
    ensures forall k, y :: Filed(m', k, y) <==>
                           Filed(m, k, y)
                             || (k == KeyOf(p, flow) && y.flow == flow && y.candidate in named && IsMatch(p, ctx, y))
  {
    m', scopes' := m, scopes;
    var srcIp := NormalizeIp(p, flow.srcIp);
    if flow.scopeId == Some("") || srcIp.None? || !InWindow(ctx, flow.occurredAt) { return; }
    var identity := FlowIdentity(p, flow).value;
    for i := 0 to |named|
      invariant HasScopes(m', scopes')
      invariant forall k, y :: Filed(m', k, y) <==>
                               Filed(m, k, y)
                                 || (k == KeyOf(p, flow) && y.flow == flow && y.candidate in named[..i]
                                 && IsMatch(p, ctx, y))
    {
      var c := named[i];
      assert named[..i + 1] == named[..i] + [c];
      var x := FlowMatch(c, flow, identity);
      ghost var before := m';
      if c.identity.connectionId == Some(flow.connectionId) && c.identity.scopeId == flow.scopeId
         && DeviceIdentityKey(c.identity) == DeviceIdentityKey(identity)
           && NormalizeIp(p, flow.dstIp) == Some(c.indicator)
      {
        m', scopes' := File(m', scopes', (flow.scopeId.value, srcIp.value), x);
        assert IsMatch(p, ctx, x);
      } else {
        assert !IsMatch(p, ctx, x);
      }
      assert forall y: FlowMatch :: y.flow == flow && y.candidate == c && IsMatch(p, ctx, y) ==> y == x;
    }
    assert named[..|named|] == named;
  }

  predicate Names(byFlowId: map<string, seq<Candidate>>, db: Database, y: FlowMatch) {
    y.flow in db.flows && Indexed(byFlowId, y.flow.id, y.candidate)
  }

  /** One chunk of flow ids. */
  method MatchChunk(
    p: Platform, ctx: Context, db: Database, byFlowId: map<string, seq<Candidate>>, ids: seq<string>, take: nat,
    m: Matches, scopes: seq<string>, ghost wanted: FlowMatch -> bool)
    returns (m': Matches, scopes': seq<string>)
    requires Sound(db) && Distinct(ids) && |ids| <= take && HasScopes(m, scopes)
    requires forall id, c :: Indexed(byFlowId, id, c) ==> id in c.flowIds
    requires forall y :: wanted(y) <==> Names(byFlowId, db, y) && IsMatch(p, ctx, y)
    ensures HasScopes(m', scopes')
    ensures forall k, y :: Filed(m', k, y) <==>
      Filed(m, k, y) || (k == KeyOf(p, y.flow) && y.flow.id in ids && wanted(y))
  {
    m', scopes' := m, scopes;
    var flows := FindFlows(db, ctx, ids, take);
    if |flows| == take { ChunkIsComplete(db, ctx, ids, take, flows); }
    for i := 0 to |flows|
      invariant HasScopes(m', scopes')
      invariant forall k, y :: Filed(m', k, y) <==>
                               Filed(m, k, y)
                                 || (k == KeyOf(p, y.flow) && y.flow in flows[..i] && Names(byFlowId, db, y)
                                 && IsMatch(p, ctx, y))
    {
      assert flows[..i + 1] == flows[..i] + [flows[i]];
      assert flows[i] in flows;
      var named := if flows[i].id in byFlowId then byFlowId[flows[i].id] else [];
      assert forall c :: c in named <==> Indexed(byFlowId, flows[i].id, c);
      m', scopes' := MatchFlow(p, ctx, named, flows[i], m', scopes');
    }
    assert flows[..|flows|] == flows;
    forall y: FlowMatch | Names(byFlowId, db, y) && IsMatch(p, ctx, y)
      ensures y.flow in flows <==> y.flow.id in ids
    {
      MatchIsSelected(p, ctx, ids, y);
    }
  }

  lemma MatchIsSelected(p: Platform, ctx: Context, ids: seq<string>, y: FlowMatch)
    requires IsMatch(p, ctx, y)
    ensures Selected(ctx, ids, y.flow) <==> y.flow.id in ids
  {
  }

  /** All chunks: `offset` runs over the flow ids in steps of the page size. */
  method MatchChunks(
    p: Platform, ctx: Context, db: Database, byFlowId: map<string, seq<Candidate>>, flowIds: seq<string>,
    pageSize: nat, ghost wanted: FlowMatch -> bool)
    returns (m: Matches, scopes: seq<string>)
    requires Sound(db) && pageSize > 0 && Distinct(flowIds)
    requires forall id, c :: Indexed(byFlowId, id, c) ==> id in c.flowIds
    requires forall y {:trigger Names(byFlowId, db, y)} :: wanted(y) <==> Names(byFlowId, db, y) && IsMatch(p, ctx, y)
    ensures HasScopes(m, scopes)
    ensures forall k, y :: Filed(m, k, y) <==> k == KeyOf(p, y.flow) && y.flow.id in flowIds && wanted(y)
  {
    m, scopes := map[], [];
    var offset := 0;
    while offset < |flowIds|
      invariant HasScopes(m, scopes)
      invariant forall k, y :: Filed(m, k, y) <==>
        k == KeyOf(p, y.flow) && y.flow.id in flowIds[..Upto(offset, flowIds)] && wanted(y)
    {
      var ids := flowIds[offset..Upto(offset + pageSize, flowIds)];
      InSplit(flowIds, offset, Upto(offset + pageSize, flowIds));
      m, scopes := MatchChunk(p, ctx, db, byFlowId, ids, pageSize, m, scopes, wanted);
      offset := offset + pageSize;
    }
    assert flowIds[..|flowIds|] == flowIds;
  }

  method MatchFlows(p: Platform, ctx: Context, db: Database, cs: seq<Candidate>, pageSize: nat)
    returns (m: Matches, scopes: seq<string>)
    requires Sound(db) && pageSize > 0
    ensures HasScopes(m, scopes)
    ensures forall k, y :: Filed(m, k, y) <==>
      k == KeyOf(p, y.flow) && y.candidate in cs && y.flow in db.flows && IsMatch(p, ctx, y)
  {
    var byFlowId, flowIds := IndexByFlow(cs);
    ghost var wanted := RealMatch(p, ctx, db, cs);
    forall y
      ensures wanted(y) <==> Names(byFlowId, db, y) && IsMatch(p, ctx, y)
      ensures wanted(y) ==> y.flow.id in flowIds
    {
      if IsMatch(p, ctx, y) { MatchIsNamed(p, ctx, byFlowId, y); }
    }
    m, scopes := MatchChunks(p, ctx, db, byFlowId, flowIds, pageSize, wanted);
  }

  lemma InSplit(s: seq<string>, from: nat, to: nat)
    requires from <= to <= |s|
    ensures forall x :: x in s[..to] <==> x in s[..from] || x in s[from..to]
  {
    assert s[..to] == s[..from] + s[from..to];
  }

  ghost function RealMatch(p: Platform, ctx: Context, db: Database, cs: seq<Candidate>): FlowMatch -> bool {
    (y: FlowMatch) => y.candidate in cs && y.flow in db.flows && IsMatch(p, ctx, y)
  }

  lemma MatchIsNamed(p: Platform, ctx: Context, byFlowId: map<string, seq<Candidate>>, y: FlowMatch)
    requires IsMatch(p, ctx, y)
    ensures y.flow.id in y.candidate.flowIds
    ensures Indexed(byFlowId, y.flow.id, y.candidate) ==> y.flow.id in byFlowId
  {
  }

  /** Where `slice(.., end)` stops. */
  function Upto<T>(end: nat, s: seq<T>): (k: nat)
    ensures k <= |s| && (k == end || (k == |s| && |s| < end))
  {
    if end <= |s| then end else |s|
  }

  // ---------- Joining threats ----------

  type Log = Grouped.Log<Triple>

  function RecordTriple(p: Platform, corrs: map<Fingerprint, Correlation>, x: Triple): map<Fingerprint, Correlation> {
    if FlowIdentity(p, x.flow).Some? then Record(p, corrs, ContributionOf(p, x)) else corrs
  }

  function Recorded(p: Platform, log: Log): map<Fingerprint, Correlation> {
    match log
    case Nothing => map[]
    case Then(before, x) => RecordTriple(p, Recorded(p, before), x)
  }

  function Contributed(p: Platform, log: Log): set<Contribution> {
    match log
    case Nothing => {}
    case Then(before, x) =>
      Contributed(p, before) + if FlowIdentity(p, x.flow).Some? then {ContributionOf(p, x)} else {}
  }

  lemma {:induction false} ContributedSeen(p: Platform, log: Log)
    ensures Contributed(p, log) == Contributions(p, Seen(log))
  {
    if log.Then? {
      ContributedSeen(p, log.before);
      ContributionsAdd(p, Seen(log.before), log.x);
    }
  }

  lemma ContributionsAdd(p: Platform, xs: set<Triple>, x: Triple)
    ensures Contributions(p, xs + {x}) == Contributions(p, xs) +
      if FlowIdentity(p, x.flow).Some? then {ContributionOf(p, x)} else {}
  {
  }

  ghost predicate AllDated(p: Platform, ys: set<Contribution>) {
    forall y :: y in ys ==> Dated(p, y)
  }

  lemma {:induction false} ContributedDated(p: Platform, log: Log)
    requires Lawful(p)
    ensures AllDated(p, Contributed(p, log))
  {
    if log.Then? {
      ContributedDated(p, log.before);
      if FlowIdentity(p, log.x.flow).Some? { FlowContributionDated(p, log.x); }
    }
  }

  type Relation = (map<Fingerprint, Correlation>, set<Contribution>) -> bool

  ghost predicate KeptByRecord(p: Platform, relation: Relation) {
    forall corrs, ys, y :: relation(corrs, ys) && AllDated(p, ys) ==> relation(Record(p, corrs, y), ys + {y})
  }

  /** What every recording keeps holds of the whole log. */
  lemma {:induction false} AlongLog(p: Platform, log: Log, relation: Relation)
    requires Lawful(p) && KeptByRecord(p, relation) && relation(map[], {})
    ensures relation(Recorded(p, log), Contributed(p, log))
  {
    if log.Then? {
      AlongLog(p, log.before, relation);
      ContributedDated(p, log.before);
      AlongStep(p, log, relation);
    }
  }

  lemma AlongStep(p: Platform, log: Log, relation: Relation)
    requires log.Then? && KeptByRecord(p, relation)
    requires AllDated(p, Contributed(p, log.before)) && relation(Recorded(p, log.before), Contributed(p, log.before))
    ensures relation(Recorded(p, log), Contributed(p, log))
  {
    if FlowIdentity(p, log.x.flow).Some? {
      assert relation(Record(p, Recorded(p, log.before), ContributionOf(p, log.x)),
        Contributed(p, log.before) + {ContributionOf(p, log.x)});
    } else {
      assert Contributed(p, log) == Contributed(p, log.before);
    }
  }

  /** Whatever was recorded, in whatever order and however often, is reported. */
  lemma RecordedReports(p: Platform, log: Log)
    requires Lawful(p)
    ensures Reports(Recorded(p, log), Contributed(p, log))
  {
    var relation: Relation := (corrs, ys) => Reports(corrs, ys);
    forall corrs, ys, y | relation(corrs, ys) && AllDated(p, ys)
      ensures relation(Record(p, corrs, y), ys + {y})
    {
      RecordReports(p, corrs, ys, y);
    }
    AlongLog(p, log, relation);
  }

  /** The triples whose threat is one of `ts`. */
  ghost function Part(
    p: Platform, ctx: Context, cs: set<Candidate>, flows: seq<FlowRow>, ts: set<ThreatRow>): set<Triple> {
    set c, f, t | c in cs && f in flows && t in ts && Corroborates(p, ctx, Triple(c, f, t)) :: Triple(c, f, t)
  }

  ghost predicate FiledMatches(p: Platform, ctx: Context, cs: set<Candidate>, flows: seq<FlowRow>, m: Matches) {
    forall k, y :: Filed(m, k, y) <==>
      k == KeyOf(p, y.flow) && y.candidate in cs && y.flow in flows && IsMatch(p, ctx, y)
  }

  type Reading = set<ThreatRow> -> set<Triple>

  /** `part` stands for Part on these candidates and flows; proofs that only combine parts need not look inside. */
  ghost predicate ReadsPart(part: Reading, p: Platform, ctx: Context, cs: set<Candidate>, flows: seq<FlowRow>) {
    forall ts {:trigger Part(p, ctx, cs, flows, ts)} :: part(ts) == Part(p, ctx, cs, flows, ts)
  }

  /** Everything the inner loops need to know about the matches found. */
  ghost predicate Prepared(
    p: Platform, ctx: Context, cs: set<Candidate>, flows: seq<FlowRow>, m: Matches, part: Reading) {
    FiledMatches(p, ctx, cs, flows, m) && ReadsPart(part, p, ctx, cs, flows)
  }

  type RecordReading = Log -> map<Fingerprint, Correlation>

  /** `rec` stands for Recorded, in the same way. */
  ghost predicate ReadsRecorded(rec: RecordReading, p: Platform) {
    forall log {:trigger Recorded(p, log)} :: rec(log) == Recorded(p, log)
  }

  lemma RecordedStep(p: Platform, rec: RecordReading, log: Log, x: Triple)
    requires ReadsRecorded(rec, p)
    ensures rec(Then(log, x)) == RecordTriple(p, rec(log), x)
  {
    assert Recorded(p, Then(log, x)) == RecordTriple(p, Recorded(p, log), x);
  }

  /** One threat against the matches filed under its scope and source. */
  method JoinThreat(
    p: Platform, ctx: Context, ghost cs: set<Candidate>, ghost flows: seq<FlowRow>, m: Matches,
    ghost part: Reading, threat: ThreatRow, corrs: map<Fingerprint, Correlation>, ghost log: Log,
    ghost rec: RecordReading)
    returns (corrs': map<Fingerprint, Correlation>, ghost log': Log)
    requires Prepared(p, ctx, cs, flows, m, part) && corrs == rec(log) && ReadsRecorded(rec, p)
    ensures corrs' == rec(log') && Seen(log') == Seen(log) + part({threat})
  {
    corrs', log' := corrs, log;
    var srcIp := NormalizeIp(p, threat.srcIp);
    if !UsableThreat(p, ctx, threat) {
      assert Part(p, ctx, cs, flows, {threat}) == {};
      return;
    }
    var key := (threat.scopeId.value, srcIp.value);
    var matches := if key in m then m[key] else [];
    corrs', log' := JoinMatches(p, matches, threat, corrs, log, rec);
    MatchesOfThreat(p, ctx, cs, flows, m, threat, key, matches);
  }

  method JoinMatches(
    p: Platform, matches: seq<FlowMatch>, threat: ThreatRow, corrs: map<Fingerprint, Correlation>, ghost log: Log,
    ghost rec: RecordReading)
    returns (corrs': map<Fingerprint, Correlation>, ghost log': Log)
    requires corrs == rec(log) && ReadsRecorded(rec, p)
    ensures corrs' == rec(log') && Seen(log') == Seen(log) + TriplesOf(matches, threat)
  {
    corrs', log' := corrs, log;
    for i := 0 to |matches|
      invariant corrs' == rec(log') && Seen(log') == Seen(log) + TriplesOf(matches[..i], threat)
    {
      var y := matches[i];
      assert matches[..i + 1] == matches[..i] + [y];
      TriplesOfAppend(matches[..i], y, threat);
      if y.flow.connectionId == threat.connectionId {
        var x := Triple(y.candidate, y.flow, threat);
        RecordedStep(p, rec, log', x);
        corrs' := RecordTriple(p, corrs', x);
        log' := Then(log', x);
      }
    }
    assert matches[..|matches|] == matches;
  }

  lemma TriplesOfAppend(matches: seq<FlowMatch>, y: FlowMatch, threat: ThreatRow)
    ensures TriplesOf(matches + [y], threat) == TriplesOf(matches, threat) +
      if y.flow.connectionId == threat.connectionId then {Triple(y.candidate, y.flow, threat)} else {}
  {
  }

  function TriplesOf(matches: seq<FlowMatch>, threat: ThreatRow): set<Triple> {
    set y | y in matches && y.flow.connectionId == threat.connectionId :: Triple(y.candidate, y.flow, threat)
  }

  lemma MatchesOfThreat(
    p: Platform, ctx: Context, cs: set<Candidate>, flows: seq<FlowRow>, m: Matches, threat: ThreatRow,
    key: SourceKey, matches: seq<FlowMatch>)
    requires FiledMatches(p, ctx, cs, flows, m) && UsableThreat(p, ctx, threat)
    requires key == (threat.scopeId.value, NormalizeIp(p, threat.srcIp).value)
    requires matches == if key in m then m[key] else []
    ensures TriplesOf(matches, threat) == Part(p, ctx, cs, flows, {threat})
  {
    forall y: FlowMatch
      ensures y in matches && y.flow.connectionId == threat.connectionId
              <==> y.candidate in cs && y.flow in flows && IsMatch(p, ctx, y) && Linked(p, y.flow, threat)
    {
      assert Filed(m, key, y) <==> y in matches;
    }
    forall c, f | c in cs && f in flows && Corroborates(p, ctx, Triple(c, f, threat))
      ensures IsMatch(p, ctx, FlowMatch(c, f, FlowIdentity(p, f).value))
    {
    }
  }

  lemma PartEmpty(p: Platform, ctx: Context, cs: set<Candidate>, flows: seq<FlowRow>, part: Reading)
    requires ReadsPart(part, p, ctx, cs, flows)
    ensures part({}) == {}
  {
    assert Part(p, ctx, cs, flows, {}) == {};
  }

  lemma PartAdd(
    p: Platform, ctx: Context, cs: set<Candidate>, flows: seq<FlowRow>, part: Reading, ts: set<ThreatRow>,
    us: set<ThreatRow>)
    requires ReadsPart(part, p, ctx, cs, flows)
    ensures part(ts + us) == part(ts) + part(us)
  {
    assert Part(p, ctx, cs, flows, ts + us) == Part(p, ctx, cs, flows, ts) + Part(p, ctx, cs, flows, us);
  }

  // ---------- Paging through the threats ----------

  predicate ThreatSelected(ctx: Context, scopes: seq<string>, t: ThreatRow) {
    t.scopeId.Some? && t.scopeId.value in scopes && InWindow(ctx, t.occurredAt)
      && (t.kind == PREVENTION || t.subcategory == INTRUSION)
  }

  function ThreatRows(ctx: Context, scopes: seq<string>, rows: seq<ThreatRow>): seq<ThreatRow> {
    Paging.Where(rows, (t: ThreatRow) => ThreatSelected(ctx, scopes, t))
  }

  function ThreatSet(rows: seq<ThreatRow>): set<ThreatRow> {
    set t | t in rows
  }

  method JoinPage(
    p: Platform, ctx: Context, ghost cs: set<Candidate>, ghost flows: seq<FlowRow>, m: Matches,
    ghost part: Reading, threats: seq<ThreatRow>, corrs: map<Fingerprint, Correlation>, ghost log: Log,
    ghost rec: RecordReading)
    returns (corrs': map<Fingerprint, Correlation>, ghost log': Log)
    requires Prepared(p, ctx, cs, flows, m, part) && corrs == rec(log) && ReadsRecorded(rec, p)
    ensures corrs' == rec(log') && Seen(log') == Seen(log) + part(ThreatSet(threats))
  {
    corrs', log' := corrs, log;
    PartEmpty(p, ctx, cs, flows, part);
    assert ThreatSet(threats[..0]) == {};
    for i := 0 to |threats|
      invariant corrs' == rec(log') && Seen(log') == Seen(log) + part(ThreatSet(threats[..i]))
    {
      ThreatSetAppend(threats, i);
      PartAdd(p, ctx, cs, flows, part, ThreatSet(threats[..i]), {threats[i]});
      corrs', log' := JoinThreat(p, ctx, cs, flows, m, part, threats[i], corrs', log', rec);
    }
    assert threats[..|threats|] == threats;
  }

  lemma ThreatSetAppend(rows: seq<ThreatRow>, i: nat)
    requires i < |rows|
    ensures ThreatSet(rows[..i + 1]) == ThreatSet(rows[..i]) + {rows[i]}
  {
    assert rows[..i + 1] == rows[..i] + [rows[i]];
  }

  /** The cursor loop over the rows of one chunk of scopes. */
  method JoinRows(
    p: Platform, ctx: Context, ghost cs: set<Candidate>, ghost flows: seq<FlowRow>, m: Matches,
    ghost part: Reading, rows: seq<ThreatRow>, pageSize: nat, corrs: map<Fingerprint, Correlation>, ghost log: Log,
    ghost rec: RecordReading)
    returns (corrs': map<Fingerprint, Correlation>, ghost log': Log)
    requires pageSize > 0 && Paging.Keyed(rows, THREAT_ID) && Prepared(p, ctx, cs, flows, m, part) && corrs == rec(log)
      && ReadsRecorded(rec, p)
    ensures corrs' == rec(log') && Seen(log') == Seen(log) + part(ThreatSet(rows))
  {
    corrs', log' := corrs, log;
    var afterThreatId: Option<string> := None;
    ghost var k := 0;
    RowsNone(p, ctx, cs, flows, part, rows);
    while true
      invariant Paging.CursorAt(rows, THREAT_ID, afterThreatId, k)
      invariant corrs' == rec(log') && Seen(log') == Seen(log) + part(ThreatSet(rows[..k]))
      decreases |rows| - k
    {
      var threats := Paging.Page(rows, THREAT_ID, afterThreatId, pageSize);
      Paging.PageAt(rows, THREAT_ID, afterThreatId, k, pageSize);
      RowsAdd(p, ctx, cs, flows, part, rows, k, threats);
      corrs', log' := JoinPage(p, ctx, cs, flows, m, part, threats, corrs', log', rec);
      k := k + |threats|;
      if |threats| < pageSize { break; }
      afterThreatId := Some(THREAT_ID(threats[|threats| - 1]));
    }
    assert rows[..k] == rows;
  }

  lemma RowsNone(
    p: Platform, ctx: Context, cs: set<Candidate>, flows: seq<FlowRow>, part: Reading, rows: seq<ThreatRow>)
    requires ReadsPart(part, p, ctx, cs, flows)
    ensures part(ThreatSet(rows[..0])) == {}
  {
    PartEmpty(p, ctx, cs, flows, part);
    assert ThreatSet(rows[..0]) == {};
  }

  lemma RowsAdd(
    p: Platform, ctx: Context, cs: set<Candidate>, flows: seq<FlowRow>, part: Reading, rows: seq<ThreatRow>,
    k: nat, page: seq<ThreatRow>)
    requires k + |page| <= |rows| && page == rows[k..k + |page|] && ReadsPart(part, p, ctx, cs, flows)
    ensures part(ThreatSet(rows[..k + |page|])) == part(ThreatSet(rows[..k])) + part(ThreatSet(page))
  {
    ThreatSetSplit(rows, k, |page|);
    PartAdd(p, ctx, cs, flows, part, ThreatSet(rows[..k]), ThreatSet(page));
  }

  method JoinScopes(
    p: Platform, ctx: Context, db: Database, ghost cs: set<Candidate>, m: Matches, ghost part: Reading,
    scopes: seq<string>, pageSize: nat, corrs: map<Fingerprint, Correlation>, ghost log: Log,
    ghost rec: RecordReading)
    returns (corrs': map<Fingerprint, Correlation>, ghost log': Log)
    requires Sound(db) && pageSize > 0 && Prepared(p, ctx, cs, db.flows, m, part) && corrs == rec(log)
      && ReadsRecorded(rec, p)
    ensures corrs' == rec(log') && Seen(log') == Seen(log) + part(ThreatsIn(ctx, scopes, db))
  {
    Paging.WhereKeyed(db.threats, THREAT_ID, (t: ThreatRow) => ThreatSelected(ctx, scopes, t));
    corrs', log' :=
      JoinRows(p, ctx, cs, db.flows, m, part, ThreatRows(ctx, scopes, db.threats), pageSize, corrs, log, rec);
  }

  lemma ThreatSetSplit(rows: seq<ThreatRow>, k: nat, n: nat)
    requires k + n <= |rows|
    ensures ThreatSet(rows[..k + n]) == ThreatSet(rows[..k]) + ThreatSet(rows[k..k + n])
  {
    assert rows[..k + n] == rows[..k] + rows[k..k + n];
  }

  ghost function ThreatsIn(ctx: Context, scopes: seq<string>, db: Database): set<ThreatRow> {
    ThreatSet(ThreatRows(ctx, scopes, db.threats))
  }

  lemma ThreatsInSplit(ctx: Context, scopes: seq<string>, more: seq<string>, db: Database)
    ensures ThreatsIn(ctx, scopes + more, db) == ThreatsIn(ctx, scopes, db) + ThreatsIn(ctx, more, db)
  {
  }

  lemma NoThreatsIn(ctx: Context, db: Database)
    ensures ThreatsIn(ctx, [], db) == {}
  {
  }

  /** No corroborating threat lies outside the scopes of the matches. */
  lemma ScopesSuffice(p: Platform, ctx: Context, db: Database, cs: set<Candidate>, m: Matches, scopes: seq<string>)
    requires FiledMatches(p, ctx, cs, db.flows, m) && HasScopes(m, scopes)
    ensures Part(p, ctx, cs, db.flows, ThreatsIn(ctx, scopes, db)) == Part(p, ctx, cs, db.flows, ThreatSet(db.threats))
  {
    forall c, f, t | c in cs && f in db.flows && t in db.threats && Corroborates(p, ctx, Triple(c, f, t))
      ensures ThreatSelected(ctx, scopes, t)
    {
      CorroboratingScope(p, ctx, db, cs, m, Triple(c, f, t));
    }
  }

  lemma CorroboratingScope(p: Platform, ctx: Context, db: Database, cs: set<Candidate>, m: Matches, x: Triple)
    requires FiledMatches(p, ctx, cs, db.flows, m) && Corroborates(p, ctx, x)
    requires x.candidate in cs && x.flow in db.flows
    ensures KeyOf(p, x.flow) in m && x.threat.scopeId == Some(KeyOf(p, x.flow).0)
  {
    assert Filed(m, KeyOf(p, x.flow), FlowMatch(x.candidate, x.flow, FlowIdentity(p, x.flow).value));
  }

  // ---------- One page of findings, and all of them ----------

  type JoinReading = seq<FindingRow> -> set<Triple>

  ghost predicate ReadsJoin(join: JoinReading, p: Platform, ctx: Context, db: Database) {
    forall rows {:trigger Join(p, ctx, rows, db)} :: join(rows) == Join(p, ctx, rows, db)
  }

  lemma ScopesAdd(
    p: Platform, ctx: Context, db: Database, cs: set<Candidate>, part: Reading, scopes: seq<string>, from: nat,
    to: nat)
    requires from <= to <= |scopes| && ReadsPart(part, p, ctx, cs, db.flows)
    ensures part(ThreatsIn(ctx, scopes[..to], db)) == part(ThreatsIn(ctx, scopes[..from], db))
      + part(ThreatsIn(ctx, scopes[from..to], db))
  {
    assert scopes[..to] == scopes[..from] + scopes[from..to];
    ThreatsInSplit(ctx, scopes[..from], scopes[from..to], db);
    PartAdd(p, ctx, cs, db.flows, part, ThreatsIn(ctx, scopes[..from], db), ThreatsIn(ctx, scopes[from..to], db));
  }

  /** The chunks of scopes of one page's matches. */
  method JoinChunks(
    p: Platform, ctx: Context, db: Database, ghost cs: set<Candidate>, m: Matches, ghost part: Reading,
    scopes: seq<string>, pageSize: nat, corrs: map<Fingerprint, Correlation>, ghost log: Log,
    ghost rec: RecordReading)
    returns (corrs': map<Fingerprint, Correlation>, ghost log': Log)
    requires Sound(db) && pageSize > 0 && Prepared(p, ctx, cs, db.flows, m, part) && corrs == rec(log)
      && ReadsRecorded(rec, p)
    ensures corrs' == rec(log') && Seen(log') == Seen(log) + part(ThreatsIn(ctx, scopes, db))
  {
    corrs', log' := corrs, log;
    var offset := 0;
    NoThreatsIn(ctx, db);
    PartEmpty(p, ctx, cs, db.flows, part);
    while offset < |scopes|
      invariant corrs' == rec(log')
      invariant Seen(log') == Seen(log) + part(ThreatsIn(ctx, scopes[..Upto(offset, scopes)], db))
    {
      var chunk := scopes[offset..Upto(offset + pageSize, scopes)];
      ScopesAdd(p, ctx, db, cs, part, scopes, offset, Upto(offset + pageSize, scopes));
      corrs', log' := JoinScopes(p, ctx, db, cs, m, part, chunk, pageSize, corrs', log', rec);
      offset := offset + pageSize;
    }
    assert scopes[..|scopes|] == scopes;
  }

  method JoinFindings(
    p: Platform, ctx: Context, db: Database, findings: seq<FindingRow>, pageSize: nat, ghost join: JoinReading,
    corrs: map<Fingerprint, Correlation>, ghost log: Log, ghost rec: RecordReading)
    returns (corrs': map<Fingerprint, Correlation>, ghost log': Log)
    requires Sound(db) && pageSize > 0 && ReadsJoin(join, p, ctx, db) && corrs == rec(log) && ReadsRecorded(rec, p)
    ensures corrs' == rec(log') && Seen(log') == Seen(log) + join(findings)
  {
    var candidates := CandidatesFrom(p, findings);
    var m, scopes := MatchFlows(p, ctx, db, candidates, pageSize);
    ghost var cs := Candidates(p, findings);
    ghost var part: Reading := ts => Part(p, ctx, cs, db.flows, ts);
    PageIsJoined(p, ctx, db, findings, m, scopes, candidates, part, join);
    corrs', log' := JoinChunks(p, ctx, db, cs, m, part, scopes, pageSize, corrs, log, rec);
  }

  lemma PageIsJoined(
    p: Platform, ctx: Context, db: Database, findings: seq<FindingRow>, m: Matches, scopes: seq<string>,
    candidates: seq<Candidate>, part: Reading, join: JoinReading)
    requires HasScopes(m, scopes) && forall c :: c in candidates <==> c in Candidates(p, findings)
    requires forall k, y :: Filed(m, k, y) <==>
      k == KeyOf(p, y.flow) && y.candidate in candidates && y.flow in db.flows && IsMatch(p, ctx, y)
    requires ReadsPart(part, p, ctx, Candidates(p, findings), db.flows) && ReadsJoin(join, p, ctx, db)
    ensures Prepared(p, ctx, Candidates(p, findings), db.flows, m, part)
    ensures part(ThreatsIn(ctx, scopes, db)) == join(findings)
  {
    var cs := Candidates(p, findings);
    assert FiledMatches(p, ctx, cs, db.flows, m);
    ScopesSuffice(p, ctx, db, cs, m, scopes);
    JoinIsPart(p, ctx, findings, db);
  }

  lemma JoinIsPart(p: Platform, ctx: Context, findings: seq<FindingRow>, db: Database)
    ensures Join(p, ctx, findings, db) == Part(p, ctx, Candidates(p, findings), db.flows, ThreatSet(db.threats))
  {
  }

  lemma CandidatesSplit(p: Platform, rows: seq<FindingRow>, k: nat, n: nat)
    requires k + n <= |rows|
    ensures Candidates(p, rows[..k + n]) == Candidates(p, rows[..k]) + Candidates(p, rows[k..k + n])
  {
    forall r
      ensures r in rows[..k + n] <==> r in rows[..k] || r in rows[k..k + n]
    {
      assert rows[..k + n] == rows[..k] + rows[k..k + n];
    }
  }

  lemma JoinUnion(
    p: Platform, ctx: Context, a: seq<FindingRow>, b: seq<FindingRow>, c: seq<FindingRow>, db: Database,
    join: JoinReading)
    requires Candidates(p, c) == Candidates(p, a) + Candidates(p, b) && ReadsJoin(join, p, ctx, db)
    ensures join(c) == join(a) + join(b)
  {
    assert Join(p, ctx, c, db) == Join(p, ctx, a, db) + Join(p, ctx, b, db);
  }

  lemma JoinSplit(p: Platform, ctx: Context, rows: seq<FindingRow>, k: nat, n: nat, db: Database, join: JoinReading)
    requires k + n <= |rows| && ReadsJoin(join, p, ctx, db)
    ensures join(rows[..k + n]) == join(rows[..k]) + join(rows[k..k + n])
  {
    CandidatesSplit(p, rows, k, n);
    JoinUnion(p, ctx, rows[..k], rows[k..k + n], rows[..k + n], db, join);
  }

  lemma JoinNothing(p: Platform, ctx: Context, db: Database, join: JoinReading)
    requires ReadsJoin(join, p, ctx, db)
    ensures join([]) == {}
  {
    assert Join(p, ctx, [], db) == {};
  }

  /** Reading the page at the cursor moves on by a page's worth of triples; an empty or short page is the last. */
  lemma FindingsPage(
    p: Platform, ctx: Context, db: Database, cursor: Option<string>, k: nat, pageSize: nat, join: JoinReading)
    requires Sound(db) && pageSize > 0 && ReadsJoin(join, p, ctx, db)
    requires Paging.CursorAt(db.findings, FINDING_ID, cursor, k)
    ensures
      var page := Paging.Page(db.findings, FINDING_ID, cursor, pageSize);
      && k + |page| <= |db.findings|
      && join(db.findings[..k + |page|]) == join(db.findings[..k]) + join(page)
      && (|page| < pageSize ==> k + |page| == |db.findings|)
      && (page != [] ==> Paging.CursorAt(db.findings, FINDING_ID, Some(page[|page| - 1].id), k + |page|))
  {
    Paging.PageAt(db.findings, FINDING_ID, cursor, k, pageSize);
    JoinSplit(p, ctx, db.findings, k, |Paging.Page(db.findings, FINDING_ID, cursor, pageSize)|, db, join);
  }

  /** The cursor loop over the findings. */
  method JoinAll(
    p: Platform, ctx: Context, db: Database, pageSize: nat, ghost join: JoinReading, ghost rec: RecordReading)
    returns (correlations: map<Fingerprint, Correlation>, ghost log: Log)
    requires Sound(db) && pageSize > 0 && ReadsJoin(join, p, ctx, db) && ReadsRecorded(rec, p)
    ensures correlations == rec(log) && Seen(log) == join(db.findings)
  {
    correlations, log := map[], Nothing;
    var afterId: Option<string> := None;
    ghost var k := 0;
    JoinNothing(p, ctx, db, join);
    assert Recorded(p, Nothing) == map[];
    while true
      invariant Paging.CursorAt(db.findings, FINDING_ID, afterId, k)
      invariant correlations == rec(log) && Seen(log) == join(db.findings[..k])
      decreases |db.findings| - k
    {
      var findings := Paging.Page(db.findings, FINDING_ID, afterId, pageSize);
      FindingsPage(p, ctx, db, afterId, k, pageSize, join);
      if findings == [] { break; }
      correlations, log := JoinFindings(p, ctx, db, findings, pageSize, join, correlations, log, rec);
      k := k + |findings|;
      if |findings| < pageSize { break; }
      afterId := Some(findings[|findings| - 1].id);
    }
    assert db.findings[..k] == db.findings;
  }

  /** The whole evaluation reports the join of the three tables, whatever the page size. */
  method Evaluate(p: Platform, ctx: Context, db: Database, pageSize: nat)
    returns (correlations: map<Fingerprint, Correlation>)
    requires Lawful(p) && Sound(db) && pageSize > 0
    ensures Reports(correlations, Contributions(p, Join(p, ctx, db.findings, db)))
    ensures forall key :: key in correlations ==>
      ctx.beginTime <= correlations[key].firstObservedAt <= correlations[key].lastObservedAt <= ctx.endTime
  {
    ghost var log;
    ghost var join: JoinReading := rows => Join(p, ctx, rows, db);
    ghost var rec: RecordReading := log => Recorded(p, log);
    correlations, log := JoinAll(p, ctx, db, pageSize, join, rec);
    assert correlations == Recorded(p, log);
    LogReports(p, log, join(db.findings), Contributions(p, Join(p, ctx, db.findings, db)));
    forall key | key in correlations
      ensures
        ctx.beginTime <= correlations[key].firstObservedAt <= correlations[key].lastObservedAt <= ctx.endTime
    {
      WindowKept(p, ctx, db, correlations, key);
    }
  }

  lemma ContributionInWindow(p: Platform, ctx: Context, db: Database, y: Contribution)
    requires y in Contributions(p, Join(p, ctx, db.findings, db))
    ensures ctx.beginTime <= y.flowTime <= ctx.endTime && ctx.beginTime <= y.threatTime <= ctx.endTime
  {
    var x :| x in Join(p, ctx, db.findings, db) && FlowIdentity(p, x.flow).Some? && ContributionOf(p, x) == y;
    assert Corroborates(p, ctx, x);
  }

  lemma SpanWithin(c: Correlation, ys: set<Contribution>, begin: int, end: int)
    requires Extremes(c, ys)
    requires forall y :: y in ys ==> begin <= y.flowTime <= end && begin <= y.threatTime <= end
    ensures begin <= c.firstObservedAt <= c.lastObservedAt <= end
  {
    var a :| a in ys && HappenedAt(a, c.firstObservedAt);
    var b :| b in ys && HappenedAt(b, c.lastObservedAt);
    assert Spans(c, b);
  }

  /** Nothing is reported that happened outside the window. */
  lemma WindowKept(p: Platform, ctx: Context, db: Database, corrs: map<Fingerprint, Correlation>, key: Fingerprint)
    requires Reports(corrs, Contributions(p, Join(p, ctx, db.findings, db))) && key in corrs
    ensures ctx.beginTime <= corrs[key].firstObservedAt <= corrs[key].lastObservedAt <= ctx.endTime
  {
    var ys := Contributions(p, Join(p, ctx, db.findings, db));
    ReportAt(corrs, ys, key);
    forall y | y in OfKey(ys, KEY, key)
      ensures ctx.beginTime <= y.flowTime <= ctx.endTime && ctx.beginTime <= y.threatTime <= ctx.endTime
    {
      ContributionInWindow(p, ctx, db, y);
    }
    SpanWithin(corrs[key], OfKey(ys, KEY, key), ctx.beginTime, ctx.endTime);
  }

  lemma LogReports(p: Platform, log: Log, xs: set<Triple>, ys: set<Contribution>)
    requires Lawful(p) && Seen(log) == xs && Contributions(p, xs) == ys
    ensures Reports(Recorded(p, log), ys)
  {
    RecordedReports(p, log);
    ContributedSeen(p, log);
  }

  // ---------- What follows ----------

  lemma EarliestSame(c: Correlation, d: Correlation, ys: set<Contribution>)
    requires Extremes(c, ys) && Extremes(d, ys)
    ensures c.firstObservedAt == d.firstObservedAt && c.lastObservedAt == d.lastObservedAt
  {
    var a :| a in ys && HappenedAt(a, c.firstObservedAt);
    var b :| b in ys && HappenedAt(b, c.lastObservedAt);
    var a' :| a' in ys && HappenedAt(a', d.firstObservedAt);
    var b' :| b' in ys && HappenedAt(b', d.lastObservedAt);
    assert Spans(c, a') && Spans(d, a) && Spans(c, b') && Spans(d, b);
  }

  lemma SummariesAgree(c: Correlation, d: Correlation, ys: set<Contribution>)
    requires Summarises(c, ys) && Summarises(d, ys)
    ensures c.(identity := d.identity) == d
  {
    EarliestSame(c, d, ys);
  }

  lemma ReportAt(corrs: map<Fingerprint, Correlation>, ys: set<Contribution>, key: Fingerprint)
    requires Reports(corrs, ys)
    ensures key in corrs <==> OfKey(ys, KEY, key) != {}
    ensures key in corrs ==> Summarises(corrs[key], OfKey(ys, KEY, key))
  {
  }

  /** The two reports say the same of a device, up to which of several latest flows lends its identity. */
  predicate Agree(a: map<Fingerprint, Correlation>, b: map<Fingerprint, Correlation>, key: Fingerprint) {
    (key in a <==> key in b) && (key in a ==> a[key].(identity := b[key].identity) == b[key])
  }

  /** A report is determined by its contributions. */
  lemma ReportsAgree(
    a: map<Fingerprint, Correlation>, b: map<Fingerprint, Correlation>, ys: set<Contribution>, key: Fingerprint)
    requires Reports(a, ys) && Reports(b, ys)
    ensures Agree(a, b, key)
  {
    ReportAt(a, ys, key);
    ReportAt(b, ys, key);
    if key in a { SummariesAgree(a[key], b[key], OfKey(ys, KEY, key)); }
  }

  /** The page size is not observable. */
  method EvaluateTwice(p: Platform, ctx: Context, db: Database, pageSize: nat, pageSize': nat)
    returns (a: map<Fingerprint, Correlation>, b: map<Fingerprint, Correlation>)
    requires Lawful(p) && Sound(db) && pageSize > 0 && pageSize' > 0
    ensures forall key :: Agree(a, b, key)
  {
    a := Evaluate(p, ctx, db, pageSize);
    b := Evaluate(p, ctx, db, pageSize');
    forall key
      ensures Agree(a, b, key)
    {
      ReportsAgree(a, b, Contributions(p, Join(p, ctx, db.findings, db)), key);
    }
  }

  lemma ParsedIsTrimmed(p: Platform, raw: Raw)
    requires ParseDetectorIdentity(p, raw).Some?
    ensures
      var id := ParseDetectorIdentity(p, raw).value;
      Nonempty(id.connectionId) == id.connectionId && Nonempty(id.scopeId) == id.scopeId
  {
    NonemptyIdempotent(AsText(raw.connectionId));
    NonemptyIdempotent(AsText(raw.scopeId));
  }

  lemma CandidateIsTrimmed(p: Platform, row: FindingRow)
    requires CandidateOf(p, row).Some?
    ensures
      var id := CandidateOf(p, row).value.identity;
      Nonempty(id.connectionId) == id.connectionId && Nonempty(id.scopeId) == id.scopeId
  {
    ParsedIsTrimmed(p, row.metadata.value.identity.value);
  }

  /** The key of a joined triple names the flow's own connection and scope. */
  lemma KeyNamesScope(p: Platform, ctx: Context, db: Database, x: Triple)
    requires x in Join(p, ctx, db.findings, db)
    ensures FlowIdentity(p, x.flow).Some?
    ensures
      var scope := ContributionOf(p, x).key.scope;
      scope.connectionId == Some(x.flow.connectionId) == Some(x.threat.connectionId)
        && scope.scopeId == x.flow.scopeId == x.threat.scopeId
  {
    var row :| row in db.findings && CandidateOf(p, row).Some? && CandidateOf(p, row).value == x.candidate;
    CandidateIsTrimmed(p, row);
  }

  /** No correlation mixes two connections or two scopes: triples reported under one key share both. */
  lemma NoMixing(p: Platform, ctx: Context, db: Database, x: Triple, x': Triple)
    requires x in Join(p, ctx, db.findings, db) && x' in Join(p, ctx, db.findings, db)
    requires FlowIdentity(p, x.flow).Some? && FlowIdentity(p, x'.flow).Some?
    requires ContributionOf(p, x).key == ContributionOf(p, x').key
    ensures x.flow.connectionId == x'.flow.connectionId == x.threat.connectionId == x'.threat.connectionId
    ensures x.flow.scopeId == x'.flow.scopeId == x.threat.scopeId == x'.threat.scopeId
  {
    KeyNamesScope(p, ctx, db, x);
    KeyNamesScope(p, ctx, db, x');
  }
}
