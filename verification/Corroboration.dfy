/**
 Corroboration of IOC findings with IDS threats (backend/src/detectors/validatedCompromise.ts).
 The relational meaning: which (finding, flow, threat) triples corroborate each other, what is
 reported per device, and what recording one more triple does to a report.
 */
module Corroboration {
  import opened Wrappers
  import opened Identity
  import Paging
  import Grouped

  // ---------- Tables ----------

  datatype EvidenceItem = FlowItem(id: string) | IocItem(ioc: string, feed: string) | OtherItem

  datatype Metadata = Metadata(identity: Option<Raw>, matchedValue: Option<string>)

  datatype FindingRow = FindingRow(id: string, metadata: Option<Metadata>, evidence: Option<seq<EvidenceItem>>)

  datatype FlowRow = FlowRow(
    id: string, connectionId: string, scopeId: Option<string>, occurredAt: int,
    srcIp: Option<string>, srcMac: Option<string>, dstIp: Option<string>)

  datatype ThreatRow = ThreatRow(
    id: string, connectionId: string, scopeId: Option<string>, occurredAt: int,
    srcIp: Option<string>, category: Option<string>, kind: string, subcategory: string)

  /** An unchanged snapshot; findings (of detector ioc_match) and threats are listed in id order. */
  datatype Database = Database(findings: seq<FindingRow>, flows: seq<FlowRow>, threats: seq<ThreatRow>)

  datatype Context = Context(beginTime: int, endTime: int)

  const FINDING_ID := (r: FindingRow) => r.id
  const THREAT_ID := (r: ThreatRow) => r.id

  ghost predicate Sound(db: Database) {
    && Paging.Keyed(db.findings, FINDING_ID) && Paging.Keyed(db.threats, THREAT_ID)
    && (forall i, j :: 0 <= i < j < |db.flows| ==> db.flows[i].id != db.flows[j].id)
    && (forall i :: 0 <= i < |db.flows| ==> Nonempty(Some(db.flows[i].id)).Some?)
  }

  // ---------- Which rows corroborate each other ----------

  datatype Candidate = Candidate(
    id: string, identity: DetectorIdentity, indicator: string, flowIds: set<string>, feeds: seq<string>)

  datatype Triple = Triple(candidate: Candidate, flow: FlowRow, threat: ThreatRow)

  datatype Evidence = FlowEvidence(id: string) | IocEvidence(ioc: string, feed: string) | ThreatEvidence(id: string)

  predicate InWindow(ctx: Context, t: int) {
    ctx.beginTime <= t <= ctx.endTime
  }

  function FlowIds(items: seq<EvidenceItem>): set<string> {
    set e | e in items && e.FlowItem? && e.id != "" :: e.id
  }

  predicate NamesIndicator(p: Platform, e: EvidenceItem, indicator: string) {
    e.IocItem? && NormalizeIp(p, Some(e.ioc)) == Some(indicator) && e.feed != ""
  }

  function Feeds(p: Platform, items: seq<EvidenceItem>, indicator: string): seq<string> {
    if items == [] then []
    else
      var last := |items| - 1;
      Feeds(p, items[..last], indicator) + if NamesIndicator(p, items[last], indicator) then [items[last].feed] else []
  }

  /**
   A finding that can be corroborated at all: typed UniFi identity with connection, scope and source, one IP
   indicator, its flows and feeds.
   */
  function CandidateOf(p: Platform, row: FindingRow): Option<Candidate> {
    if row.metadata.None? || row.metadata.value.identity.None? then None
    else
      var identity := ParseDetectorIdentity(p, row.metadata.value.identity.value);
      var indicator := NormalizeIp(p, row.metadata.value.matchedValue);
      if identity.None? || identity.value.sourceKind != Unifi || identity.value.connectionId.None?
        || identity.value.scopeId.None? then None
      else if identity.value.srcMac.None? && identity.value.srcIp.None? then None
      else if indicator.None? || row.evidence.None? then None
      else
        var flowIds, feeds := FlowIds(row.evidence.value), Feeds(p, row.evidence.value, indicator.value);
        if flowIds == {} || feeds == [] then None
        else Some(Candidate(row.id, identity.value, indicator.value, flowIds, feeds))
  }

  function FlowIdentity(p: Platform, f: FlowRow): Option<DetectorIdentity> {
    CreateDetectorIdentity(p,
      Input(Unifi, Some(f.connectionId), f.scopeId, NormalizeIp(p, f.srcIp), f.srcMac, Some(f.id),
      Instant(Some(f.occurredAt))))
  }

  predicate UsableFlow(p: Platform, ctx: Context, f: FlowRow) {
    f.scopeId.Some? && f.scopeId.value != "" && NormalizeIp(p, f.srcIp).Some? && InWindow(ctx, f.occurredAt)
  }

  /** The finding names the flow, and connection, scope, device and destination all agree. */
  predicate FlowMatches(p: Platform, ctx: Context, c: Candidate, f: FlowRow) {
    && f.id in c.flowIds && UsableFlow(p, ctx, f)
    && c.identity.connectionId == Some(f.connectionId) && c.identity.scopeId == f.scopeId
    && FlowIdentity(p, f).Some? && DeviceIdentityKey(c.identity) == DeviceIdentityKey(FlowIdentity(p, f).value)
    && NormalizeIp(p, f.dstIp) == Some(c.indicator)
  }

  const PREVENTION := "THREAT_DETECTION_AND_PREVENTION"
  const INTRUSION := "SECURITY_INTRUSION_PREVENTION"

  predicate UsableThreat(p: Platform, ctx: Context, t: ThreatRow) {
    && t.scopeId.Some? && t.scopeId.value != "" && NormalizeIp(p, t.srcIp).Some? && InWindow(ctx, t.occurredAt)
    && (t.kind == PREVENTION || t.subcategory == INTRUSION)
  }

  /** Same source address, scope and connection. */
  predicate Linked(p: Platform, f: FlowRow, t: ThreatRow) {
    f.scopeId == t.scopeId && NormalizeIp(p, f.srcIp) == NormalizeIp(p, t.srcIp) && f.connectionId == t.connectionId
  }

  predicate Corroborates(p: Platform, ctx: Context, x: Triple) {
    FlowMatches(p, ctx, x.candidate, x.flow) && UsableThreat(p, ctx, x.threat) && Linked(p, x.flow, x.threat)
  }

  function Candidates(p: Platform, rows: seq<FindingRow>): set<Candidate> {
    set r | r in rows && CandidateOf(p, r).Some? :: CandidateOf(p, r).value
  }

  /** The relational join. */
  ghost function Join(p: Platform, ctx: Context, rows: seq<FindingRow>, db: Database): set<Triple> {
    set c, f, t | c in Candidates(p, rows) && f in db.flows && t in db.threats
      && Corroborates(p, ctx, Triple(c, f, t)) :: Triple(c, f, t)
  }

  // ---------- What is reported per device ----------

  datatype Correlation = Correlation(
    identity: DetectorIdentity, evidence: set<Evidence>, iocFindingIds: set<string>, threatIds: set<string>,
    threatCategories: set<string>, sourceIps: set<string>, firstObservedAt: int, lastObservedAt: int)

  /** What one corroborating triple contributes, and to which device. */
  datatype Contribution = Contribution(
    key: Fingerprint, identity: DetectorIdentity, evidence: set<Evidence>, findingId: string, threatId: string,
    categories: set<string>, sourceIps: set<string>, flowTime: int, threatTime: int)

  function ContributionOf(p: Platform, x: Triple): Contribution
    requires FlowIdentity(p, x.flow).Some?
  {
    var identity := FlowIdentity(p, x.flow).value;
    var ip := NormalizeIp(p, x.threat.srcIp);
    Contribution(
      DetectorFingerprint("validated_compromise", identity, None), identity,
      {FlowEvidence(x.flow.id), ThreatEvidence(x.threat.id)} + set feed | feed in x.candidate.feeds ::
        IocEvidence(x.candidate.indicator, feed),
      x.candidate.id, x.threat.id,
      if x.threat.category.Some? && x.threat.category.value != "" then {x.threat.category.value} else {},
      if ip.Some? then {ip.value} else {},
      x.flow.occurredAt, x.threat.occurredAt)
  }

  ghost function Contributions(p: Platform, xs: set<Triple>): set<Contribution> {
    set x | x in xs && FlowIdentity(p, x.flow).Some? :: ContributionOf(p, x)
  }

  /** The sets are the unions over the contributions. */
  ghost predicate Unions(c: Correlation, ys: set<Contribution>) {
    && c.evidence == (set y, e | y in ys && e in y.evidence :: e)
    && c.iocFindingIds == (set y | y in ys :: y.findingId)
    && c.threatIds == (set y | y in ys :: y.threatId)
    && c.threatCategories == (set y, k | y in ys && k in y.categories :: k)
    && c.sourceIps == (set y, ip | y in ys && ip in y.sourceIps :: ip)
  }

  predicate Spans(c: Correlation, y: Contribution) {
    c.firstObservedAt <= y.flowTime <= c.lastObservedAt && c.firstObservedAt <= y.threatTime <= c.lastObservedAt
  }

  predicate HappenedAt(y: Contribution, t: int) {
    y.flowTime == t || y.threatTime == t
  }

  /** The times are the extremes over the contributions. */
  ghost predicate Extremes(c: Correlation, ys: set<Contribution>) {
    && (forall y :: y in ys ==> Spans(c, y))
    && (exists y :: y in ys && HappenedAt(y, c.firstObservedAt))
    && (exists y :: y in ys && HappenedAt(y, c.lastObservedAt))
  }

  ghost predicate Latest(y: Contribution, ys: set<Contribution>) {
    y in ys && forall z :: z in ys ==> z.flowTime <= y.flowTime
  }

  /** The kept identity is that of a latest flow. */
  ghost predicate KeepsLatest(c: Correlation, ys: set<Contribution>) {
    exists y :: Latest(y, ys) && c.identity == y.identity
  }

  ghost predicate Summarises(c: Correlation, ys: set<Contribution>) {
    Unions(c, ys) && Extremes(c, ys) && KeepsLatest(c, ys)
  }

  const KEY := (y: Contribution) => y.key

  ghost const SUMMARY := (c: Correlation, ys: set<Contribution>) => Summarises(c, ys)

  /** Exactly one correlation per device key, summarising the contributions of that key. */
  ghost predicate Reports(corrs: map<Fingerprint, Correlation>, ys: set<Contribution>) {
    Grouped.Tabulates(corrs, ys, KEY, SUMMARY)
  }

  // ---------- Accumulating one contribution ----------

  function Min(a: int, b: int): int {
    if a <= b then a else b
  }

  function Max(a: int, b: int): int {
    if a >= b then a else b
  }

  /** The kept identity is re-parsed and its time compared; text that is not a date compares as false. */
  predicate IsNewer(p: Platform, flowTime: int, kept: DetectorIdentity) {
    var latest := ParseDetectorIdentity(p, Stored(kept));
    if latest.None? || latest.value.observedAt.None? then true
    else
      var time := p.Parse(latest.value.observedAt.value);
      time.Some? && flowTime > time.value
  }

  function First(y: Contribution): Correlation {
    Correlation(y.identity, {}, {}, {}, {}, {}, Min(y.flowTime, y.threatTime), Max(y.flowTime, y.threatTime))
  }

  function Add(c: Correlation, y: Contribution, newer: bool): Correlation {
    Correlation(
      if newer then y.identity else c.identity,
      c.evidence + y.evidence, c.iocFindingIds + {y.findingId}, c.threatIds + {y.threatId},
      c.threatCategories + y.categories, c.sourceIps + y.sourceIps,
      Min(c.firstObservedAt, Min(y.flowTime, y.threatTime)),
      Max(c.lastObservedAt, Max(y.flowTime, y.threatTime)))
  }

  /** A contribution whose identity carries its flow's time. */
  ghost predicate Dated(p: Platform, y: Contribution) {
    forall t :: IsNewer(p, t, y.identity) <==> t > y.flowTime
  }

  lemma FlowContributionDated(p: Platform, x: Triple)
    requires Lawful(p) && FlowIdentity(p, x.flow).Some?
    ensures Dated(p, ContributionOf(p, x))
  {
    var f := x.flow;
    StoredIdentityParses(
      p, Input(Unifi, Some(f.connectionId), f.scopeId, NormalizeIp(p, f.srcIp), f.srcMac, Some(f.id),
        Instant(Some(f.occurredAt))));
    assert p.Parse(p.Iso(f.occurredAt)) == Some(f.occurredAt);
  }

  lemma AddUnions(c: Correlation, ys: set<Contribution>, y: Contribution, newer: bool)
    requires Unions(c, ys)
    ensures Unions(Add(c, y, newer), ys + {y})
  {
    assert y in ys + {y};
  }

  lemma AddExtremes(c: Correlation, ys: set<Contribution>, y: Contribution, newer: bool)
    requires Extremes(c, ys)
    ensures Extremes(Add(c, y, newer), ys + {y})
  {
    var a :| a in ys && HappenedAt(a, c.firstObservedAt);
    var b :| b in ys && HappenedAt(b, c.lastObservedAt);
    assert a in ys + {y} && b in ys + {y} && y in ys + {y};
  }

  lemma AddKeepsLatest(c: Correlation, ys: set<Contribution>, y: Contribution, newer: bool)
    requires KeepsLatest(c, ys)
    requires forall z :: z in ys && c.identity == z.identity ==> (newer <==> y.flowTime > z.flowTime)
    ensures KeepsLatest(Add(c, y, newer), ys + {y})
  {
    var z :| Latest(z, ys) && c.identity == z.identity;
    assert Latest(if newer then y else z, ys + {y});
  }

  lemma AddFirst(y: Contribution, newer: bool)
    ensures Summarises(Add(First(y), y, newer), {y})
  {
    assert y in {y} && Latest(y, {y});
  }

  function Record(p: Platform, corrs: map<Fingerprint, Correlation>, y: Contribution): map<Fingerprint, Correlation> {
    var c := if y.key in corrs then corrs[y.key] else First(y);
    corrs[y.key := Add(c, y, IsNewer(p, y.flowTime, c.identity))]
  }

  /** The device's own entry after recording. */
  lemma RecordOwn(p: Platform, corrs: map<Fingerprint, Correlation>, mine: set<Contribution>, y: Contribution)
    requires if y.key in corrs then Summarises(corrs[y.key], mine) else mine == {}
    requires forall z :: z in mine ==> Dated(p, z)
    ensures Summarises(Record(p, corrs, y)[y.key], mine + {y})
  {
    if y.key in corrs {
      var c := corrs[y.key];
      var newer := IsNewer(p, y.flowTime, c.identity);
      forall z | z in mine && c.identity == z.identity
        ensures newer <==> y.flowTime > z.flowTime
      {
        assert Dated(p, z);
      }
      AddUnions(c, mine, y, newer);
      AddExtremes(c, mine, y, newer);
      AddKeepsLatest(c, mine, y, newer);
    } else {
      AddFirst(y, IsNewer(p, y.flowTime, First(y).identity));
      assert mine + {y} == {y};
    }
  }

  /** Recording a contribution keeps the map a report of what has been seen, repetitions included. */
  lemma RecordReports(p: Platform, corrs: map<Fingerprint, Correlation>, ys: set<Contribution>, y: Contribution)
    requires Reports(corrs, ys) && forall z :: z in ys ==> Dated(p, z)
    ensures Reports(Record(p, corrs, y), ys + {y})
  {
    RecordOwn(p, corrs, Grouped.OfKey(ys, KEY, y.key), y);
    Grouped.Update(corrs, ys, KEY, SUMMARY, y, Record(p, corrs, y)[y.key]);
    assert Record(p, corrs, y) == corrs[y.key := Record(p, corrs, y)[y.key]];
  }
}
