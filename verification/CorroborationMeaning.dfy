/**
 What the corroboration detector joins and reports, spelled out on the columns of the three tables: which findings are
 candidates, when three rows corroborate each other, to which device a triple belongs, and what its correlation lists.
 */
module CorroborationMeaning {
  import opened Wrappers
  import opened Identity
  import opened Corroboration
  import opened Grouped
  import CorroborationPass

  // ---------- Candidates ----------

  lemma {:induction false} FeedsHold(p: Platform, items: seq<EvidenceItem>, indicator: string, feed: string)
    ensures feed in Feeds(p, items, indicator) <==>
      exists e :: e in items && e.IocItem? && NormalizeIp(p, Some(e.ioc)) == Some(indicator) && e.feed == feed != ""
  {
    if items != [] {
      var last := |items| - 1;
      FeedsHold(p, items[..last], indicator, feed);
      assert items == items[..last] + [items[last]];
    }
  }

  /** A finding is a candidate exactly if it has all of these; the candidate carries them. */
  lemma CandidateIff(p: Platform, row: FindingRow)
    ensures CandidateOf(p, row).Some? <==>
      && row.metadata.Some? && row.metadata.value.identity.Some? && row.evidence.Some?
      && ParseDetectorIdentity(p, row.metadata.value.identity.value).Some?
      && (var identity := ParseDetectorIdentity(p, row.metadata.value.identity.value).value;
          identity.sourceKind == Unifi && identity.connectionId.Some? && identity.scopeId.Some?
          && (identity.srcMac.Some? || identity.srcIp.Some?))
      && NormalizeIp(p, row.metadata.value.matchedValue).Some?
      && (exists e :: e in row.evidence.value && e.FlowItem? && e.id != "")
      && exists e ::
        e in row.evidence.value && e.IocItem? && e.feed != ""
        && NormalizeIp(p, Some(e.ioc)) == NormalizeIp(p, row.metadata.value.matchedValue)
    ensures CandidateOf(p, row).Some? ==>
      var c := CandidateOf(p, row).value;
      && c.id == row.id && NormalizeIp(p, row.metadata.value.matchedValue) == Some(c.indicator)
      && ParseDetectorIdentity(p, row.metadata.value.identity.value) == Some(c.identity)
      && (forall id :: id in c.flowIds <==> id != "" && FlowItem(id) in row.evidence.value)
      && forall feed :: feed in c.feeds <==>
           exists e ::
             e in row.evidence.value && e.IocItem? && NormalizeIp(p, Some(e.ioc)) == Some(c.indicator)
             && e.feed == feed != ""
  {
    if row.metadata.Some? && row.metadata.value.identity.Some? && row.evidence.Some?
      && NormalizeIp(p, row.metadata.value.matchedValue).Some?
    {
      var items, indicator := row.evidence.value, NormalizeIp(p, row.metadata.value.matchedValue).value;
      forall feed
        ensures feed in Feeds(p, items, indicator) <==>
          exists e :: e in items && e.IocItem? && NormalizeIp(p, Some(e.ioc)) == Some(indicator) && e.feed == feed != ""
      {
        FeedsHold(p, items, indicator, feed);
      }
      FlowIdsAre(items);
      FeedsExist(p, items, indicator);
    }
  }

  lemma FlowIdsAre(items: seq<EvidenceItem>)
    ensures forall id :: id in FlowIds(items) <==> id != "" && FlowItem(id) in items
    ensures FlowIds(items) != {} <==> exists e :: e in items && e.FlowItem? && e.id != ""
  {
    if e :| e in items && e.FlowItem? && e.id != "" { assert e.id in FlowIds(items); }
    if FlowIds(items) != {} {
      var id :| id in FlowIds(items);
    }
  }

  lemma FeedsExist(p: Platform, items: seq<EvidenceItem>, indicator: string)
    ensures Feeds(p, items, indicator) != [] <==>
      exists e :: e in items && e.IocItem? && e.feed != "" && NormalizeIp(p, Some(e.ioc)) == Some(indicator)
  {
    if e :| e in items && e.IocItem? && e.feed != "" && NormalizeIp(p, Some(e.ioc)) == Some(indicator) {
      FeedsHold(p, items, indicator, e.feed);
    }
    var feeds := Feeds(p, items, indicator);
    if feeds != [] {
      assert feeds[0] in feeds;
      FeedsHold(p, items, indicator, feeds[0]);
    }
  }

  // ---------- The join ----------

  /** The device of a flow: its hardware address if it has a real one, its source address otherwise. */
  lemma FlowDevice(p: Platform, f: FlowRow)
    requires Lawful(p) && Nonempty(Some(f.id)).Some? && NormalizeIp(p, f.srcIp).Some?
    ensures FlowIdentity(p, f).Some?
    ensures DeviceIdentityKey(FlowIdentity(p, f).value) ==
      if NormalizeMac(f.srcMac).Some? then ByMac(NormalizeMac(f.srcMac).value)
      else ByIp(NormalizeIp(p, f.srcIp).value)
  {
    NormalizeIpIdempotent(p, f.srcIp);
  }

  lemma CandidateHasDevice(p: Platform, rows: seq<FindingRow>, c: Candidate)
    requires c in Candidates(p, rows)
    ensures c.identity.srcMac.Some? || c.identity.srcIp.Some?
  {
    var row :| row in rows && CandidateOf(p, row).Some? && CandidateOf(p, row).value == c;
    CandidateIff(p, row);
  }

  lemma SameDeviceIff(p: Platform, id: DetectorIdentity, f: FlowRow)
    requires Lawful(p) && Nonempty(Some(f.id)).Some? && NormalizeIp(p, f.srcIp).Some?
    requires id.srcMac.Some? || id.srcIp.Some?
    ensures FlowIdentity(p, f).Some?
    ensures DeviceIdentityKey(id) == DeviceIdentityKey(FlowIdentity(p, f).value) <==>
      if id.srcMac.Some? then NormalizeMac(f.srcMac) == id.srcMac
      else NormalizeMac(f.srcMac) == None && NormalizeIp(p, f.srcIp) == id.srcIp
  {
    FlowDevice(p, f);
  }

  /**
   Three rows corroborate each other exactly if the finding names the flow and was found for its destination, the two
   events lie in the window and share connection, scope and source address, the finding's device is the flow's, and
   the threat is one of intrusion prevention.
   */
  lemma JoinedIff(p: Platform, ctx: Context, db: Database, c: Candidate, f: FlowRow, t: ThreatRow)
    requires Lawful(p) && Sound(db)
    ensures Triple(c, f, t) in Join(p, ctx, db.findings, db) <==>
      && (exists row :: row in db.findings && CandidateOf(p, row) == Some(c)) && f in db.flows && t in db.threats
      && ctx.beginTime <= f.occurredAt <= ctx.endTime && ctx.beginTime <= t.occurredAt <= ctx.endTime
      && f.id in c.flowIds && NormalizeIp(p, f.dstIp) == Some(c.indicator)
      && c.identity.connectionId == Some(f.connectionId) == Some(t.connectionId)
      && c.identity.scopeId == f.scopeId == t.scopeId && f.scopeId != None && f.scopeId != Some("")
      && NormalizeIp(p, f.srcIp) == NormalizeIp(p, t.srcIp) != None
      && (if c.identity.srcMac.Some? then NormalizeMac(f.srcMac) == c.identity.srcMac
          else NormalizeMac(f.srcMac) == None && NormalizeIp(p, f.srcIp) == c.identity.srcIp)
      && (t.kind == "THREAT_DETECTION_AND_PREVENTION" || t.subcategory == "SECURITY_INTRUSION_PREVENTION")
  {
    InJoin(p, ctx, db, c, f, t);
    if c in Candidates(p, db.findings) && f in db.flows {
      CandidateHasDevice(p, db.findings, c);
      CorroboratesIff(p, ctx, c, f, t);
    }
  }

  predicate SameDevice(p: Platform, id: DetectorIdentity, f: FlowRow) {
    if id.srcMac.Some? then NormalizeMac(f.srcMac) == id.srcMac
    else NormalizeMac(f.srcMac) == None && NormalizeIp(p, f.srcIp) == id.srcIp
  }

  lemma FlowMatchesIff(p: Platform, ctx: Context, c: Candidate, f: FlowRow)
    requires Lawful(p) && Nonempty(Some(f.id)).Some? && (c.identity.srcMac.Some? || c.identity.srcIp.Some?)
    ensures FlowMatches(p, ctx, c, f) <==>
      && ctx.beginTime <= f.occurredAt <= ctx.endTime
      && f.id in c.flowIds && NormalizeIp(p, f.dstIp) == Some(c.indicator)
      && c.identity.connectionId == Some(f.connectionId)
      && c.identity.scopeId == f.scopeId && f.scopeId != None && f.scopeId != Some("")
      && NormalizeIp(p, f.srcIp) != None && SameDevice(p, c.identity, f)
  {
    if NormalizeIp(p, f.srcIp).Some? { SameDeviceIff(p, c.identity, f); }
  }

  lemma CorroboratesIff(p: Platform, ctx: Context, c: Candidate, f: FlowRow, t: ThreatRow)
    requires Lawful(p) && Nonempty(Some(f.id)).Some? && (c.identity.srcMac.Some? || c.identity.srcIp.Some?)
    ensures Corroborates(p, ctx, Triple(c, f, t)) <==>
      && ctx.beginTime <= f.occurredAt <= ctx.endTime && ctx.beginTime <= t.occurredAt <= ctx.endTime
      && f.id in c.flowIds && NormalizeIp(p, f.dstIp) == Some(c.indicator)
      && c.identity.connectionId == Some(f.connectionId) == Some(t.connectionId)
      && c.identity.scopeId == f.scopeId == t.scopeId && f.scopeId != None && f.scopeId != Some("")
      && NormalizeIp(p, f.srcIp) == NormalizeIp(p, t.srcIp) != None && SameDevice(p, c.identity, f)
      && (t.kind == "THREAT_DETECTION_AND_PREVENTION" || t.subcategory == "SECURITY_INTRUSION_PREVENTION")
  {
    FlowMatchesIff(p, ctx, c, f);
  }

  lemma InJoin(p: Platform, ctx: Context, db: Database, c: Candidate, f: FlowRow, t: ThreatRow)
    ensures Triple(c, f, t) in Join(p, ctx, db.findings, db) <==>
      c in Candidates(p, db.findings) && f in db.flows && t in db.threats && Corroborates(p, ctx, Triple(c, f, t))
    ensures c in Candidates(p, db.findings) <==> exists row :: row in db.findings && CandidateOf(p, row) == Some(c)
  {
    if row :| row in db.findings && CandidateOf(p, row) == Some(c) {
      assert CandidateOf(p, row).value in Candidates(p, db.findings);
    }
  }

  // ---------- What a correlation lists ----------

  /** The key a triple is reported under names the flow's connection, scope and device. */
  lemma KeySpelt(p: Platform, ctx: Context, db: Database, x: Triple)
    requires Lawful(p) && Sound(db) && x in Join(p, ctx, db.findings, db)
    ensures FlowIdentity(p, x.flow).Some?
    ensures ContributionOf(p, x).key ==
      Fingerprint(
        "validated_compromise", ScopeKey(Unifi, Some(x.flow.connectionId), x.flow.scopeId, None),
        if NormalizeMac(x.flow.srcMac).Some? then ByMac(NormalizeMac(x.flow.srcMac).value)
        else ByIp(NormalizeIp(p, x.flow.srcIp).value), None)
  {
    InJoin(p, ctx, db, x.candidate, x.flow, x.threat);
    FlowDevice(p, x.flow);
    CorroborationPass.KeyNamesScope(p, ctx, db, x);
  }

  /** Those of the triples that are reported under the key. */
  ghost function Mine(p: Platform, xs: set<Triple>, key: Fingerprint): set<Triple> {
    set x | x in xs && FlowIdentity(p, x.flow).Some? && ContributionOf(p, x).key == key
  }

  predicate Cites(x: Triple, e: Evidence) {
    match e
    case FlowEvidence(id) => x.flow.id == id
    case ThreatEvidence(id) => x.threat.id == id
    case IocEvidence(ioc, feed) => x.candidate.indicator == ioc && feed in x.candidate.feeds
  }

  /** What the contribution of a triple says, column by column. */
  ghost predicate Gives(p: Platform, x: Triple, y: Contribution) {
    && y.findingId == x.candidate.id && y.threatId == x.threat.id
    && y.flowTime == x.flow.occurredAt && y.threatTime == x.threat.occurredAt
    && (forall e :: e in y.evidence <==> Cites(x, e))
    && (forall k :: k in y.categories <==> k != "" && x.threat.category == Some(k))
    && (forall ip :: ip in y.sourceIps <==> NormalizeIp(p, x.threat.srcIp) == Some(ip))
  }

  lemma ContributionGives(p: Platform, x: Triple)
    requires FlowIdentity(p, x.flow).Some?
    ensures Gives(p, x, ContributionOf(p, x))
  {
  }

  type Giving = Triple --> Contribution

  /** The contributions of a set of triples. */
  ghost predicate Contribute(p: Platform, mine: set<Triple>, give: Giving, ys: set<Contribution>) {
    && (forall x :: x in mine ==> give.requires(x) && give(x) in ys && Gives(p, x, give(x)))
    && (forall x :: x in mine ==> FlowIdentity(p, x.flow) == Some(give(x).identity))
    && (forall y :: y in ys ==> exists x :: x in mine && give(x) == y)
  }

  lemma MineContribute(p: Platform, xs: set<Triple>, key: Fingerprint) returns (give: Giving)
    ensures Contribute(p, Mine(p, xs, key), give, OfKey(Contributions(p, xs), KEY, key))
  {
    give := (x: Triple) requires FlowIdentity(p, x.flow).Some? => ContributionOf(p, x);
    var ys := OfKey(Contributions(p, xs), KEY, key);
    forall y | y in ys
      ensures exists x :: x in Mine(p, xs, key) && give(x) == y
    {
      var x :| x in xs && FlowIdentity(p, x.flow).Some? && ContributionOf(p, x) == y;
      assert x in Mine(p, xs, key) && give(x) == y;
    }
    forall x | x in Mine(p, xs, key)
      ensures give.requires(x) && give(x) in ys && Gives(p, x, give(x))
      ensures FlowIdentity(p, x.flow) == Some(give(x).identity)
    {
      ContributionGives(p, x);
    }
  }

  lemma CorrelationIsSummary(
    p: Platform, xs: set<Triple>, corrs: map<Fingerprint, Correlation>, key: Fingerprint)
    returns (give: Giving, ys: set<Contribution>)
    requires Reports(corrs, Contributions(p, xs))
    ensures Contribute(p, Mine(p, xs, key), give, ys)
    ensures key in corrs <==> Mine(p, xs, key) != {}
    ensures key in corrs ==> Summarises(corrs[key], ys)
  {
    ys := OfKey(Contributions(p, xs), KEY, key);
    give := MineContribute(p, xs, key);
    CorroborationPass.ReportAt(corrs, Contributions(p, xs), key);
    SomeContribute(p, Mine(p, xs, key), give, ys);
  }

  lemma SomeContribute(p: Platform, mine: set<Triple>, give: Giving, ys: set<Contribution>)
    requires Contribute(p, mine, give, ys)
    ensures mine == {} <==> ys == {}
  {
    assert forall x :: x in mine ==> give(x) in ys;
  }

  lemma IdsListed(p: Platform, c: Correlation, mine: set<Triple>, give: Giving, ys: set<Contribution>, id: string)
    requires Contribute(p, mine, give, ys) && Unions(c, ys)
    ensures id in c.iocFindingIds <==> exists x :: x in mine && x.candidate.id == id
    ensures id in c.threatIds <==> exists x :: x in mine && x.threat.id == id
  {
    forall x | x in mine
      ensures x.candidate.id in c.iocFindingIds && x.threat.id in c.threatIds
    {
      assert Gives(p, x, give(x)) && give(x) in ys;
    }
  }

  lemma CircumstancesListed(
    p: Platform, c: Correlation, mine: set<Triple>, give: Giving, ys: set<Contribution>, text: string)
    requires Contribute(p, mine, give, ys) && Unions(c, ys)
    ensures text in c.threatCategories <==> text != "" && exists x :: x in mine && x.threat.category == Some(text)
    ensures text in c.sourceIps <==> exists x :: x in mine && NormalizeIp(p, x.threat.srcIp) == Some(text)
  {
    forall x | x in mine
      ensures text != "" && x.threat.category == Some(text) <==> text in give(x).categories
      ensures NormalizeIp(p, x.threat.srcIp) == Some(text) <==> text in give(x).sourceIps
    {
      assert Gives(p, x, give(x)) && give(x) in ys;
    }
  }

  lemma EvidenceListed(
    p: Platform, c: Correlation, mine: set<Triple>, give: Giving, ys: set<Contribution>, e: Evidence)
    requires Contribute(p, mine, give, ys) && Unions(c, ys)
    ensures e in c.evidence <==> exists x :: x in mine && Cites(x, e)
  {
    forall x | x in mine
      ensures Cites(x, e) <==> e in give(x).evidence
    {
      assert Gives(p, x, give(x)) && give(x) in ys;
    }
  }

  lemma TimesSpanned(p: Platform, c: Correlation, mine: set<Triple>, give: Giving, ys: set<Contribution>)
    requires Contribute(p, mine, give, ys) && Extremes(c, ys)
    ensures forall x :: x in mine ==>
      c.firstObservedAt <= x.flow.occurredAt <= c.lastObservedAt
      && c.firstObservedAt <= x.threat.occurredAt <= c.lastObservedAt
  {
    forall x | x in mine
      ensures c.firstObservedAt <= x.flow.occurredAt <= c.lastObservedAt
      ensures c.firstObservedAt <= x.threat.occurredAt <= c.lastObservedAt
    {
      assert Gives(p, x, give(x)) && Spans(c, give(x));
    }
  }

  lemma TimesAttained(p: Platform, c: Correlation, mine: set<Triple>, give: Giving, ys: set<Contribution>)
    requires Contribute(p, mine, give, ys) && Extremes(c, ys)
    ensures exists x :: x in mine && c.firstObservedAt in {x.flow.occurredAt, x.threat.occurredAt}
    ensures exists x :: x in mine && c.lastObservedAt in {x.flow.occurredAt, x.threat.occurredAt}
  {
    var a :| a in ys && HappenedAt(a, c.firstObservedAt);
    var b :| b in ys && HappenedAt(b, c.lastObservedAt);
    var x :| x in mine && give(x) == a;
    var z :| z in mine && give(z) == b;
    assert Gives(p, x, a) && c.firstObservedAt in {x.flow.occurredAt, x.threat.occurredAt};
    assert Gives(p, z, b) && c.lastObservedAt in {z.flow.occurredAt, z.threat.occurredAt};
  }

  lemma IdentityKept(p: Platform, c: Correlation, mine: set<Triple>, give: Giving, ys: set<Contribution>)
    requires Contribute(p, mine, give, ys) && KeepsLatest(c, ys)
    ensures exists x ::
      x in mine && FlowIdentity(p, x.flow) == Some(c.identity)
      && forall z :: z in mine ==> z.flow.occurredAt <= x.flow.occurredAt
  {
    var y :| Latest(y, ys) && c.identity == y.identity;
    var x :| x in mine && give(x) == y;
    forall z | z in mine
      ensures z.flow.occurredAt <= x.flow.occurredAt
    {
      assert Gives(p, z, give(z)) && Gives(p, x, give(x));
    }
  }

  /**
   The report has a correlation exactly for the devices with corroborating rows, and lists the findings and threats
   of just these rows.
   */
  lemma CorrelationLists(
    p: Platform, xs: set<Triple>, corrs: map<Fingerprint, Correlation>, key: Fingerprint, text: string)
    requires Reports(corrs, Contributions(p, xs))
    ensures key in corrs <==> Mine(p, xs, key) != {}
    ensures key in corrs ==>
      var c, mine := corrs[key], Mine(p, xs, key);
      && (text in c.iocFindingIds <==> exists x :: x in mine && x.candidate.id == text)
      && (text in c.threatIds <==> exists x :: x in mine && x.threat.id == text)
  {
    var give, ys := CorrelationIsSummary(p, xs, corrs, key);
    if key in corrs { IdsListed(p, corrs[key], Mine(p, xs, key), give, ys, text); }
  }

  /** It tells the categories of their threats and the addresses they came from. */
  lemma CorrelationTells(
    p: Platform, xs: set<Triple>, corrs: map<Fingerprint, Correlation>, key: Fingerprint, text: string)
    requires Reports(corrs, Contributions(p, xs)) && key in corrs
    ensures
      var c, mine := corrs[key], Mine(p, xs, key);
      && (text in c.threatCategories <==> text != "" && exists x :: x in mine && x.threat.category == Some(text))
      && (text in c.sourceIps <==> exists x :: x in mine && NormalizeIp(p, x.threat.srcIp) == Some(text))
  {
    var give, ys := CorrelationIsSummary(p, xs, corrs, key);
    CircumstancesListed(p, corrs[key], Mine(p, xs, key), give, ys, text);
  }

  /** It cites the flows and threats of these rows, and the feeds that listed the indicators. */
  lemma CorrelationCites(
    p: Platform, xs: set<Triple>, corrs: map<Fingerprint, Correlation>, key: Fingerprint, e: Evidence)
    requires Reports(corrs, Contributions(p, xs)) && key in corrs
    ensures e in corrs[key].evidence <==>
      exists x ::
        x in Mine(p, xs, key)
        && match e
           case FlowEvidence(id) => x.flow.id == id
           case ThreatEvidence(id) => x.threat.id == id
           case IocEvidence(ioc, feed) => x.candidate.indicator == ioc && feed in x.candidate.feeds
  {
    var give, ys := CorrelationIsSummary(p, xs, corrs, key);
    EvidenceListed(p, corrs[key], Mine(p, xs, key), give, ys, e);
    assert forall x: Triple :: Cites(x, e) <==>
      match e
      case FlowEvidence(id) => x.flow.id == id
      case ThreatEvidence(id) => x.threat.id == id
      case IocEvidence(ioc, feed) => x.candidate.indicator == ioc && feed in x.candidate.feeds;
  }

  /** It spans exactly the times of these rows and keeps the identity of a latest flow. */
  lemma CorrelationSpans(
    p: Platform, xs: set<Triple>, corrs: map<Fingerprint, Correlation>, key: Fingerprint)
    requires Reports(corrs, Contributions(p, xs)) && key in corrs
    ensures
      var c, mine := corrs[key], Mine(p, xs, key);
      && (forall x :: x in mine ==>
            c.firstObservedAt <= x.flow.occurredAt <= c.lastObservedAt
            && c.firstObservedAt <= x.threat.occurredAt <= c.lastObservedAt)
      && (exists x :: x in mine && c.firstObservedAt in {x.flow.occurredAt, x.threat.occurredAt})
      && (exists x :: x in mine && c.lastObservedAt in {x.flow.occurredAt, x.threat.occurredAt})
    ensures exists x ::
      x in Mine(p, xs, key) && FlowIdentity(p, x.flow) == Some(corrs[key].identity)
      && forall z :: z in Mine(p, xs, key) ==> z.flow.occurredAt <= x.flow.occurredAt
  {
    var give, ys := CorrelationIsSummary(p, xs, corrs, key);
    TimesSpanned(p, corrs[key], Mine(p, xs, key), give, ys);
    TimesAttained(p, corrs[key], Mine(p, xs, key), give, ys);
    IdentityKept(p, corrs[key], Mine(p, xs, key), give, ys);
  }
}
