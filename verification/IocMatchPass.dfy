/**
 The detector's loops: grouping the hits of a match by indicator, merging each group, and paging
 through flows and DNS queries with the lookups of a page memoised. Proved to report exactly what
 looking up every row separately would.
 */
module IocMatchPass {
  import opened Wrappers
  import opened Text
  import opened Identity
  import opened Grouped
  import opened IocMatch
  import Paging

  // ---------- Merging one match ----------

  function GroupAt(groups: map<string, seq<IocHit>>, v: string): seq<IocHit> {
    if v in groups then groups[v] else []
  }

  method AddHit(order: seq<string>, groups: map<string, seq<IocHit>>, v: string, hit: IocHit)
    returns (order': seq<string>, groups': map<string, seq<IocHit>>)
    requires forall w :: w in order <==> w in groups
    ensures forall w :: w in order' <==> w in groups'
    ensures groups' == groups[v := GroupAt(groups, v) + [hit]]
  {
    order' := if v in groups then order else order + [v];
    groups' := groups[v := GroupAt(groups, v) + [hit]];
  }

  ghost predicate GroupedBy(reader: IndicatorReader, hits: seq<IocHit>, groups: map<string, seq<IocHit>>) {
    groups.Keys == Indicators(reader, hits) && forall v :: GroupAt(groups, v) == HitsFor(reader, hits, v)
  }

  lemma GroupStep(reader: IndicatorReader, hits: seq<IocHit>, hit: IocHit, groups: map<string, seq<IocHit>>)
    requires GroupedBy(reader, hits, groups)
    ensures
      var v := reader(hit);
      GroupedBy(
        reader, hits + [hit],
        if v.Some? then groups[v.value := GroupAt(groups, v.value) + [hit]] else groups)
  {
    var groups' := if reader(hit).Some? then groups[reader(hit).value := GroupAt(groups, reader(hit).value) + [hit]]
      else groups;
    IndicatorsAppend(reader, hits, hit);
    forall v
      ensures GroupAt(groups', v) == HitsFor(reader, hits + [hit], v)
    {
      HitsForAppend(reader, hits, hit, v);
      assert GroupAt(groups, v) == HitsFor(reader, hits, v);
    }
  }

  /** The hits of a match by listed indicator; `order` is the insertion order of the map. */
  method GroupHits(reader: IndicatorReader, hits: seq<IocHit>)
    returns (order: seq<string>, groups: map<string, seq<IocHit>>)
    ensures (forall v :: v in order <==> v in groups) && GroupedBy(reader, hits, groups)
  {
    order, groups := [], map[];
    for i := 0 to |hits|
      invariant (forall v :: v in order <==> v in groups) && GroupedBy(reader, hits[..i], groups)
    {
      GroupStep(reader, hits[..i], hits[i], groups);
      assert hits[..i + 1] == hits[..i] + [hits[i]];
      var indicator := reader(hits[i]);
      if indicator.Some? { order, groups := AddHit(order, groups, indicator.value, hits[i]); }
    }
    assert hits[..|hits|] == hits;
  }

  lemma IndicatorsAppend(reader: IndicatorReader, hits: seq<IocHit>, hit: IocHit)
    ensures Indicators(reader, hits + [hit]) == Indicators(reader, hits) + if reader(hit).Some? then {reader(hit).value}
      else {}
  {
    assert forall h :: h in hits + [hit] <==> h in hits || h == hit;
  }

  lemma HitsForAppend(reader: IndicatorReader, hits: seq<IocHit>, hit: IocHit, v: string)
    ensures HitsFor(reader, hits + [hit], v) == HitsFor(reader, hits, v) + if reader(hit) == Some(v) then [hit] else []
  {
    assert (hits + [hit])[..|hits|] == hits;
  }

  /** The loop over the evidence of a piece: items already seen are skipped. */
  method AppendEvidence(evidence: seq<Item>, seen: set<Item>, count: nat, items: seq<Item>)
    returns (evidence': seq<Item>, seen': set<Item>, count': nat)
    requires forall e :: e in evidence <==> e in seen
    ensures evidence' == AppendNew(evidence, items) && seen' == seen + set e | e in items
    ensures forall e :: e in evidence' <==> e in seen'
    ensures items != [] && (forall i :: 0 < i < |items| ==> items[i].IocItem?) && items[0].EventItem? ==>
              count' == count + if items[0] in evidence then 0 else 1
  {
    evidence', seen', count' := evidence, seen, count;
    for i := 0 to |items|
      invariant AppendNew(evidence', items[i..]) == AppendNew(evidence, items)
      invariant seen' == seen + (set e | e in items[..i]) && forall e :: e in evidence' <==> e in seen'
      invariant (forall j :: 0 < j < |items| ==> items[j].IocItem?) && i > 0 && items[0].EventItem? ==>
                  count' == count + if items[0] in evidence then 0 else 1
      invariant i == 0 ==> evidence' == evidence && count' == count
    {
      assert items[..i + 1] == items[..i] + [items[i]];
      assert items[i..][1..] == items[i + 1..];
      if items[i] !in seen' {
        seen' := seen' + {items[i]};
        evidence' := evidence' + [items[i]];
        if items[i].EventItem? { count' := count' + 1; }
      }
    }
    assert items[..|items|] == items;
  }

  lemma CollectAppend(hits: seq<IocHit>, hit: IocHit)
    ensures FeedsOf(hits + [hit]) == FeedsOf(hits) + {hit.feed}
    ensures CategoriesOf(hits + [hit]) == CategoriesOf(hits) + CategoryOf(hit)
  {
    assert forall h :: h in hits + [hit] <==> h in hits || h == hit;
  }

  /** The loop over the hits of a piece. */
  method CollectHits(hits: seq<IocHit>, feeds: set<string>, categories: set<string>)
    returns (feeds': set<string>, categories': set<string>)
    ensures feeds' == feeds + FeedsOf(hits) && categories' == categories + CategoriesOf(hits)
  {
    feeds', categories' := feeds, categories;
    ghost var f, c: set<string> := {}, {};
    for i := 0 to |hits|
      invariant f == FeedsOf(hits[..i]) && feeds' == feeds + f
      invariant c == CategoriesOf(hits[..i]) && categories' == categories + c
    {
      CollectPrefix(hits, i);
      feeds' := feeds' + {hits[i].feed};
      categories' := categories' + CategoryOf(hits[i]);
      f, c := f + {hits[i].feed}, c + CategoryOf(hits[i]);
    }
    assert hits[..|hits|] == hits;
  }

  lemma CollectPrefix(hits: seq<IocHit>, i: nat)
    requires i < |hits|
    ensures FeedsOf(hits[..i + 1]) == FeedsOf(hits[..i]) + {hits[i].feed}
    ensures CategoriesOf(hits[..i + 1]) == CategoriesOf(hits[..i]) + CategoryOf(hits[i])
  {
    assert hits[..i + 1] == hits[..i] + [hits[i]];
    CollectAppend(hits[..i], hits[i]);
  }

  method MergeEvidence(evidence: seq<Item>, seen: set<Item>, count: nat, x: Piece)
    returns (evidence': seq<Item>, seen': set<Item>, count': nat)
    requires forall e :: e in evidence <==> e in seen
    ensures evidence' == AppendNew(evidence, ItemList(x)) && seen' == seen + ItemsOf(x)
    ensures count' == count + if EventItem(x.event) in evidence then 0 else 1
  {
    ItemListItems(x);
    assert ItemsOf(x) == set e | e in ItemList(x);
    evidence', seen', count' := AppendEvidence(evidence, seen, count, ItemList(x));
  }

  method MergePiece(findings: map<Fingerprint, Finding>, x: Piece) returns (findings': map<Fingerprint, Finding>)
    requires x.key in findings ==> Listed(findings[x.key])
    ensures findings' == Merge(findings, x)
  {
    var prior := if x.key in findings then findings[x.key] else Blank(x);
    var merged := MergeCollections(prior, x);
    findings' := findings[x.key := merged];
  }

  method MergeCollections(prior: Finding, x: Piece) returns (merged: Finding)
    requires Listed(prior)
    ensures merged == Merged(prior, x)
  {
    var feeds, categories := CollectHits(x.hits, prior.feeds, prior.categories);
    var evidence, seen, count := MergeEvidence(prior.evidence, prior.seen, prior.sourceEventCount, x);
    merged := Assemble(prior, x, evidence, seen, feeds, categories, count);
  }

  lemma {:induction false} MergedAllListed(log: Log<Piece>)
    ensures forall key :: key in MergedAll(log) ==> Listed(MergedAll(log)[key])
  {
    if log.Then? {
      MergedAllListed(log.before);
      var before, x := MergedAll(log.before), log.x;
      MergedLists(if x.key in before then before[x.key] else Blank(x), x);
    }
  }

  method MergeLogged(findings: map<Fingerprint, Finding>, x: Piece, ghost log: Log<Piece>)
    returns (findings': map<Fingerprint, Finding>)
    requires findings == MergedAll(log)
    ensures findings' == MergedAll(Then(log, x))
  {
    MergedAllListed(log);
    findings' := MergePiece(findings, x);
  }

  function PiecesFor(p: Platform, m: Match, values: seq<string>): set<Piece> {
    set v | v in values :: PieceOf(p, m, v)
  }

  lemma PiecesForAppend(p: Platform, m: Match, values: seq<string>, v: string)
    ensures PiecesFor(p, m, values + [v]) == PiecesFor(p, m, values) + {PieceOf(p, m, v)}
  {
  }

  type MergeReading = Log<Piece> -> map<Fingerprint, Finding>

  /** `rec` stands for MergedAll; proofs that only extend the log need not look inside. */
  ghost predicate ReadsMerged(rec: MergeReading) {
    forall log {:trigger MergedAll(log)} :: rec(log) == MergedAll(log)
  }

  method MergeFinding(
    p: Platform, findings: map<Fingerprint, Finding>, m: Match, ghost log: Log<Piece>, ghost rec: MergeReading)
    returns (findings': map<Fingerprint, Finding>, ghost log': Log<Piece>)
    requires findings == rec(log) && ReadsMerged(rec)
    ensures findings' == rec(log') && Seen(log') == Seen(log) + PiecesOf(p, m)
  {
    var order, groups := GroupHits(ReaderOf(p, m.kind), m.hits);
    findings', log' := findings, log;
    for i := 0 to |order|
      invariant findings' == rec(log') && Seen(log') == Seen(log) + PiecesFor(p, m, order[..i])
    {
      var v := order[i];
      assert order[..i + 1] == order[..i] + [v];
      PiecesForAppend(p, m, order[..i], v);
      var x := Piece(DetectorFingerprint("ioc_match", m.identity, Some(Prefix(m.kind) + v)), v,
                     m.identity, m.actor, m.destination, GroupAt(groups, v), m.event);
      findings' := MergeLogged(findings', x, log');
      log' := Then(log', x);
    }
    assert order[..|order|] == order;
  }

  // ---------- Tables and what a row contributes ----------

  datatype Flow = Flow(
    id: string, connectionId: string, scopeId: Option<string>, occurredAt: int,
    srcMac: Option<string>, srcIp: Option<string>, srcClientName: Option<string>, dstIp: Option<string>)

  datatype Query = Query(id: string, connectionId: string, queriedAt: int, domain: string, clientIp: Option<string>,
      clientName: Option<string>)

  /** One of the two event tables, with the way its rows are looked up and turned into matches. */
  datatype Source<!T(!new)> = Source(
    id: T -> string, destination: T -> Option<string>, lookupValue: T -> string, lookup: string -> seq<IocHit>,
    build: (T, seq<IocHit>) -> Match)

  function FirstNonempty(a: string, b: Option<string>, c: Option<string>, default: string): string {
    if a != "" then a else if b.Some? && b.value != "" then b.value else if c.Some? && c.value != "" then c.value
      else default
  }

  function FlowIdentity(p: Platform, f: Flow): Option<DetectorIdentity> {
    CreateDetectorIdentity(p,
      Input(Unifi, Some(f.connectionId), f.scopeId, f.srcIp, f.srcMac, Some(f.id), Instant(Some(f.occurredAt))))
  }

  function QueryIdentity(p: Platform, q: Query): Option<DetectorIdentity> {
    CreateDetectorIdentity(p,
      Input(Adguard, Some(q.connectionId), None, q.clientIp, None, Some(q.id), Instant(Some(q.queriedAt))))
  }

  const NO_IDENTITY := DetectorIdentity(Unifi, None, None, None, None, "", None)

  function FlowMatch(p: Platform, f: Flow, hits: seq<IocHit>): Match {
    var identity := FlowIdentity(p, f).GetOr(NO_IDENTITY);
    Match(identity, FirstNonempty(Trim(f.srcClientName.GetOr("")), identity.srcMac, identity.srcIp, "Unknown device"),
          NormalizeIp(p, f.dstIp).GetOr(""), Ip, hits, FlowEvent(f.id))
  }

  function QueryMatch(p: Platform, q: Query, hits: seq<IocHit>): Match {
    var identity := QueryIdentity(p, q).GetOr(NO_IDENTITY);
    Match(identity, FirstNonempty(Trim(q.clientName.GetOr("")), identity.srcIp, None, "Unknown client"),
          NormalizeDomain(q.domain), Domain, hits, QueryEvent(q.id))
  }

  function FlowSource(p: Platform, lookupIp: string -> seq<IocHit>): Source<Flow> {
    Source(
      (f: Flow) => f.id, (f: Flow) => NormalizeIp(p, f.dstIp), (f: Flow) => Lower(Trim(f.dstIp.GetOr(""))), lookupIp,
      (f: Flow, hits: seq<IocHit>) => FlowMatch(p, f, hits))
  }

  function QuerySource(p: Platform, lookupDomain: string -> seq<IocHit>): Source<Query> {
    Source(
      (q: Query) => q.id,
      (q: Query) => if NormalizeDomain(q.domain) == "" then None else Some(NormalizeDomain(q.domain)),
      (q: Query) => NormalizeDomain(q.domain), lookupDomain,
      (q: Query, hits: seq<IocHit>) => QueryMatch(p, q, hits))
  }

  /** What one row contributes when it is looked up by itself. */
  function RowPieces<T(!new)>(p: Platform, src: Source<T>, row: T): set<Piece> {
    var hits := src.lookup(src.lookupValue(row));
    if src.destination(row).None? || hits == [] then {} else PiecesOf(p, src.build(row, hits))
  }

  type RowReading<!T(!new)> = T -> set<Piece>

  function RowReader<T(!new)>(p: Platform, src: Source<T>): RowReading<T> {
    row => RowPieces(p, src, row)
  }

  /** What a run of rows contributes, given what each row does. */
  function PiecesIn<T(!new)>(of: RowReading<T>, rows: seq<T>): set<Piece> {
    if rows == [] then {} else PiecesIn(of, rows[..|rows| - 1]) + of(rows[|rows| - 1])
  }

  lemma {:induction false} PiecesInRow<T(!new)>(of: RowReading<T>, rows: seq<T>, x: Piece) returns (row: T)
    requires x in PiecesIn(of, rows)
    ensures row in rows && x in of(row)
    decreases |rows|
  {
    var last := |rows| - 1;
    if x in of(rows[last]) { row := rows[last]; } else { row := PiecesInRow(of, rows[..last], x); }
  }

  lemma PiecesInAppend<T(!new)>(of: RowReading<T>, rows: seq<T>, row: T)
    ensures PiecesIn(of, rows + [row]) == PiecesIn(of, rows) + of(row)
  {
    assert (rows + [row])[..|rows|] == rows;
  }

  lemma SplitLast<T>(rows: seq<T>, more: seq<T>)
    requires more != []
    ensures more == more[..|more| - 1] + [more[|more| - 1]]
    ensures rows + more == (rows + more[..|more| - 1]) + [more[|more| - 1]]
  {
  }

  lemma {:induction false} PiecesInConcat<T(!new)>(of: RowReading<T>, rows: seq<T>, more: seq<T>)
    ensures PiecesIn(of, rows + more) == PiecesIn(of, rows) + PiecesIn(of, more)
    decreases |more|
  {
    if more == [] {
      assert rows + more == rows;
    } else {
      var last := |more| - 1;
      PiecesInConcat(of, rows, more[..last]);
      PiecesInAppend(of, rows + more[..last], more[last]);
      PiecesInAppend(of, more[..last], more[last]);
      SplitLast(rows, more);
    }
  }

  /** Reading the page at the cursor moves on by a page's worth of pieces; a short page is the last. */
  lemma PageAdds<T(!new)>(
    of: RowReading<T>, rows: seq<T>, id: T -> string, cursor: Option<string>, k: nat, pageSize: nat)
    requires pageSize > 0 && Paging.Keyed(rows, id) && Paging.CursorAt(rows, id, cursor, k)
    ensures
      var page := Paging.Page(rows, id, cursor, pageSize);
      && k + |page| <= |rows|
      && PiecesIn(of, rows[..k + |page|]) == PiecesIn(of, rows[..k]) + PiecesIn(of, page)
      && (|page| < pageSize ==> rows[..k + |page|] == rows)
      && (|page| >= pageSize ==> Paging.CursorAt(rows, id, Some(id(page[|page| - 1])), k + |page|))
  {
    var page := Paging.Page(rows, id, cursor, pageSize);
    Paging.PageAt(rows, id, cursor, k, pageSize);
    PiecesInConcat(of, rows[..k], page);
    assert rows[..k + |page|] == rows[..k] + page;
  }

  // ---------- Paging with memoised lookups ----------

  ghost predicate Memo(lookups: map<string, seq<IocHit>>, lookup: string -> seq<IocHit>) {
    forall v :: v in lookups ==> lookups[v] == lookup(v)
  }

  ghost predicate ReadsRows<T(!new)>(of: RowReading<T>, p: Platform, src: Source<T>) {
    forall row {:trigger RowPieces(p, src, row)} :: of(row) == RowPieces(p, src, row)
  }

  method ScanRow<T(!new)>(
    p: Platform, src: Source<T>, row: T, lookups: map<string, seq<IocHit>>, findings: map<Fingerprint, Finding>,
    ghost log: Log<Piece>, ghost rec: MergeReading, ghost of: RowReading<T>)
    returns (lookups': map<string, seq<IocHit>>, findings': map<Fingerprint, Finding>, ghost log': Log<Piece>)
    requires Memo(lookups, src.lookup) && findings == rec(log) && ReadsMerged(rec) && ReadsRows(of, p, src)
    ensures Memo(lookups', src.lookup) && findings' == rec(log') && Seen(log') == Seen(log) + of(row)
  {
    lookups', findings', log' := lookups, findings, log;
    assert RowPieces(p, src, row) == of(row);
    if src.destination(row).None? { return; }
    var value := src.lookupValue(row);
    var hits;
    if value in lookups {
      hits := lookups[value];
    } else {
      hits := src.lookup(value);
      lookups' := lookups[value := hits];
    }
    if hits == [] { return; }
    findings', log' := MergeFinding(p, findings, src.build(row, hits), log, rec);
  }

  /** One page, with a fresh memo. */
  method ScanPage<T(!new)>(
    p: Platform, src: Source<T>, page: seq<T>, findings: map<Fingerprint, Finding>, ghost log: Log<Piece>,
    ghost rec: MergeReading, ghost of: RowReading<T>)
    returns (findings': map<Fingerprint, Finding>, ghost log': Log<Piece>)
    requires findings == rec(log) && ReadsMerged(rec) && ReadsRows(of, p, src)
    ensures findings' == rec(log') && Seen(log') == Seen(log) + PiecesIn(of, page)
  {
    findings', log' := findings, log;
    var lookups: map<string, seq<IocHit>> := map[];
    for i := 0 to |page|
      invariant Memo(lookups, src.lookup) && findings' == rec(log') && Seen(log') == Seen(log) + PiecesIn(of, page[..i])
    {
      lookups, findings', log' := ScanRow(p, src, page[i], lookups, findings', log', rec, of);
      assert page[..i + 1][..i] == page[..i];
    }
    assert page[..|page|] == page;
  }

  /** The cursor loop over one table. */
  method ScanTable<T(!new)>(
    p: Platform, src: Source<T>, rows: seq<T>, pageSize: nat, findings: map<Fingerprint, Finding>,
    ghost log: Log<Piece>, ghost rec: MergeReading, ghost of: RowReading<T>)
    returns (findings': map<Fingerprint, Finding>, ghost log': Log<Piece>)
    requires pageSize > 0 && Paging.Keyed(rows, src.id) && findings == rec(log) && ReadsMerged(rec)
      && ReadsRows(of, p, src)
    ensures findings' == rec(log') && Seen(log') == Seen(log) + PiecesIn(of, rows)
  {
    findings', log' := findings, log;
    var cursor: Option<string> := None;
    ghost var k := 0;
    while true
      invariant Paging.CursorAt(rows, src.id, cursor, k)
      invariant findings' == rec(log') && Seen(log') == Seen(log) + PiecesIn(of, rows[..k])
      decreases |rows| - k
    {
      var page := Paging.Page(rows, src.id, cursor, pageSize);
      PageAdds(of, rows, src.id, cursor, k, pageSize);
      findings', log' := ScanPage(p, src, page, findings', log', rec, of);
      k := k + |page|;
      if |page| < pageSize { break; }
      cursor := Some(src.id(page[|page| - 1]));
    }
  }

  // ---------- The detector ----------

  /** An unchanged snapshot in id order, and the feed cache's answers. */
  datatype Snapshot = Snapshot(flows: seq<Flow>, queries: seq<Query>, lookupIp: string -> seq<IocHit>,
      lookupDomain: string -> seq<IocHit>)

  ghost predicate Sound(db: Snapshot) {
    && Paging.Keyed(db.flows, (f: Flow) => f.id) && Paging.Keyed(db.queries, (q: Query) => q.id)
    && (forall f :: f in db.flows ==> Nonempty(Some(f.id)) == Some(f.id))
    && (forall q :: q in db.queries ==> Nonempty(Some(q.id)) == Some(q.id))
  }

  function FlowsIn(db: Snapshot, beginTime: int, endTime: int): seq<Flow> {
    Paging.Where(db.flows, (f: Flow) => beginTime <= f.occurredAt <= endTime && f.dstIp.Some?)
  }

  function QueriesIn(db: Snapshot, beginTime: int, endTime: int): seq<Query> {
    Paging.Where(db.queries, (q: Query) => beginTime <= q.queriedAt <= endTime)
  }

  /** Every row of the window looked up by itself. */
  function AllPieces(p: Platform, db: Snapshot, beginTime: int, endTime: int): set<Piece> {
    PiecesIn(RowReader(p, FlowSource(p, db.lookupIp)), FlowsIn(db, beginTime, endTime))
    + PiecesIn(RowReader(p, QuerySource(p, db.lookupDomain)), QueriesIn(db, beginTime, endTime))
  }

  /** The detector reports exactly the matches of the window, whatever the page size. */
  method Evaluate(p: Platform, db: Snapshot, beginTime: int, endTime: int, pageSize: nat)
    returns (findings: map<Fingerprint, Finding>)
    requires Lawful(p) && Sound(db) && pageSize > 0
    ensures Reports(findings, AllPieces(p, db, beginTime, endTime))
  {
    ghost var log := Nothing;
    ghost var rec: MergeReading := l => MergedAll(l);
    assert MergedAll(Nothing) == map[];
    findings, log := ScanAll(p, db, beginTime, endTime, pageSize, rec);
    PiecesConsistent(p, db, beginTime, endTime);
    MergedAllReports(log);
  }

  method ScanAll(p: Platform, db: Snapshot, beginTime: int, endTime: int, pageSize: nat, ghost rec: MergeReading)
    returns (findings: map<Fingerprint, Finding>, ghost log: Log<Piece>)
    requires Sound(db) && pageSize > 0 && ReadsMerged(rec)
    ensures findings == rec(log) && Seen(log) == AllPieces(p, db, beginTime, endTime)
  {
    findings, log := map[], Nothing;
    assert MergedAll(Nothing) == map[];
    var flows, queries := FlowSource(p, db.lookupIp), QuerySource(p, db.lookupDomain);
    Paging.WhereKeyed(db.flows, flows.id, (f: Flow) => beginTime <= f.occurredAt <= endTime && f.dstIp.Some?);
    Paging.WhereKeyed(db.queries, queries.id, (q: Query) => beginTime <= q.queriedAt <= endTime);
    findings, log :=
      ScanTable(p, flows, FlowsIn(db, beginTime, endTime), pageSize, findings, log, rec, RowReader(p, flows));
    findings, log :=
      ScanTable(p, queries, QueriesIn(db, beginTime, endTime), pageSize, findings, log, rec, RowReader(p, queries));
  }

  // ---------- One event tells one story ----------

  lemma FlowPiece(p: Platform, db: Snapshot, x: Piece, beginTime: int, endTime: int) returns (f: Flow)
    requires Lawful(p) && Sound(db)
      && x in PiecesIn(RowReader(p, FlowSource(p, db.lookupIp)), FlowsIn(db, beginTime, endTime))
    ensures f in db.flows && x.identity == FlowIdentity(p, f).value && x.identity.eventId == f.id
      && x.actor == FlowMatch(p, f, []).actor
    ensures x.key.indicator == Some(Prefix(Ip) + x.indicator) && x.key.scope.sourceKind == Unifi
    ensures TimeOf(x) == p.Iso(f.occurredAt) != "" && beginTime <= f.occurredAt <= endTime
  {
    f := PiecesInRow(RowReader(p, FlowSource(p, db.lookupIp)), FlowsIn(db, beginTime, endTime), x);
  }

  lemma QueryPiece(p: Platform, db: Snapshot, x: Piece, beginTime: int, endTime: int) returns (q: Query)
    requires Lawful(p) && Sound(db)
      && x in PiecesIn(RowReader(p, QuerySource(p, db.lookupDomain)), QueriesIn(db, beginTime, endTime))
    ensures q in db.queries && x.identity == QueryIdentity(p, q).value && x.identity.eventId == q.id
      && x.actor == QueryMatch(p, q, []).actor
    ensures x.key.indicator == Some(Prefix(Domain) + x.indicator) && x.key.scope.sourceKind == Adguard
    ensures TimeOf(x) == p.Iso(q.queriedAt) != "" && beginTime <= q.queriedAt <= endTime
  {
    q := PiecesInRow(RowReader(p, QuerySource(p, db.lookupDomain)), QueriesIn(db, beginTime, endTime), x);
  }

  lemma PrefixCancels(kind: Kind, a: string, b: string)
    requires Prefix(kind) + a == Prefix(kind) + b
    ensures a == b
  {
    var n := |Prefix(kind)|;
    assert (Prefix(kind) + a)[n..] == a && (Prefix(kind) + b)[n..] == b;
  }

  lemma PairConsistent(p: Platform, db: Snapshot, x: Piece, y: Piece, beginTime: int, endTime: int)
    requires Lawful(p) && Sound(db)
    requires x in AllPieces(p, db, beginTime, endTime) && y in AllPieces(p, db, beginTime, endTime)
    ensures TimeOf(x) != ""
    ensures x.key == y.key ==>
      x.indicator == y.indicator
      && (x.identity.eventId == y.identity.eventId ==> x.identity == y.identity && x.actor == y.actor)
  {
    var flows := PiecesIn(RowReader(p, FlowSource(p, db.lookupIp)), FlowsIn(db, beginTime, endTime));
    if x in flows && y in flows {
      var f := FlowPiece(p, db, x, beginTime, endTime);
      var g := FlowPiece(p, db, y, beginTime, endTime);
      if x.key == y.key { PrefixCancels(Ip, x.indicator, y.indicator); }
      if f.id == g.id { Paging.KeyedUnique(db.flows, (f: Flow) => f.id, f, g); }
    } else if x in flows {
      var f := FlowPiece(p, db, x, beginTime, endTime);
      var q := QueryPiece(p, db, y, beginTime, endTime);
    } else if y in flows {
      var q := QueryPiece(p, db, x, beginTime, endTime);
      var f := FlowPiece(p, db, y, beginTime, endTime);
    } else {
      var q := QueryPiece(p, db, x, beginTime, endTime);
      var r := QueryPiece(p, db, y, beginTime, endTime);
      if x.key == y.key { PrefixCancels(Domain, x.indicator, y.indicator); }
      if q.id == r.id { Paging.KeyedUnique(db.queries, (q: Query) => q.id, q, r); }
    }
  }

  lemma PiecesConsistent(p: Platform, db: Snapshot, beginTime: int, endTime: int)
    requires Lawful(p) && Sound(db)
    ensures Consistent(AllPieces(p, db, beginTime, endTime))
  {
    forall x, y | x in AllPieces(p, db, beginTime, endTime) && y in AllPieces(p, db, beginTime, endTime)
      ensures TimeOf(x) != ""
      ensures x.key == y.key ==>
        x.indicator == y.indicator
        && (x.identity.eventId == y.identity.eventId ==> x.identity == y.identity && x.actor == y.actor)
    {
      PairConsistent(p, db, x, y, beginTime, endTime);
    }
  }

  // ---------- First and last observed are instants ----------

  lemma PieceInstant(p: Platform, db: Snapshot, x: Piece, beginTime: int, endTime: int) returns (t: int)
    requires Lawful(p) && Sound(db) && x in AllPieces(p, db, beginTime, endTime)
    ensures TimeOf(x) == p.Iso(t) && beginTime <= t <= endTime && p.Parse(TimeOf(x)) == Some(t)
  {
    if x in PiecesIn(RowReader(p, FlowSource(p, db.lookupIp)), FlowsIn(db, beginTime, endTime)) {
      var f := FlowPiece(p, db, x, beginTime, endTime);
      t := f.occurredAt;
    } else {
      var q := QueryPiece(p, db, x, beginTime, endTime);
      t := q.queriedAt;
    }
  }

  function EventInstant(p: Platform, x: Piece): int {
    p.Parse(TimeOf(x)).GetOr(0)
  }

  /** Each piece carries the instant of its event, which lies in the window. */
  ghost predicate Timed(p: Platform, xs: set<Piece>, beginTime: int, endTime: int) {
    forall x :: x in xs ==> TimeOf(x) == p.Iso(EventInstant(p, x)) && beginTime <= EventInstant(p, x) <= endTime
  }

  lemma PiecesTimed(p: Platform, db: Snapshot, beginTime: int, endTime: int)
    requires Lawful(p) && Sound(db)
    ensures Timed(p, AllPieces(p, db, beginTime, endTime), beginTime, endTime)
  {
    forall x | x in AllPieces(p, db, beginTime, endTime)
      ensures TimeOf(x) == p.Iso(EventInstant(p, x)) && beginTime <= EventInstant(p, x) <= endTime
    {
      var t := PieceInstant(p, db, x, beginTime, endTime);
    }
  }

  /** First and last are the least and greatest instants of the events. */
  ghost predicate Observed(p: Platform, f: Finding, xs: set<Piece>) {
    exists a, b ::
      && a in xs && b in xs && f.firstObservedAt == Some(p.Iso(EventInstant(p, a)))
      && f.lastObservedAt == Some(p.Iso(EventInstant(p, b)))
      && forall x :: x in xs ==> EventInstant(p, a) <= EventInstant(p, x) <= EventInstant(p, b)
  }

  lemma ExtremesAreObserved(p: Platform, f: Finding, xs: set<Piece>, beginTime: int, endTime: int)
    requires Chronological(p) && FourDigitYear(beginTime) && FourDigitYear(endTime) && Timed(p, xs, beginTime, endTime)
    requires Extremes(f, xs)
    ensures Observed(p, f, xs)
  {
    var a :| a in xs && TimeOf(a) == f.firstObservedAt.value;
    var b :| b in xs && TimeOf(b) == f.lastObservedAt.value;
    var first, last := EventInstant(p, a), EventInstant(p, b);
    forall x | x in xs
      ensures first <= EventInstant(p, x) <= last
    {
      var t := EventInstant(p, x);
      assert !Less(p.Iso(t), p.Iso(first)) && !Less(p.Iso(last), p.Iso(t));
    }
  }

  lemma ReportedExtremes(findings: map<Fingerprint, Finding>, xs: set<Piece>, key: Fingerprint)
    requires Reports(findings, xs) && key in findings
    ensures Extremes(findings[key], OfKey(xs, KEY, key))
  {
    assert SUMMARY(findings[key], OfKey(xs, KEY, key));
  }

  /** On windows within four-digit years, text order does not show: reported times are extremes of the instants. */
  lemma ReportedObserved(
    p: Platform, xs: set<Piece>, beginTime: int, endTime: int, findings: map<Fingerprint, Finding>,
    key: Fingerprint)
    requires Chronological(p) && FourDigitYear(beginTime) && FourDigitYear(endTime) && Timed(p, xs, beginTime, endTime)
    requires Reports(findings, xs) && key in findings
    ensures Observed(p, findings[key], OfKey(xs, KEY, key))
  {
    ReportedExtremes(findings, xs, key);
    ExtremesAreObserved(p, findings[key], OfKey(xs, KEY, key), beginTime, endTime);
  }
}
