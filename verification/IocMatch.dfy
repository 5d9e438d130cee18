/**
 Threat-intelligence matching of flows and DNS queries (backend/src/detectors/iocMatch.ts).
 What a finding says of the matches behind it, and the merge that accumulates it match by match.
 */
module IocMatch {
  import opened Wrappers
  import opened Text
  import opened Identity
  import opened Grouped

  datatype Kind = Ip | Domain

  datatype IocHit = IocHit(kind: Kind, value: string, feed: string, category: Option<string>, severity: Option<string>)

  datatype Event = FlowEvent(id: string) | QueryEvent(id: string)

  datatype Item = EventItem(event: Event) | IocItem(ioc: string, feed: string)

  datatype Match = Match(
    identity: DetectorIdentity, actor: string, destination: string, kind: Kind, hits: seq<IocHit>, event: Event)

  datatype Finding = Finding(
    critical: bool, indicator: string, identity: DetectorIdentity, actor: string, evidence: seq<Item>, seen: set<Item>,
    feeds: set<string>, categories: set<string>, destinations: set<string>,
    firstObservedAt: Option<string>, lastObservedAt: Option<string>, sourceEventCount: nat)

  // ---------- Indicators ----------

  function NormalizeDomain(value: string): string {
    var d := Lower(Trim(value));
    if d != "" && d[|d| - 1] == '.' then d[..|d| - 1] else d
  }

  /** The listed indicator a hit stands for; hits of the other kind are ignored. */
  function IndicatorOf(p: Platform, kind: Kind, hit: IocHit): Option<string> {
    var value := if kind == Ip then NormalizeIp(p, Some(hit.value)) else Some(NormalizeDomain(hit.value));
    if value.None? || value.value == "" || hit.kind != kind then None else value
  }

  predicate IsCritical(hit: IocHit) {
    (hit.severity.Some? && Upper(hit.severity.value) == "CRITICAL")
      || Lower(Trim(hit.category.GetOr(""))) in {"malware-c2", "cryptominer"}
  }

  function CategoryOf(hit: IocHit): set<string> {
    if Trim(hit.category.GetOr("")) == "" then {} else {Lower(Trim(hit.category.value))}
  }

  /** One match seen from one indicator: what is merged into one finding. */
  datatype Piece = Piece(
    key: Fingerprint, indicator: string, identity: DetectorIdentity, actor: string, destination: string,
    hits: seq<IocHit>, event: Event)

  type IndicatorReader = IocHit -> Option<string>

  function ReaderOf(p: Platform, kind: Kind): IndicatorReader {
    hit => IndicatorOf(p, kind, hit)
  }

  function HitsFor(reader: IndicatorReader, hits: seq<IocHit>, value: string): seq<IocHit> {
    if hits == [] then []
    else
      var last := |hits| - 1;
      HitsFor(reader, hits[..last], value) + if reader(hits[last]) == Some(value) then [hits[last]] else []
  }

  function Prefix(kind: Kind): string {
    if kind == Ip then "ip:" else "domain:"
  }

  function PieceOf(p: Platform, m: Match, value: string): Piece {
    Piece(DetectorFingerprint("ioc_match", m.identity, Some(Prefix(m.kind) + value)), value,
          m.identity, m.actor, m.destination, HitsFor(ReaderOf(p, m.kind), m.hits, value), m.event)
  }

  function Indicators(reader: IndicatorReader, hits: seq<IocHit>): set<string> {
    set h | h in hits && reader(h).Some? :: reader(h).value
  }

  function PiecesOf(p: Platform, m: Match): set<Piece> {
    set value | value in Indicators(ReaderOf(p, m.kind), m.hits) :: PieceOf(p, m, value)
  }

  // ---------- What a finding says of the pieces behind it ----------

  function FeedsOf(hits: seq<IocHit>): set<string> {
    set h | h in hits :: h.feed
  }

  function CategoriesOf(hits: seq<IocHit>): set<string> {
    set h, c | h in hits && c in CategoryOf(h) :: c
  }

  predicate AnyCritical(hits: seq<IocHit>) {
    exists h :: h in hits && IsCritical(h)
  }

  function ItemsOf(x: Piece): set<Item> {
    {EventItem(x.event)} + set h | h in x.hits :: IocItem(x.indicator, h.feed)
  }

  function ItemList(x: Piece): seq<Item> {
    [EventItem(x.event)] + seq(|x.hits|, i requires 0 <= i < |x.hits| => IocItem(x.indicator, x.hits[i].feed))
  }

  ghost predicate Unions(f: Finding, xs: set<Piece>) {
    && f.feeds == (set x, v | x in xs && v in FeedsOf(x.hits) :: v)
    && f.categories == (set x, c | x in xs && c in CategoriesOf(x.hits) :: c)
    && f.destinations == (set x | x in xs :: x.destination)
    && f.seen == (set x, e | x in xs && e in ItemsOf(x) :: e)
    && (f.critical <==> exists x :: x in xs && AnyCritical(x.hits))
  }

  ghost function EventsOf(xs: set<Piece>): set<Event> {
    set x | x in xs :: x.event
  }

  /** Every evidence item is listed once. */
  ghost predicate Listed(f: Finding) {
    Distinct(f.evidence) && forall e :: e in f.evidence <==> e in f.seen
  }

  function TimeOf(x: Piece): string {
    x.identity.observedAt.GetOr("")
  }

  ghost predicate Extremes(f: Finding, xs: set<Piece>) {
    && f.firstObservedAt.Some? && f.lastObservedAt.Some?
    && (forall x :: x in xs ==> !Less(TimeOf(x), f.firstObservedAt.value) && !Less(f.lastObservedAt.value, TimeOf(x)))
    && (exists x :: x in xs && TimeOf(x) == f.firstObservedAt.value)
    && (exists x :: x in xs && TimeOf(x) == f.lastObservedAt.value)
  }

  /** Later in time, ties broken by event id. */
  predicate Later(x: Piece, y: Piece) {
    Less(TimeOf(y), TimeOf(x)) || (TimeOf(x) == TimeOf(y) && Less(y.identity.eventId, x.identity.eventId))
  }

  ghost predicate Newest(x: Piece, xs: set<Piece>) {
    x in xs && forall y :: y in xs ==> !Later(y, x)
  }

  ghost predicate KeepsNewest(f: Finding, xs: set<Piece>) {
    exists x :: Newest(x, xs) && f.identity == x.identity && f.actor == x.actor
  }

  /** The collected sets, lists and counts. */
  ghost predicate Collects(f: Finding, xs: set<Piece>) {
    Unions(f, xs) && Listed(f) && f.sourceEventCount == |EventsOf(xs)|
  }

  /** The extreme times, and whose identity is kept. */
  ghost predicate Places(f: Finding, xs: set<Piece>) {
    Extremes(f, xs) && KeepsNewest(f, xs)
  }

  ghost predicate Names(f: Finding, xs: set<Piece>) {
    forall x :: x in xs ==> x.indicator == f.indicator
  }

  ghost predicate Summarises(f: Finding, xs: set<Piece>) {
    Collects(f, xs) && Places(f, xs) && Names(f, xs)
  }

  const KEY := (x: Piece) => x.key

  ghost const SUMMARY := (f: Finding, xs: set<Piece>) => Summarises(f, xs)

  /** One finding per fingerprint, summarising the pieces of that fingerprint. */
  ghost predicate Reports(findings: map<Fingerprint, Finding>, xs: set<Piece>) {
    Tabulates(findings, xs, KEY, SUMMARY)
  }

  // ---------- Merging one piece ----------

  /** Items are appended unless already listed. */
  function AppendNew(evidence: seq<Item>, items: seq<Item>): seq<Item>
    decreases |items|
  {
    if items == [] then evidence
    else AppendNew(if items[0] in evidence then evidence else evidence + [items[0]], items[1..])
  }

  predicate IsNewest(last: Option<string>, kept: DetectorIdentity, x: DetectorIdentity) {
    && x.observedAt.Some? && x.observedAt.value != ""
    && (last.None? || last.value == "" || Less(last.value, x.observedAt.value)
        || (x.observedAt == last && Less(kept.eventId, x.eventId)))
  }

  function Earliest(first: Option<string>, t: Option<string>): Option<string> {
    if t.Some? && t.value != "" && (first.None? || first.value == "" || Less(t.value, first.value)) then t else first
  }

  function Latest(last: Option<string>, t: Option<string>): Option<string> {
    if t.Some? && t.value != "" && (last.None? || last.value == "" || Less(last.value, t.value)) then t else last
  }

  /** The finding a first piece starts from. */
  function Blank(x: Piece): Finding {
    Finding(false, x.indicator, x.identity, x.actor, [], {}, {}, {}, {}, None, None, 0)
  }

  /** The metadata updates, around the collections gathered by the loops. */
  function Assemble(
    f: Finding, x: Piece, evidence: seq<Item>, seen: set<Item>, feeds: set<string>, categories: set<string>,
    count: nat): Finding {
    var newest := IsNewest(f.lastObservedAt, f.identity, x.identity);
    Finding(
      f.critical || AnyCritical(x.hits), f.indicator,
      if newest then x.identity else f.identity, if newest then x.actor else f.actor,
      evidence, seen, feeds, categories, f.destinations + {x.destination},
      Earliest(f.firstObservedAt, x.identity.observedAt), Latest(f.lastObservedAt, x.identity.observedAt), count)
  }

  function Merged(f: Finding, x: Piece): Finding {
    Assemble(
      f, x, AppendNew(f.evidence, ItemList(x)), f.seen + ItemsOf(x), f.feeds + FeedsOf(x.hits),
      f.categories + CategoriesOf(x.hits),
      f.sourceEventCount + if EventItem(x.event) in f.evidence then 0 else 1)
  }

  function Merge(findings: map<Fingerprint, Finding>, x: Piece): map<Fingerprint, Finding> {
    findings[x.key := Next(findings, x)]
  }

  function Next(findings: map<Fingerprint, Finding>, x: Piece): Finding {
    Merged(if x.key in findings then findings[x.key] else Blank(x), x)
  }

  /**
   Every piece carries a time, and one event tells one story: same identity,
   actor and indicator under one fingerprint.
   */
  ghost predicate Consistent(xs: set<Piece>) {
    && (forall x :: x in xs ==> TimeOf(x) != "")
    && (forall x, y :: x in xs && y in xs && x.key == y.key ==>
          x.indicator == y.indicator
            && (x.identity.eventId == y.identity.eventId ==> x.identity == y.identity && x.actor == y.actor))
  }

  lemma {:induction false} AppendNewLists(evidence: seq<Item>, items: seq<Item>)
    requires Distinct(evidence)
    ensures Distinct(AppendNew(evidence, items))
    ensures forall e :: e in AppendNew(evidence, items) <==> e in evidence || e in items
    decreases |items|
  {
    if items != [] {
      AppendNewLists(if items[0] in evidence then evidence else evidence + [items[0]], items[1..]);
    }
  }

  lemma ItemListItems(x: Piece)
    ensures forall e :: e in ItemList(x) <==> e in ItemsOf(x)
  {
    forall e | e in ItemsOf(x)
      ensures e in ItemList(x)
    {
      if e != EventItem(x.event) {
        var h :| h in x.hits && e == IocItem(x.indicator, h.feed);
        var i :| 0 <= i < |x.hits| && x.hits[i] == h;
        assert ItemList(x)[i + 1] == e;
      }
    }
  }

  lemma MergedLists(f: Finding, x: Piece)
    requires Listed(f)
    ensures Listed(Merged(f, x))
  {
    AppendNewLists(f.evidence, ItemList(x));
    ItemListItems(x);
  }

  lemma MergedUnions(f: Finding, xs: set<Piece>, x: Piece)
    requires Unions(f, xs)
    ensures Unions(Merged(f, x), xs + {x})
  {
    assert x in xs + {x};
  }

  lemma EventSeen(f: Finding, xs: set<Piece>, event: Event)
    requires Unions(f, xs)
    ensures EventItem(event) in f.seen <==> event in EventsOf(xs)
  {
    if event in EventsOf(xs) {
      var x :| x in xs && x.event == event;
      assert EventItem(event) in ItemsOf(x);
    }
  }

  lemma MergedCollects(f: Finding, xs: set<Piece>, x: Piece)
    requires Collects(f, xs)
    ensures Collects(Merged(f, x), xs + {x})
  {
    MergedUnions(f, xs, x);
    MergedLists(f, x);
    EventSeen(f, xs, x.event);
    EventsAdd(xs, x);
  }

  lemma EventsAdd(xs: set<Piece>, x: Piece)
    ensures EventsOf(xs + {x}) == EventsOf(xs) + {x.event}
  {
  }

  lemma MergedExtremes(f: Finding, xs: set<Piece>, x: Piece)
    requires Extremes(f, xs) && TimeOf(x) != "" && (forall y :: y in xs ==> TimeOf(y) != "")
    ensures Extremes(Merged(f, x), xs + {x})
  {
    var a :| a in xs && TimeOf(a) == f.firstObservedAt.value;
    var b :| b in xs && TimeOf(b) == f.lastObservedAt.value;
    assert a in xs + {x} && b in xs + {x} && x in xs + {x};
    var g := Merged(f, x);
    forall y | y in xs + {x}
      ensures !Less(TimeOf(y), g.firstObservedAt.value) && !Less(g.lastObservedAt.value, TimeOf(y))
    {
      LessTotal(TimeOf(y), TimeOf(x));
      LessTotal(TimeOf(x), f.firstObservedAt.value);
      LessTotal(TimeOf(x), f.lastObservedAt.value);
      if Less(TimeOf(y), TimeOf(x)) && Less(TimeOf(x), f.firstObservedAt.value) {
        LessTransitive(TimeOf(y), TimeOf(x), f.firstObservedAt.value);
      }
      if Less(TimeOf(x), TimeOf(y)) && Less(f.lastObservedAt.value, TimeOf(x)) {
        LessTransitive(f.lastObservedAt.value, TimeOf(x), TimeOf(y));
      }
    }
  }

  lemma LaterOrder(x: Piece, y: Piece, z: Piece)
    ensures Later(x, y) && Later(y, z) ==> Later(x, z)
    ensures !Later(x, x) && !(Later(x, y) && Later(y, x))
    ensures Later(x, y) || Later(y, x) || (TimeOf(x) == TimeOf(y) && x.identity.eventId == y.identity.eventId)
  {
    var a, b, c := TimeOf(x), TimeOf(y), TimeOf(z);
    var i, j, k := x.identity.eventId, y.identity.eventId, z.identity.eventId;
    LessTotal(a, b);
    LessTotal(i, j);
    LessTotal(a, a);
    LessTotal(i, i);
    if Less(c, b) && Less(b, a) { LessTransitive(c, b, a); }
    if Less(k, j) && Less(j, i) { LessTransitive(k, j, i); }
  }

  /** The kept identity's time is the last time seen, so the source's test compares with it. */
  lemma NewestIsLatest(f: Finding, xs: set<Piece>, z: Piece, x: Piece)
    requires Extremes(f, xs) && Newest(z, xs) && f.identity == z.identity && TimeOf(z) != "" && TimeOf(x) != ""
    ensures IsNewest(f.lastObservedAt, f.identity, x.identity) <==> Later(x, z)
  {
    var b :| b in xs && TimeOf(b) == f.lastObservedAt.value;
    LessTotal(TimeOf(b), TimeOf(z));
    assert !Later(b, z);
  }

  lemma MergedKeepsNewest(f: Finding, xs: set<Piece>, x: Piece)
    requires Extremes(f, xs) && KeepsNewest(f, xs) && Consistent(xs) && TimeOf(x) != ""
    ensures KeepsNewest(Merged(f, x), xs + {x})
  {
    var z :| Newest(z, xs) && f.identity == z.identity && f.actor == z.actor;
    NewestIsLatest(f, xs, z, x);
    var w := if Later(x, z) then x else z;
    forall y | y in xs + {x}
      ensures !Later(y, w)
    {
      LaterOrder(y, x, z);
      LaterOrder(x, x, x);
    }
    assert Newest(w, xs + {x});
  }

  lemma BlankCollects(x: Piece)
    ensures Collects(Blank(x), {})
  {
    assert EventsOf({}) == {};
  }

  lemma FirstPlaces(x: Piece)
    requires TimeOf(x) != ""
    ensures Places(Merged(Blank(x), x), {x})
  {
    LessTotal(TimeOf(x), TimeOf(x));
    LaterOrder(x, x, x);
    assert x in {x} && Newest(x, {x});
  }

  lemma FirstSummarises(x: Piece)
    requires TimeOf(x) != ""
    ensures Summarises(Merged(Blank(x), x), {x})
  {
    FirstCollects(x);
    FirstPlaces(x);
  }

  lemma FirstCollects(x: Piece)
    ensures Collects(Merged(Blank(x), x), {x})
  {
    BlankCollects(x);
    MergedCollects(Blank(x), {}, x);
    CollectsSame(Merged(Blank(x), x), {} + {x}, {x});
  }

  lemma CollectsSame(f: Finding, xs: set<Piece>, ys: set<Piece>)
    requires Collects(f, xs) && xs == ys
    ensures Collects(f, ys)
  {
  }

  lemma MergedSummarises(f: Finding, xs: set<Piece>, x: Piece)
    requires Summarises(f, xs) && Names(f, {x}) && Consistent(xs) && TimeOf(x) != ""
    ensures Summarises(Merged(f, x), xs + {x})
  {
    MergedCollects(f, xs, x);
    MergedExtremes(f, xs, x);
    MergedKeepsNewest(f, xs, x);
    assert x in {x};
  }

  /** The entry of one fingerprint after a merge. */
  lemma NextSummarises(findings: map<Fingerprint, Finding>, xs: set<Piece>, x: Piece)
    requires Reports(findings, xs) && Consistent(xs + {x})
    ensures SUMMARY(Next(findings, x), OfKey(xs, KEY, KEY(x)) + {x})
  {
    var mine := OfKey(xs, KEY, x.key);
    ConsistentPart(xs, x);
    ReportAt(findings, xs, x.key);
    if x.key in findings {
      SameIndicator(findings[x.key], xs, x);
      MergedSummarises(findings[x.key], mine, x);
    } else {
      FirstSummarises(x);
      assert mine + {x} == {x};
    }
  }

  lemma ReportAt(findings: map<Fingerprint, Finding>, xs: set<Piece>, key: Fingerprint)
    requires Reports(findings, xs)
    ensures key in findings <==> OfKey(xs, KEY, key) != {}
    ensures key in findings ==> Summarises(findings[key], OfKey(xs, KEY, key))
  {
    assert key in findings ==> SUMMARY(findings[key], OfKey(xs, KEY, key));
  }

  /** Merging keeps the map a report of the pieces merged so far. */
  lemma MergeReports(findings: map<Fingerprint, Finding>, xs: set<Piece>, x: Piece)
    requires Reports(findings, xs) && Consistent(xs + {x})
    ensures Reports(Merge(findings, x), xs + {x})
  {
    NextSummarises(findings, xs, x);
    Update(findings, xs, KEY, SUMMARY, x, Next(findings, x));
  }

  lemma ConsistentPart(xs: set<Piece>, x: Piece)
    requires Consistent(xs + {x})
    ensures Consistent(xs) && Consistent(OfKey(xs, KEY, x.key)) && TimeOf(x) != ""
  {
    assert x in xs + {x};
  }

  lemma SameIndicator(f: Finding, xs: set<Piece>, x: Piece)
    requires Consistent(xs + {x}) && KeepsNewest(f, OfKey(xs, KEY, x.key)) && Names(f, OfKey(xs, KEY, x.key))
    ensures Names(f, {x})
  {
    var z :| Newest(z, OfKey(xs, KEY, x.key)) && f.identity == z.identity && f.actor == z.actor;
    assert z in xs + {x} && x in xs + {x};
  }

  /** The findings after merging a run of pieces. */
  function MergedAll(log: Log<Piece>): map<Fingerprint, Finding> {
    match log
    case Nothing => map[]
    case Then(before, x) => Merge(MergedAll(before), x)
  }

  /** Any run of pieces, in any order and with any repetitions, is reported. */
  lemma {:induction false} MergedAllReports(log: Log<Piece>)
    requires Consistent(Seen(log))
    ensures Reports(MergedAll(log), Seen(log))
  {
    if log.Then? {
      ConsistentPart(Seen(log.before), log.x);
      MergedAllReports(log.before);
      MergeReports(MergedAll(log.before), Seen(log.before), log.x);
    }
  }

  // ---------- The order of matches does not matter ----------

  lemma SameExtremes(f: Finding, g: Finding, xs: set<Piece>)
    requires Extremes(f, xs) && Extremes(g, xs)
    ensures f.firstObservedAt == g.firstObservedAt && f.lastObservedAt == g.lastObservedAt
  {
    LessTotal(f.firstObservedAt.value, g.firstObservedAt.value);
    LessTotal(f.lastObservedAt.value, g.lastObservedAt.value);
  }

  lemma SameNewest(f: Finding, g: Finding, xs: set<Piece>, key: Fingerprint)
    requires KeepsNewest(f, xs) && KeepsNewest(g, xs) && Consistent(xs) && (forall x :: x in xs ==> x.key == key)
    ensures f.identity == g.identity && f.actor == g.actor
  {
    var x :| Newest(x, xs) && f.identity == x.identity && f.actor == x.actor;
    var y :| Newest(y, xs) && g.identity == y.identity && g.actor == y.actor;
    LaterOrder(x, y, y);
  }

  lemma SameIndicatorOf(f: Finding, g: Finding, xs: set<Piece>)
    requires Names(f, xs) && Names(g, xs) && KeepsNewest(f, xs)
    ensures f.indicator == g.indicator
  {
    var x :| Newest(x, xs) && f.identity == x.identity && f.actor == x.actor;
  }

  /** The two maps hold the same finding, up to the order its evidence is listed in. */
  predicate Agree(a: map<Fingerprint, Finding>, b: map<Fingerprint, Finding>, key: Fingerprint) {
    (key in a <==> key in b) && (key in a ==> a[key].(evidence := b[key].evidence) == b[key])
  }

  lemma SummariesAgree(f: Finding, g: Finding, xs: set<Piece>, key: Fingerprint)
    requires Summarises(f, xs) && Summarises(g, xs) && Consistent(xs) && (forall x :: x in xs ==> x.key == key)
    ensures f.(evidence := g.evidence) == g
  {
    SameExtremes(f, g, xs);
    SameNewest(f, g, xs, key);
    SameIndicatorOf(f, g, xs);
  }

  lemma ReportsAgree(a: map<Fingerprint, Finding>, b: map<Fingerprint, Finding>, xs: set<Piece>, key: Fingerprint)
    requires Reports(a, xs) && Reports(b, xs) && Consistent(xs)
    ensures Agree(a, b, key)
  {
    ReportAt(a, xs, key);
    ReportAt(b, xs, key);
    if key in a { SummariesAgree(a[key], b[key], OfKey(xs, KEY, key), key); }
  }

  /** Two runs over the same pieces, however ordered and repeated, give the same findings. */
  lemma OrderIrrelevant(log: Log<Piece>, log': Log<Piece>, key: Fingerprint)
    requires Seen(log) == Seen(log') && Consistent(Seen(log))
    ensures Agree(MergedAll(log), MergedAll(log'), key)
  {
    MergedAllReports(log);
    MergedAllReports(log');
    ReportsAgree(MergedAll(log), MergedAll(log'), Seen(log), key);
  }
}
