/**
 What the threat-intelligence detector reports, spelled out on the columns of the event tables and on the hits of the
 feeds: which rows give which pieces, and what a finding says of its pieces.
 */
module IocMeaning {
  import opened Wrappers
  import opened Text
  import opened Identity
  import opened Grouped
  import opened IocMatch
  import opened IocMatchPass
  import Paging

  // ---------- What a finding says of its pieces ----------

  /** Those of the pieces that are reported under the key. */
  ghost function Mine(xs: set<Piece>, key: Fingerprint): set<Piece> {
    set x | x in xs && x.key == key
  }

  lemma MineSummarised(findings: map<Fingerprint, Finding>, xs: set<Piece>, key: Fingerprint)
    requires Reports(findings, xs)
    ensures key in findings <==> Mine(xs, key) != {}
    ensures key in findings ==> Summarises(findings[key], Mine(xs, key))
  {
    assert Mine(xs, key) == OfKey(xs, KEY, key);
    ReportAt(findings, xs, key);
  }

  /** There is a finding exactly for the keys with pieces. */
  lemma ReportedIff(findings: map<Fingerprint, Finding>, xs: set<Piece>, key: Fingerprint)
    requires Reports(findings, xs)
    ensures key in findings <==> exists x :: x in xs && x.key == key
  {
    MineSummarised(findings, xs, key);
    if x :| x in xs && x.key == key { assert x in Mine(xs, key); }
  }

  /** A hit is critical exactly if its severity says so or its category is one of two, in any case. */
  lemma SeverityIff(h: IocHit)
    ensures IsCritical(h) <==>
      || (h.severity.Some? && Upper(h.severity.value) == "CRITICAL")
      || (h.category.Some? && Lower(Trim(h.category.value)) in {"malware-c2", "cryptominer"})
  {
    assert Lower(Trim("")) == "";
  }

  /** A finding is critical exactly if some hit of some of its pieces is. */
  lemma CriticalIff(findings: map<Fingerprint, Finding>, xs: set<Piece>, key: Fingerprint)
    requires Reports(findings, xs) && key in findings
    ensures findings[key].critical <==> exists x, h :: x in Mine(xs, key) && h in x.hits && IsCritical(h)
  {
    MineUnions(findings, xs, key);
    AnyCriticalIff(findings[key], Mine(xs, key));
  }

  lemma MineUnions(findings: map<Fingerprint, Finding>, xs: set<Piece>, key: Fingerprint)
    requires Reports(findings, xs) && key in findings
    ensures Unions(findings[key], Mine(xs, key))
  {
    MineSummarised(findings, xs, key);
  }

  lemma AnyCriticalIff(f: Finding, mine: set<Piece>)
    requires Unions(f, mine)
    ensures f.critical <==> exists x, h :: x in mine && h in x.hits && IsCritical(h)
  {
    if x, h :| x in mine && h in x.hits && IsCritical(h) { assert AnyCritical(x.hits); }
  }

  /** The feeds and categories of a finding are those of its hits, its destinations those of its pieces. */
  lemma FindingLists(findings: map<Fingerprint, Finding>, xs: set<Piece>, key: Fingerprint, text: string)
    requires Reports(findings, xs) && key in findings
    ensures
      var f, mine := findings[key], Mine(xs, key);
      && (text in f.feeds <==> exists x, h :: x in mine && h in x.hits && h.feed == text)
      && (text in f.destinations <==> exists x :: x in mine && x.destination == text)
      && (text in f.categories <==>
            exists x, h ::
              x in mine && h in x.hits && h.category.Some? && Trim(h.category.value) != ""
              && Lower(Trim(h.category.value)) == text)
  {
    MineSummarised(findings, xs, key);
    FeedListed(findings[key], Mine(xs, key), text);
    CategoryListed(findings[key], Mine(xs, key), text);
  }

  lemma FeedListed(f: Finding, mine: set<Piece>, text: string)
    requires Unions(f, mine)
    ensures text in f.feeds <==> exists x, h :: x in mine && h in x.hits && h.feed == text
  {
    if x, h :| x in mine && h in x.hits && h.feed == text { assert text in FeedsOf(x.hits); }
  }

  lemma CategoryListed(f: Finding, mine: set<Piece>, text: string)
    requires Unions(f, mine)
    ensures text in f.categories <==>
      exists x, h ::
        x in mine && h in x.hits && h.category.Some? && Trim(h.category.value) != ""
        && Lower(Trim(h.category.value)) == text
  {
    assert Trim("") == "";
    if text in f.categories {
      var x :| x in mine && text in CategoriesOf(x.hits);
      var h :| h in x.hits && text in CategoryOf(h);
    }
    if x, h :|
      x in mine && h in x.hits && h.category.Some? && Trim(h.category.value) != ""
      && Lower(Trim(h.category.value)) == text
    {
      assert text in CategoryOf(h) && text in CategoriesOf(x.hits);
    }
  }

  /** Its evidence lists each event and each feed's entry once, and it counts the events. */
  lemma FindingCites(findings: map<Fingerprint, Finding>, xs: set<Piece>, key: Fingerprint, e: Item)
    requires Reports(findings, xs) && key in findings
    ensures
      var f, mine := findings[key], Mine(xs, key);
      && f.sourceEventCount == |set x | x in mine :: x.event|
      && (forall i, j :: 0 <= i < j < |f.evidence| ==> f.evidence[i] != f.evidence[j])
      && (e in f.evidence <==>
            match e
            case EventItem(event) => exists x :: x in mine && x.event == event
            case IocItem(ioc, feed) =>
              ioc == f.indicator && exists x, h :: x in mine && h in x.hits && h.feed == feed)
  {
    MineSummarised(findings, xs, key);
    EvidenceListed(findings[key], Mine(xs, key), e);
  }

  lemma EvidenceListed(f: Finding, mine: set<Piece>, e: Item)
    requires Unions(f, mine) && Names(f, mine)
    ensures e in f.seen <==>
      match e
      case EventItem(event) => exists x :: x in mine && x.event == event
      case IocItem(ioc, feed) => ioc == f.indicator && exists x, h :: x in mine && h in x.hits && h.feed == feed
  {
    assert e in f.seen <==> exists x :: x in mine && e in ItemsOf(x);
    match e
    case EventItem(event) =>
      if x :| x in mine && x.event == event { assert e in ItemsOf(x); }
    case IocItem(ioc, feed) =>
      if x, h :| ioc == f.indicator && x in mine && h in x.hits && h.feed == feed { assert e in ItemsOf(x); }
  }

  /** Its times are the first and last texts of its events' times, and its identity and actor those of a newest one. */
  lemma FindingPlaces(findings: map<Fingerprint, Finding>, xs: set<Piece>, key: Fingerprint)
    requires Reports(findings, xs) && key in findings
    ensures
      var f, mine := findings[key], Mine(xs, key);
      && (exists x :: x in mine && f.firstObservedAt == Some(x.identity.observedAt.GetOr("")))
      && (exists x :: x in mine && f.lastObservedAt == Some(x.identity.observedAt.GetOr("")))
      && forall x :: x in mine ==>
           !Less(x.identity.observedAt.GetOr(""), f.firstObservedAt.GetOr(""))
           && !Less(f.lastObservedAt.GetOr(""), x.identity.observedAt.GetOr(""))
    ensures exists x ::
      && x in Mine(xs, key) && findings[key].identity == x.identity && findings[key].actor == x.actor
      && forall y :: y in Mine(xs, key) ==>
           var t, u := x.identity.observedAt.GetOr(""), y.identity.observedAt.GetOr("");
           Less(u, t) || (t == u && !Less(x.identity.eventId, y.identity.eventId))
  {
    MineSummarised(findings, xs, key);
    PlacesSpelt(findings[key], Mine(xs, key));
    NewestSpelt(findings[key], Mine(xs, key));
  }

  lemma PlacesSpelt(f: Finding, mine: set<Piece>)
    requires Extremes(f, mine)
    ensures exists x :: x in mine && f.firstObservedAt == Some(x.identity.observedAt.GetOr(""))
    ensures exists x :: x in mine && f.lastObservedAt == Some(x.identity.observedAt.GetOr(""))
    ensures forall x :: x in mine ==>
      !Less(x.identity.observedAt.GetOr(""), f.firstObservedAt.GetOr(""))
      && !Less(f.lastObservedAt.GetOr(""), x.identity.observedAt.GetOr(""))
  {
    var a :| a in mine && TimeOf(a) == f.firstObservedAt.value;
    var b :| b in mine && TimeOf(b) == f.lastObservedAt.value;
    forall x | x in mine
      ensures !Less(TimeOf(x), f.firstObservedAt.value) && !Less(f.lastObservedAt.value, TimeOf(x))
    {
    }
  }

  lemma NewestSpelt(f: Finding, mine: set<Piece>)
    requires KeepsNewest(f, mine)
    ensures exists x ::
      && x in mine && f.identity == x.identity && f.actor == x.actor
      && forall y :: y in mine ==>
           var t, u := x.identity.observedAt.GetOr(""), y.identity.observedAt.GetOr("");
           Less(u, t) || (t == u && !Less(x.identity.eventId, y.identity.eventId))
  {
    var x :| Newest(x, mine) && f.identity == x.identity && f.actor == x.actor;
    forall y | y in mine
      ensures Less(TimeOf(y), TimeOf(x)) || (TimeOf(x) == TimeOf(y) && !Less(x.identity.eventId, y.identity.eventId))
    {
      assert !Later(y, x);
      LessTotal(TimeOf(x), TimeOf(y));
    }
  }

  // ---------- Which rows give which pieces ----------

  lemma {:induction false} HitsHold(reader: IndicatorReader, hits: seq<IocHit>, value: string, h: IocHit)
    ensures h in HitsFor(reader, hits, value) <==> h in hits && reader(h) == Some(value)
  {
    if hits != [] {
      HitsHold(reader, hits[..|hits| - 1], value, h);
      assert hits == hits[..|hits| - 1] + [hits[|hits| - 1]];
    }
  }

  lemma {:induction false} PiecesInIff<T(!new)>(of: RowReading<T>, rows: seq<T>, x: Piece)
    ensures x in PiecesIn(of, rows) <==> exists row :: row in rows && x in of(row)
  {
    if rows != [] {
      PiecesInIff(of, rows[..|rows| - 1], x);
      assert rows == rows[..|rows| - 1] + [rows[|rows| - 1]];
    }
  }

  lemma InTableIff<T(!new)>(of: RowReading<T>, rows: seq<T>, cond: T -> bool, x: Piece)
    ensures x in PiecesIn(of, Paging.Where(rows, cond)) <==> exists row :: row in rows && cond(row) && x in of(row)
  {
    PiecesInIff(of, Paging.Where(rows, cond), x);
  }

  lemma FlowPiecesIff(p: Platform, db: Snapshot, beginTime: int, endTime: int, x: Piece)
    ensures x in PiecesIn(RowReader(p, FlowSource(p, db.lookupIp)), FlowsIn(db, beginTime, endTime)) <==>
      exists f ::
        f in db.flows && beginTime <= f.occurredAt <= endTime && f.dstIp.Some?
        && x in RowPieces(p, FlowSource(p, db.lookupIp), f)
  {
    var of := RowReader(p, FlowSource(p, db.lookupIp));
    var cond := (f: Flow) => beginTime <= f.occurredAt <= endTime && f.dstIp.Some?;
    InTableIff(of, db.flows, cond, x);
    assert forall f :: of(f) == RowPieces(p, FlowSource(p, db.lookupIp), f);
  }

  lemma QueryPiecesIff(p: Platform, db: Snapshot, beginTime: int, endTime: int, x: Piece)
    ensures x in PiecesIn(RowReader(p, QuerySource(p, db.lookupDomain)), QueriesIn(db, beginTime, endTime)) <==>
      exists q ::
        q in db.queries && beginTime <= q.queriedAt <= endTime && x in RowPieces(p, QuerySource(p, db.lookupDomain), q)
  {
    var of := RowReader(p, QuerySource(p, db.lookupDomain));
    var cond := (q: Query) => beginTime <= q.queriedAt <= endTime;
    InTableIff(of, db.queries, cond, x);
    assert forall q :: of(q) == RowPieces(p, QuerySource(p, db.lookupDomain), q);
  }

  /** The pieces of a match: one for each indicator that its hits of the right kind stand for. */
  lemma MatchPieceIff(p: Platform, m: Match, x: Piece)
    ensures x in PiecesOf(p, m) <==>
      x == PieceOf(p, m, x.indicator) && exists h :: h in m.hits && IndicatorOf(p, m.kind, h) == Some(x.indicator)
    ensures x in PiecesOf(p, m) ==>
      && x.identity == m.identity && x.actor == m.actor && x.destination == m.destination && x.event == m.event
      && forall h :: h in x.hits <==> h in m.hits && IndicatorOf(p, m.kind, h) == Some(x.indicator)
  {
    var reader := ReaderOf(p, m.kind);
    if h :| h in m.hits && IndicatorOf(p, m.kind, h) == Some(x.indicator) {
      assert reader(h).value in Indicators(reader, m.hits);
    }
    if x in PiecesOf(p, m) {
      forall h
        ensures h in x.hits <==> h in m.hits && IndicatorOf(p, m.kind, h) == Some(x.indicator)
      {
        HitsHold(reader, m.hits, x.indicator, h);
      }
    }
  }

  /** The indicator of a hit: a canonical address, or a domain in lower case without a final dot, of its own kind. */
  lemma IndicatorSpelt(p: Platform, h: IocHit, v: string)
    ensures IndicatorOf(p, Ip, h) == Some(v) <==> h.kind == Ip && v != "" && NormalizeIp(p, Some(h.value)) == Some(v)
    ensures IndicatorOf(p, Domain, h) == Some(v) <==>
      h.kind == Domain && v != ""
      && (Lower(Trim(h.value)) == v + "." || (Lower(Trim(h.value)) == v && v[|v| - 1] != '.'))
  {
    var d := Lower(Trim(h.value));
    assert d != "" ==> d == d[..|d| - 1] + [d[|d| - 1]];
    assert (v + ".")[..|v|] == v;
  }

  /** The key of a piece names the detector, the source's scope, the device and the indicator with its kind. */
  lemma PieceKey(p: Platform, m: Match, v: string)
    ensures
      var id := m.identity;
      PieceOf(p, m, v).key ==
        Fingerprint(
          "ioc_match",
          ScopeKey(
            id.sourceKind, id.connectionId, id.scopeId,
            if id.connectionId == None || (id.sourceKind == Unifi && id.scopeId == None) then Some(id.eventId)
            else None),
          if id.srcMac.Some? then ByMac(id.srcMac.value) else if id.srcIp.Some? then ByIp(id.srcIp.value)
          else ByEvent(id.eventId),
          Some((if m.kind == Ip then "ip:" else "domain:") + v))
  {
  }

  /** What a flow contributes: the hits of its destination, looked up as it is written but for case and white space. */
  lemma FlowRow(p: Platform, lookup: string -> seq<IocHit>, f: Flow, x: Piece)
    requires Nonempty(Some(f.id)) == Some(f.id) && f.dstIp.Some?
    ensures
      var mac, ip := NormalizeMac(f.srcMac).GetOr(""), NormalizeIp(p, f.srcIp).GetOr("");
      var name := if f.srcClientName.Some? then Trim(f.srcClientName.value) else "";
      x in RowPieces(p, FlowSource(p, lookup), f) <==>
        && NormalizeIp(p, f.dstIp).Some?
        && x in PiecesOf(
                  p,
                  Match(
                    DetectorIdentity(
                      Unifi, Nonempty(Some(f.connectionId)), Nonempty(f.scopeId), NormalizeIp(p, f.srcIp),
                      NormalizeMac(f.srcMac), f.id, Some(p.Iso(f.occurredAt))),
                    if name != "" then name else if mac != "" then mac else if ip != "" then ip else "Unknown device",
                    NormalizeIp(p, f.dstIp).value, Ip, lookup(Lower(Trim(f.dstIp.value))), FlowEvent(f.id)))
  {
    assert Trim("") == "";
  }

  /** What a DNS query contributes: the hits of the domain asked for. */
  lemma QueryRow(p: Platform, lookup: string -> seq<IocHit>, q: Query, x: Piece)
    requires Nonempty(Some(q.id)) == Some(q.id)
    ensures
      var ip := NormalizeIp(p, q.clientIp).GetOr("");
      var name := if q.clientName.Some? then Trim(q.clientName.value) else "";
      x in RowPieces(p, QuerySource(p, lookup), q) <==>
        && NormalizeDomain(q.domain) != ""
        && x in PiecesOf(
                  p,
                  Match(
                    DetectorIdentity(
                      Adguard, Nonempty(Some(q.connectionId)), None, NormalizeIp(p, q.clientIp), None, q.id,
                      Some(p.Iso(q.queriedAt))),
                    if name != "" then name else if ip != "" then ip else "Unknown client",
                    NormalizeDomain(q.domain), Domain, lookup(NormalizeDomain(q.domain)), QueryEvent(q.id)))
  {
    assert Trim("") == "" && NormalizeMac(None) == None && Nonempty(None) == None;
  }
}
