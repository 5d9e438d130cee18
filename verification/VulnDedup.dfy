/**
 De-duplication of vulnerability findings (backend/src/services/testProcessor.ts, createVulnerabilities):
 one step per finding, over a table an operator may edit in between.
 */
module VulnDedup {
  import opened Wrappers
  import opened Text
  import opened Endpoints

  // ---------- Records and findings ----------

  datatype Kind = IsolationBreach | PolicyOpening | OtherKind(name: string)

  datatype Severity = Critical | High | Medium | Low | Info

  datatype Status = Open | Acknowledged | Fixed | FalsePositive

  /** The two automatic notes, and any other text. */
  datatype Note = AutoAcknowledged | AutoDeduplicated | Text(s: string)

  datatype Record = Record(
    config: Option<string>, kind: Kind, severity: Severity, title: string, description: string,
    resource: Option<string>, status: Status, notes: Option<Note>)

  datatype Finding = Finding(kind: Kind, severity: Severity, title: string, description: string,
      resource: Option<string>)

  type Table = map<nat, Record>

  /** The source host named by a title or description, kept abstract. */
  type Extractor = (string, string) -> Option<string>

  predicate IsNetwork(kind: Kind) {
    kind.IsolationBreach? || kind.PolicyOpening?
  }

  predicate Live(r: Record) {
    r.status == Open || r.status == Acknowledged
  }

  predicate InConfig(config: Option<string>, r: Record) {
    config.None? || r.config == config
  }

  /** `!notes`: null or empty. */
  predicate NoNote(notes: Option<Note>) {
    notes.None? || notes.value == Text("")
  }

  const OPENING_PREFIX := "Potential Firewall Opening:"
  const EXPECTS_BLOCKED := "Intent expects this path blocked"
  const EXPLICITLY_ALLOWS := "explicitly allows"

  predicate AutoAcknowledge(f: Finding) {
    f.kind.PolicyOpening? || OPENING_PREFIX <= f.title
    || (f.severity == Low && Includes(f.description, EXPECTS_BLOCKED) && Includes(f.description, EXPLICITLY_ALLOWS))
  }

  /** The endpoint a network finding or record is about. */
  function EndpointIn(kind: Kind, resource: Option<string>): Option<string> {
    if IsNetwork(kind) then EndpointOf(resource) else None
  }

  // ---------- One finding ----------

  /** Live network records, within the configuration if there is one, whose resource contains the endpoint. */
  predicate InScope(config: Option<string>, e: string, r: Record) {
    InConfig(config, r) && IsNetwork(r.kind) && Live(r) && r.resource.Some? && Includes(r.resource.value, e)
  }

  predicate SameFinding(config: Option<string>, f: Finding, r: Record) {
    InConfig(config, r) && r.kind == f.kind && Live(r) && (f.resource.None? || r.resource == f.resource)
  }

  ghost predicate SomeInScope(x: Extractor, t: Table, config: Option<string>, e: string, source: Option<string>) {
    exists j :: j in t && InScope(config, e, t[j]) && SourceOf(x, t[j]) == source
  }

  /** The record of the exact source is preferred, then one of unknown source, then any. */
  ghost predicate Preferred(
    x: Extractor, t: Table, config: Option<string>, e: string, source: Option<string>, id: nat) {
    && id in t && InScope(config, e, t[id])
    && (if source.Some? && SomeInScope(x, t, config, e, source) then SourceOf(x, t[id]) == source
        else SomeInScope(x, t, config, e, None) ==> SourceOf(x, t[id]) == None)
  }

  function SourceOf(x: Extractor, r: Record): Option<string> {
    x(r.title, r.description)
  }

  /** What findExistingVulnerability may return, whichever order the database lists candidates in. */
  ghost predicate MayFind(x: Extractor, t: Table, config: Option<string>, f: Finding, found: Option<nat>) {
    var e := EndpointIn(f.kind, f.resource);
    if e.Some? && exists j :: j in t && InScope(config, e.value, t[j]) then
      found.Some? && Preferred(x, t, config, e.value, x(f.title, f.description), found.value)
    else if found.Some? then found.value in t && SameFinding(config, f, t[found.value])
    else forall j :: j in t ==> !SameFinding(config, f, t[j])
  }

  function Refreshed(r: Record, config: Option<string>, f: Finding): Record {
    var wasAuto := r.status == Acknowledged && r.notes == Some(AutoAcknowledged);
    Record(
      config, r.kind, f.severity, f.title, f.description, r.resource,
      if AutoAcknowledge(f) then Acknowledged else if wasAuto then Open else r.status,
      if AutoAcknowledge(f) then if NoNote(r.notes) then Some(AutoAcknowledged) else r.notes
      else if r.notes == Some(AutoAcknowledged) then None
      else r.notes)
  }

  function Created(config: Option<string>, f: Finding): Record {
    Record(config, f.kind, f.severity, f.title, f.description, f.resource,
           if AutoAcknowledge(f) then Acknowledged else Open,
           if AutoAcknowledge(f) then Some(AutoAcknowledged) else None)
  }

  /** Sources agree, or one of them is unknown. */
  predicate SourcesMatch(a: Option<string>, b: Option<string>) {
    a.None? || b.None? || a == b
  }

  predicate Duplicate(x: Extractor, config: Option<string>, f: Finding, keeper: nat, id: nat, r: Record) {
    var e := EndpointIn(f.kind, f.resource);
    id != keeper && e.Some? && InScope(config, e.value, r) && SourcesMatch(x(f.title, f.description), SourceOf(x, r))
  }

  function Deduplicated(r: Record): Record {
    r.(status := Acknowledged,
       notes := if NoNote(r.notes) || r.notes == Some(AutoDeduplicated) then Some(AutoDeduplicated) else r.notes)
  }

  /** The other live records of the endpoint are acknowledged as duplicates of the keeper. */
  function Collapse(x: Extractor, t: Table, config: Option<string>, f: Finding, keeper: nat): Table {
    map id | id in t :: if Duplicate(x, config, f, keeper, id, t[id]) then Deduplicated(t[id]) else t[id]
  }

  /** The table right after the finding was stored, and the record that now holds it. */
  ghost predicate Stored(x: Extractor, t: Table, config: Option<string>, f: Finding, u: Table, keeper: nat) {
    || (MayFind(x, t, config, f, Some(keeper)) && keeper in t && u == t[keeper := Refreshed(t[keeper], config, f)])
    || (MayFind(x, t, config, f, None) && keeper !in t && u == t[keeper := Created(config, f)])
  }

  /** One finding processed; which record is picked among equals is left open. */
  ghost predicate Processed(x: Extractor, t: Table, config: Option<string>, f: Finding, t': Table) {
    exists u, keeper :: Stored(x, t, config, f, u, keeper) && t' == Collapse(x, u, config, f, keeper)
  }

  // ---------- Runs ----------

  /** A finding of a batch of some configuration, or an operator's edit. */
  datatype Step = Process(config: Option<string>, f: Finding) | Edit(id: nat, status: Status, notes: Option<Note>)

  ghost predicate Next(x: Extractor, t: Table, s: Step, t': Table) {
    match s
    case Process(config, f) => Processed(x, t, config, f, t')
    case Edit(id, status, notes) => id in t && t' == t[id := t[id].(status := status, notes := notes)]
  }

  ghost predicate Run(x: Extractor, steps: seq<Step>, tables: seq<Table>) {
    |tables| == |steps| + 1 && tables[0] == map[] && forall i :: 0 <= i < |steps| ==>
      Next(x, tables[i], steps[i], tables[i + 1])
  }

  // ---------- At most one open record per configuration, endpoint and source ----------

  function RecordEndpoint(r: Record): Option<string> {
    EndpointIn(r.kind, r.resource)
  }

  predicate SameEndpoint(r: Record, q: Record) {
    RecordEndpoint(r).Some? && RecordEndpoint(r) == RecordEndpoint(q) && r.config == q.config
  }

  predicate Twins(x: Extractor, r: Record, q: Record) {
    r.status == Open && q.status == Open && SameEndpoint(r, q) && SourceOf(x, r) == SourceOf(x, q)
  }

  ghost predicate Unique(x: Extractor, t: Table) {
    forall a, b :: a in t && b in t && a != b ==> !Twins(x, t[a], t[b])
  }

  // ----- Batches that all carry a configuration, or none of which does -----

  /** Stronger: at most one live record per configuration and endpoint, whatever its source. */
  ghost predicate LiveUnique(t: Table) {
    forall a, b :: a in t && b in t && a != b ==> !(Live(t[a]) && Live(t[b]) && SameEndpoint(t[a], t[b]))
  }

  predicate Configured(withConfig: bool, config: Option<string>) {
    config.Some? == withConfig
  }

  ghost predicate AllConfigured(withConfig: bool, t: Table) {
    forall a :: a in t ==> Configured(withConfig, t[a].config)
  }

  /** Every batch has a configuration, or none has; operators do not bring closed records back. */
  ghost predicate Steady(withConfig: bool, t: Table, s: Step) {
    match s
    case Process(config, f) => Configured(withConfig, config)
    case Edit(id, status, notes) => id in t && (status == Open || status == Acknowledged ==> Live(t[id]))
  }

  /** Collapsing changes status and notes only, and keeps live records live. */
  lemma CollapseKeeps(x: Extractor, u: Table, config: Option<string>, f: Finding, keeper: nat, id: nat)
    requires id in u
    ensures id in Collapse(x, u, config, f, keeper)
    ensures
      var r := Collapse(x, u, config, f, keeper)[id];
      r.(status := u[id].status, notes := u[id].notes) == u[id] && Live(r) == Live(u[id])
  {
  }

  lemma RefreshKeepsLive(r: Record, config: Option<string>, f: Finding)
    ensures Live(r) ==> Live(Refreshed(r, config, f))
    ensures RecordEndpoint(Refreshed(r, config, f)) == RecordEndpoint(r) && Refreshed(r, config, f).config == config
  {
  }

  lemma StoredIsLive(x: Extractor, t: Table, config: Option<string>, f: Finding, keeper: nat)
    requires MayFind(x, t, config, f, Some(keeper))
    ensures keeper in t && Live(t[keeper]) && InConfig(config, t[keeper])
  {
  }

  /** A new record's endpoint is not that of any live record in reach. */
  lemma CreatedIsNew(x: Extractor, t: Table, config: Option<string>, f: Finding, id: nat)
    requires MayFind(x, t, config, f, None) && id in t && Live(t[id]) && InConfig(config, t[id])
    ensures !(RecordEndpoint(t[id]).Some? && RecordEndpoint(t[id]) == EndpointIn(f.kind, f.resource))
  {
    if RecordEndpoint(t[id]).Some? { ContainsOwnEndpoint(t[id].resource); }
  }

  lemma StoreKeepsLiveUnique(
    x: Extractor, withConfig: bool, t: Table, config: Option<string>, f: Finding, u: Table, keeper: nat)
    requires LiveUnique(t) && AllConfigured(withConfig, t) && Configured(withConfig, config)
      && Stored(x, t, config, f, u, keeper)
    ensures LiveUnique(u) && AllConfigured(withConfig, u)
  {
    forall a, b | a in u && b in u && a != b
      ensures !(Live(u[a]) && Live(u[b]) && SameEndpoint(u[a], u[b]))
    {
      if keeper in t && MayFind(x, t, config, f, Some(keeper)) {
        StoredIsLive(x, t, config, f, keeper);
        RefreshKeepsLive(t[keeper], config, f);
        assert t[keeper].config == config;
      } else {
        var other := if a == keeper then b else a;
        if Live(u[other]) && InConfig(config, u[other]) { CreatedIsNew(x, t, config, f, other); }
      }
    }
  }

  lemma CollapseKeepsLiveUnique(
    x: Extractor, withConfig: bool, u: Table, config: Option<string>, f: Finding, keeper: nat)
    requires LiveUnique(u) && AllConfigured(withConfig, u)
    ensures LiveUnique(Collapse(x, u, config, f, keeper))
      && AllConfigured(withConfig, Collapse(x, u, config, f, keeper))
  {
    var t := Collapse(x, u, config, f, keeper);
    forall a, b | a in t && b in t && a != b
      ensures !(Live(t[a]) && Live(t[b]) && SameEndpoint(t[a], t[b]))
    {
      CollapseKeeps(x, u, config, f, keeper, a);
      CollapseKeeps(x, u, config, f, keeper, b);
    }
  }

  lemma SteadyStep(x: Extractor, withConfig: bool, t: Table, s: Step, t': Table)
    requires LiveUnique(t) && AllConfigured(withConfig, t) && Steady(withConfig, t, s) && Next(x, t, s, t')
    ensures LiveUnique(t') && AllConfigured(withConfig, t')
  {
    if s.Process? {
      var u, keeper :| Stored(x, t, s.config, s.f, u, keeper) && t' == Collapse(x, u, s.config, s.f, keeper);
      StoreKeepsLiveUnique(x, withConfig, t, s.config, s.f, u, keeper);
      CollapseKeepsLiveUnique(x, withConfig, u, s.config, s.f, keeper);
    }
  }

  lemma LiveUniqueIsUnique(x: Extractor, t: Table)
    requires LiveUnique(t)
    ensures Unique(x, t)
  {
  }

  /** Over any such run there is at most one live record per configuration and endpoint. */
  lemma {:induction false} SteadyRunsStayUnique(
    x: Extractor, withConfig: bool, steps: seq<Step>, tables: seq<Table>, n: nat)
    requires Run(x, steps, tables) && n <= |steps|
    requires forall i :: 0 <= i < |steps| ==> Steady(withConfig, tables[i], steps[i])
    ensures LiveUnique(tables[n]) && AllConfigured(withConfig, tables[n]) && Unique(x, tables[n])
  {
    if n > 0 {
      SteadyRunsStayUnique(x, withConfig, steps, tables, n - 1);
      SteadyStep(x, withConfig, tables[n - 1], steps[n - 1], tables[n]);
    }
    LiveUniqueIsUnique(x, tables[n]);
  }

  // ----- Batches with and without a configuration mixed -----

  /** R and P name one endpoint, but R also mentions another, Q's, and P does not. */
  predicate Confused(r: string, p: string, q: string) {
    var d, e := EndpointOf(Some(r)), EndpointOf(Some(q));
    d.Some? && EndpointOf(Some(p)) == d && e.Some? && Includes(r, e.value) && !Includes(p, e.value)
  }

  /** Resources naming one endpoint mention the same endpoints of the pool. */
  ghost predicate Alike(pool: set<string>) {
    forall r, p, q :: r in pool && p in pool && q in pool ==> !Confused(r, p, q)
  }

  /** Network findings name resources of the pool; operators do not reopen records. */
  ghost predicate Pooled(pool: set<string>, t: Table, s: Step) {
    match s
    case Process(config, f) => IsNetwork(f.kind) ==> f.resource.Some? && f.resource.value in pool
    case Edit(id, status, notes) => id in t && (status == Open ==> t[id].status == Open)
  }

  ghost predicate AllPooled(pool: set<string>, t: Table) {
    forall a :: a in t && IsNetwork(t[a].kind) ==> t[a].resource.Some? && t[a].resource.value in pool
  }

  /** A refreshed record that names an endpoint was found through the finding's endpoint. */
  lemma FoundThroughEndpoint(x: Extractor, t: Table, config: Option<string>, f: Finding, k: nat)
    requires MayFind(x, t, config, f, Some(k)) && RecordEndpoint(t[k]).Some?
    requires IsNetwork(f.kind) ==> f.resource.Some?
    ensures EndpointIn(f.kind, f.resource).Some?
    ensures Includes(t[k].resource.value, EndpointIn(f.kind, f.resource).value)
  {
    if EndpointIn(f.kind, f.resource).Some? { ContainsOwnEndpoint(f.resource); }
  }

  /** So does any open record of that endpoint, which makes it a duplicate if the source agrees. */
  lemma OtherIsDuplicate(
    x: Extractor, pool: set<string>, config: Option<string>, f: Finding, k: Record, keeper: nat, id: nat,
    r: Record)
    requires Alike(pool) && f.resource.Some? && f.resource.value in pool && k.resource.Some? && k.resource.value in pool
    requires r.resource.Some? && r.resource.value in pool && EndpointIn(f.kind, f.resource).Some?
    requires Includes(k.resource.value, EndpointIn(f.kind, f.resource).value)
    requires RecordEndpoint(k).Some? && RecordEndpoint(r) == RecordEndpoint(k)
    requires id != keeper && r.status == Open && r.config == config && x(f.title, f.description) == SourceOf(x, r)
    ensures Duplicate(x, config, f, keeper, id, r)
  {
    assert !Confused(k.resource.value, r.resource.value, f.resource.value);
  }

  lemma KeeperHasNoTwin(
    x: Extractor, pool: set<string>, t: Table, config: Option<string>, f: Finding, u: Table, keeper: nat, b: nat)
    requires Alike(pool) && AllPooled(pool, t) && Stored(x, t, config, f, u, keeper) && b in u && b != keeper
    requires IsNetwork(f.kind) ==> f.resource.Some? && f.resource.value in pool
    ensures
      var t' := Collapse(x, u, config, f, keeper);
      !Twins(x, t'[keeper], t'[b]) && !Twins(x, t'[b], t'[keeper])
  {
    var t' := Collapse(x, u, config, f, keeper);
    if Twins(x, t'[keeper], t'[b]) || Twins(x, t'[b], t'[keeper]) {
      assert !Duplicate(x, config, f, keeper, b, u[b]) && u[b] == t[b];
      if keeper in t && MayFind(x, t, config, f, Some(keeper)) {
        FoundThroughEndpoint(x, t, config, f, keeper);
        OtherIsDuplicate(x, pool, config, f, t[keeper], keeper, b, t[b]);
      } else {
        CreatedIsNew(x, t, config, f, b);
      }
      assert false;
    }
  }

  /** Records other than the keeper do not become twins. */
  lemma BystandersHaveNoTwin(
    x: Extractor, t: Table, config: Option<string>, f: Finding, u: Table, keeper: nat, a: nat, b: nat)
    requires Unique(x, t) && Stored(x, t, config, f, u, keeper) && a in u && b in u && a != b && a != keeper
      && b != keeper
    ensures
      var t' := Collapse(x, u, config, f, keeper);
      !Twins(x, t'[a], t'[b])
  {
    var t' := Collapse(x, u, config, f, keeper);
    assert u[a] == t[a] && u[b] == t[b];
    assert t'[a].status == Open ==> t'[a] == t[a];
    assert t'[b].status == Open ==> t'[b] == t[b];
    assert !Twins(x, t[a], t[b]);
  }

  lemma ProcessedStaysUnique(
    x: Extractor, pool: set<string>, t: Table, config: Option<string>, f: Finding, u: Table, keeper: nat)
    requires Alike(pool) && Unique(x, t) && AllPooled(pool, t) && Stored(x, t, config, f, u, keeper)
    requires IsNetwork(f.kind) ==> f.resource.Some? && f.resource.value in pool
    ensures Unique(x, Collapse(x, u, config, f, keeper))
  {
    var t' := Collapse(x, u, config, f, keeper);
    forall a, b | a in t' && b in t' && a != b
      ensures !Twins(x, t'[a], t'[b])
    {
      if a == keeper {
        KeeperHasNoTwin(x, pool, t, config, f, u, keeper, b);
      } else if b == keeper {
        KeeperHasNoTwin(x, pool, t, config, f, u, keeper, a);
      } else {
        BystandersHaveNoTwin(x, t, config, f, u, keeper, a, b);
      }
    }
  }

  lemma MixedStep(x: Extractor, pool: set<string>, t: Table, s: Step, t': Table)
    requires Alike(pool) && Unique(x, t) && AllPooled(pool, t) && Pooled(pool, t, s) && Next(x, t, s, t')
    ensures Unique(x, t') && AllPooled(pool, t')
  {
    if s.Process? {
      var u, keeper :| Stored(x, t, s.config, s.f, u, keeper) && t' == Collapse(x, u, s.config, s.f, keeper);
      StoredPooled(x, pool, t, s.config, s.f, u, keeper);
      ProcessedStaysUnique(x, pool, t, s.config, s.f, u, keeper);
    } else {
      EditStaysUnique(x, t, s, t');
    }
  }

  lemma EditStaysUnique(x: Extractor, t: Table, s: Step, t': Table)
    requires Unique(x, t) && s.Edit? && Next(x, t, s, t') && (s.status == Open ==> t[s.id].status == Open)
    ensures Unique(x, t')
  {
    forall a, b | a in t' && b in t' && a != b
      ensures !Twins(x, t'[a], t'[b])
    {
      assert !Twins(x, t[a], t[b]);
    }
  }

  lemma StoredPooled(
    x: Extractor, pool: set<string>, t: Table, config: Option<string>, f: Finding, u: Table, keeper: nat)
    requires AllPooled(pool, t) && Stored(x, t, config, f, u, keeper)
    requires IsNetwork(f.kind) ==> f.resource.Some? && f.resource.value in pool
    ensures AllPooled(pool, u) && AllPooled(pool, Collapse(x, u, config, f, keeper))
  {
    var t' := Collapse(x, u, config, f, keeper);
    forall a | a in u
      ensures t'[a].kind == u[a].kind && t'[a].resource == u[a].resource
    {
      CollapseKeeps(x, u, config, f, keeper, a);
    }
  }

  ghost predicate PooledRun(x: Extractor, pool: set<string>, steps: seq<Step>, tables: seq<Table>) {
    Run(x, steps, tables) && forall i :: 0 <= i < |steps| ==> Pooled(pool, tables[i], steps[i])
  }

  /** Over any run on a pool of resources that are alike there are never two open records alike. */
  lemma {:induction false} MixedRunStaysUnique(
    x: Extractor, pool: set<string>, steps: seq<Step>, tables: seq<Table>, n: nat)
    requires Alike(pool) && PooledRun(x, pool, steps, tables) && n <= |steps|
    ensures Unique(x, tables[n]) && AllPooled(pool, tables[n])
  {
    if n > 0 {
      MixedRunStaysUnique(x, pool, steps, tables, n - 1);
      MixedStep(x, pool, tables[n - 1], steps[n - 1], tables[n]);
    }
  }

  // ----- A pool that is not alike does break it -----

  function Breach(title: string, description: string, resource: Option<string>): Finding {
    Finding(IsolationBreach, High, title, description, resource)
  }

  lemma BreachIsOpen(title: string, description: string, resource: Option<string>, config: Option<string>)
    requires !(OPENING_PREFIX <= title)
    ensures !AutoAcknowledge(Breach(title, description, resource))
    ensures Created(config, Breach(title, description, resource))
      == Record(config, IsolationBreach, High, title, description, resource, Open, None)
  {
  }

  /** With nothing in reach, a network finding with an endpoint becomes a new record and nothing else changes. */
  lemma CreateStep(x: Extractor, t: Table, config: Option<string>, f: Finding, id: nat)
    requires EndpointIn(f.kind, f.resource).Some? && id !in t
    requires forall j :: j in t ==> !InScope(config, EndpointIn(f.kind, f.resource).value, t[j])
    ensures Processed(x, t, config, f, t[id := Created(config, f)])
  {
    var u := t[id := Created(config, f)];
    ContainsOwnEndpoint(f.resource);
    assert forall j :: j in t ==> !SameFinding(config, f, t[j]);
    assert Stored(x, t, config, f, u, id);
    assert Collapse(x, u, config, f, id) == u;
  }

  /** With one record in reach, that record is refreshed and nothing else changes. */
  lemma RefreshStep(x: Extractor, t: Table, config: Option<string>, f: Finding, id: nat)
    requires EndpointIn(f.kind, f.resource).Some? && id in t
      && InScope(config, EndpointIn(f.kind, f.resource).value, t[id])
    requires forall j :: j in t && j != id ==> !InScope(config, EndpointIn(f.kind, f.resource).value, t[j])
    ensures Processed(x, t, config, f, t[id := Refreshed(t[id], config, f)])
  {
    var u := t[id := Refreshed(t[id], config, f)];
    assert MayFind(x, t, config, f, Some(id));
    assert Stored(x, t, config, f, u, id);
    assert Collapse(x, u, config, f, id) == u;
  }

  lemma RunOfThree(x: Extractor, s0: Step, s1: Step, s2: Step, t1: Table, t2: Table, t3: Table)
    requires Next(x, map[], s0, t1) && Next(x, t1, s1, t2) && Next(x, t2, s2, t3)
    ensures Run(x, [s0, s1, s2], [map[], t1, t2, t3])
  {
  }

  lemma TwoRecords(x: Extractor, c: string, f1: Finding, f2: Finding)
    requires EndpointIn(f1.kind, f1.resource).Some? && EndpointIn(f2.kind, f2.resource).Some?
    ensures Processed(x, map[], None, f1, map[0 := Created(None, f1)])
    ensures Processed(x, map[0 := Created(None, f1)], Some(c), f2,
      map[0 := Created(None, f1), 1 := Created(Some(c), f2)])
  {
    CreateStep(x, map[], None, f1, 0);
    CreateStep(x, map[0 := Created(None, f1)], Some(c), f2, 1);
  }

  lemma RelabelSecond(x: Extractor, r1: Record, r2: Record, f: Finding)
    requires EndpointIn(f.kind, f.resource).Some?
    requires !InScope(None, EndpointIn(f.kind, f.resource).value, r1)
      && InScope(None, EndpointIn(f.kind, f.resource).value, r2)
    ensures Processed(x, map[0 := r1, 1 := r2], None, f, map[0 := r1, 1 := Refreshed(r2, None, f)])
  {
    RefreshStep(x, map[0 := r1, 1 := r2], None, f, 1);
    assert map[0 := r1, 1 := r2][1 := Refreshed(r2, None, f)] == map[0 := r1, 1 := Refreshed(r2, None, f)];
  }

  /** Records 0 and 1 differ in configuration until a finding without one is matched to record 1. */
  lemma RelabelledTwins(x: Extractor, c: string, f1: Finding, f2: Finding, f3: Finding)
    requires !AutoAcknowledge(f1) && !AutoAcknowledge(f2) && !AutoAcknowledge(f3)
    requires IsNetwork(f1.kind) && IsNetwork(f2.kind) && EndpointOf(f1.resource).Some?
      && EndpointOf(f1.resource) == EndpointOf(f2.resource)
    requires x(f1.title, f1.description) == x(f3.title, f3.description)
    ensures Twins(x, Created(None, f1), Refreshed(Created(Some(c), f2), None, f3))
  {
  }

  /**
   If R and P name one endpoint and only R mentions Q's, three findings - P without, R with and Q again without
   a configuration - leave two open records of the same configuration, endpoint and source.
   */
  lemma ConfusedBreaks(
    x: Extractor, pool: set<string>, c: string, source: (string, string), r: string, p: string, q: string)
    returns (steps: seq<Step>, tables: seq<Table>)
    requires Confused(r, p, q) && r in pool && p in pool && q in pool && !(OPENING_PREFIX <= source.0)
    ensures PooledRun(x, pool, steps, tables) && |steps| == 3 && !Unique(x, tables[3])
    ensures steps[0] == Process(None, Breach(source.0, source.1, Some(p)))
    ensures steps[1] == Process(Some(c), Breach(source.0, source.1, Some(r)))
    ensures steps[2] == Process(None, Breach(source.0, source.1, Some(q)))
  {
    var f1 := Breach(source.0, source.1, Some(p));
    var f2 := Breach(source.0, source.1, Some(r));
    var f3 := Breach(source.0, source.1, Some(q));
    BreachIsOpen(source.0, source.1, Some(p), None);
    BreachIsOpen(source.0, source.1, Some(r), Some(c));
    BreachIsOpen(source.0, source.1, Some(q), None);
    RelabelledTwins(x, c, f1, f2, f3);
    TwoRecords(x, c, f1, f2);
    var r1, r2 := Created(None, f1), Created(Some(c), f2);
    RelabelSecond(x, r1, r2, f3);
    var t1, t2, t3 := map[0 := r1], map[0 := r1, 1 := r2], map[0 := r1, 1 := Refreshed(r2, None, f3)];
    steps, tables := [Process(None, f1), Process(Some(c), f2), Process(None, f3)], [map[], t1, t2, t3];
    RunOfThree(x, steps[0], steps[1], steps[2], t1, t2, t3);
    assert Twins(x, tables[3][0], tables[3][1]);
  }

  ghost predicate AllUnique(x: Extractor, tables: seq<Table>) {
    forall n :: 0 <= n < |tables| ==> Unique(x, tables[n])
  }

  /** Mixed runs over a pool never hold two open records alike exactly when the pool's resources are alike. */
  lemma MixedRunsStayUniqueIff(x: Extractor, pool: set<string>)
    ensures (forall steps, tables :: PooledRun(x, pool, steps, tables) ==> AllUnique(x, tables)) <==> Alike(pool)
  {
    if Alike(pool) {
      forall steps, tables | PooledRun(x, pool, steps, tables)
        ensures AllUnique(x, tables)
      {
        forall n | 0 <= n < |tables|
          ensures Unique(x, tables[n])
        {
          MixedRunStaysUnique(x, pool, steps, tables, n);
        }
      }
    } else {
      var r, p, q :| r in pool && p in pool && q in pool && Confused(r, p, q);
      var steps, tables := ConfusedBreaks(x, pool, "c", ("", ""), r, p, q);
      assert !AllUnique(x, tables);
    }
  }

  /** A path that spells out another target's endpoint is confused with one that does not. */
  lemma PathSpellsEndpoint(path: string, before: string, after: string, e: string, e': string, k: nat)
    requires IsEndpoint(e) && IsEndpoint(e') && k < |e'| && e'[k] !in path && e'[k] !in Bare(e)
    ensures Confused((before + e' + after) + Bare(e), path + Bare(e), path + Bare(e'))
  {
    var p, r, q := path + Bare(e), (before + e' + after) + Bare(e), path + Bare(e');
    NamedAtEnd(path, e);
    NamedAtEnd(before + e' + after, e);
    NamedAtEnd(path, e');
    assert r[|before|..|before| + |e'|] == e';
    assert OccursAt(r, e', |before|);
    IncludesOccurs(r, e');
    if Includes(p, e') { IncludesMember(p, e', k); }
  }

  /**
   A source network named after the address of another target is enough: "Lab 10.0.0.9" where h is "2" and k is "9".
   */
  lemma NetworkNamedLikeAnAddress(h: string, k: string)
    requires Numeric(h) && Numeric(k) && k[0] !in "10" && k[0] !in h
    ensures Confused(
      ("Lab " + ("10.0.0." + k) + " -> Guest ") + Bare("10.0.0." + h), "Lab -> Guest " + Bare("10.0.0." + h),
      "Lab -> Guest " + Bare("10.0.0." + k))
  {
    var e, e' := "10.0.0." + h, "10.0.0." + k;
    PrivateAddress(h);
    PrivateAddress(k);
    assert e'[7] == k[0];
    PathSpellsEndpoint("Lab -> Guest ", "Lab ", " -> Guest ", e, e', 7);
  }

  // ---------- Operators' notes ----------

  predicate OwnNote(r: Record) {
    r.notes.Some? && r.notes.value.Text? && r.notes.value.s != ""
  }

  predicate MentionsEndpoint(r: Record, e: string) {
    IsEndpoint(e) && r.resource.Some? && Includes(r.resource.value, e)
  }

  /** A finding of another kind can be matched to the record only through an endpoint its resource mentions. */
  ghost predicate OnlyOpenings(r: Record) {
    r.kind.PolicyOpening? && forall e :: !MentionsEndpoint(r, e)
  }

  /** Acknowledged, and annotated by anything but the automatic acknowledgement - or matched by nothing but openings. */
  ghost predicate Settled(r: Record) {
    r.status == Acknowledged && ((!NoNote(r.notes) && r.notes != Some(AutoAcknowledged)) || OnlyOpenings(r))
  }

  lemma FoundOpening(x: Extractor, t: Table, config: Option<string>, f: Finding, id: nat)
    requires MayFind(x, t, config, f, Some(id)) && OnlyOpenings(t[id])
    ensures AutoAcknowledge(f)
  {
    var e := EndpointIn(f.kind, f.resource);
    if e.Some? { assert !MentionsEndpoint(t[id], e.value); }
  }

  /** Automation keeps an operator's note, and never reopens a settled record. */
  lemma ProcessKeeps(x: Extractor, t: Table, config: Option<string>, f: Finding, t': Table, id: nat)
    requires Processed(x, t, config, f, t') && id in t
    ensures id in t' && (OwnNote(t[id]) ==> t'[id].notes == t[id].notes)
    ensures Settled(t[id]) ==> Settled(t'[id])
  {
    var u, keeper :| Stored(x, t, config, f, u, keeper) && t' == Collapse(x, u, config, f, keeper);
    if keeper == id && OnlyOpenings(t[id]) && MayFind(x, t, config, f, Some(keeper)) {
      FoundOpening(x, t, config, f, id);
    }
    assert forall e :: MentionsEndpoint(t'[id], e) == MentionsEndpoint(t[id], e);
  }

  ghost predicate Automatic(steps: seq<Step>) {
    forall i :: 0 <= i < |steps| ==> steps[i].Process?
  }

  ghost predicate Trace(x: Extractor, steps: seq<Step>, tables: seq<Table>) {
    |tables| == |steps| + 1 && forall i :: 0 <= i < |steps| ==> Next(x, tables[i], steps[i], tables[i + 1])
  }

  /**
   From any table on: a note of the operator's stays, and a settled record is
   never reopened, until the operator acts again.
   */
  lemma {:induction false} NotesSurvive(x: Extractor, steps: seq<Step>, tables: seq<Table>, id: nat, n: nat)
    requires Trace(x, steps, tables) && Automatic(steps) && id in tables[0] && n <= |steps|
    ensures id in tables[n] && (OwnNote(tables[0][id]) ==> tables[n][id].notes == tables[0][id].notes)
    ensures Settled(tables[0][id]) ==> Settled(tables[n][id])
  {
    if n > 0 {
      NotesSurvive(x, steps, tables, id, n - 1);
      ProcessKeeps(x, tables[n - 1], steps[n - 1].config, steps[n - 1].f, tables[n], id);
    }
  }

  /** Some run of automation alone reopens the record. */
  ghost predicate Reopenable(x: Extractor, r: Record) {
    exists steps, tables :: Trace(x, steps, tables) && Automatic(steps) && tables[0] == map[0 := r]
      && IsOpenAt(tables, 0)
  }

  predicate IsOpenAt(tables: seq<Table>, id: nat) {
    tables != [] && id in tables[|tables| - 1] && tables[|tables| - 1][id].status == Open
  }

  /** A finding that is matched to a lone record. */
  predicate Hits(f: Finding, r: Record) {
    if EndpointIn(f.kind, f.resource).Some? then InScope(None, EndpointIn(f.kind, f.resource).value, r)
    else SameFinding(None, f, r)
  }

  lemma LoneStep(x: Extractor, r: Record, f: Finding)
    requires Hits(f, r)
    ensures Processed(x, map[0 := r], None, f, map[0 := Refreshed(r, None, f)])
  {
    var t := map[0 := r];
    if EndpointIn(f.kind, f.resource).Some? {
      RefreshStep(x, t, None, f, 0);
    } else {
      var u := t[0 := Refreshed(r, None, f)];
      assert MayFind(x, t, None, f, Some(0));
      assert Stored(x, t, None, f, u, 0);
      assert Collapse(x, u, None, f, 0) == u;
    }
    assert t[0 := Refreshed(r, None, f)] == map[0 := Refreshed(r, None, f)];
  }

  /** A kind and resource through which a record that is not settled by kind can be matched by an ordinary finding. */
  lemma Reach(r: Record) returns (kind: Kind, resource: Option<string>)
    requires Live(r) && !OnlyOpenings(r)
    ensures !kind.PolicyOpening?
    ensures forall f: Finding :: f.kind == kind && f.resource == resource ==> Hits(f, r)
  {
    if r.kind.PolicyOpening? {
      var e :| MentionsEndpoint(r, e);
      kind, resource := IsolationBreach, Some(Bare(e));
      BareEndpoint(e);
    } else {
      kind, resource := r.kind, r.resource;
      if EndpointIn(kind, resource).Some? { ContainsOwnEndpoint(resource); }
    }
  }

  lemma Plain(kind: Kind, resource: Option<string>)
    requires !kind.PolicyOpening?
    ensures !AutoAcknowledge(Finding(kind, High, "", "", resource))
      && AutoAcknowledge(Finding(kind, High, OPENING_PREFIX, "", resource))
  {
  }

  lemma UnsettledReopens(x: Extractor, r: Record)
    requires r.status == Acknowledged && !Settled(r)
    ensures Reopenable(x, r)
  {
    var kind, resource := Reach(r);
    var quiet, loud := Finding(kind, High, OPENING_PREFIX, "", resource), Finding(kind, High, "", "", resource);
    Plain(kind, resource);
    var r1 := Refreshed(r, None, quiet);
    LoneStep(x, r, quiet);
    HitsAfter(r, quiet, loud);
    LoneStep(x, r1, loud);
    var steps, tables :=
      [Process(None, quiet), Process(None, loud)], [map[0 := r], map[0 := r1], map[0 := Refreshed(r1, None, loud)]];
    assert Trace(x, steps, tables) && IsOpenAt(tables, 0);
  }

  lemma HitsAfter(r: Record, f: Finding, g: Finding)
    requires Hits(f, r) && Hits(g, r)
    ensures Hits(g, Refreshed(r, None, f))
  {
  }

  /**
   An acknowledged record can be reopened by automation exactly when it is not settled. This is about the function and
   any findings it may be given; its producers give fewer: a breach is never titled as an opening, for one.
   */
  lemma ReopenableIffUnsettled(x: Extractor, r: Record)
    requires r.status == Acknowledged
    ensures Reopenable(x, r) <==> !Settled(r)
  {
    if Settled(r) {
      forall steps, tables | Trace(x, steps, tables) && Automatic(steps) && tables[0] == map[0 := r]
        ensures !IsOpenAt(tables, 0)
      {
        NotesSurvive(x, steps, tables, 0, |steps|);
      }
    } else {
      UnsettledReopens(x, r);
    }
  }
}
