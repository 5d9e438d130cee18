/**
 What processing one finding does to the table of vulnerabilities, spelled out: which record is kept, what it then
 shows, which other records are acknowledged as its duplicates, and what they then show.
 */
module VulnMeaning {
  import opened Wrappers
  import opened Text
  import opened Endpoints
  import opened VulnDedup
  import VulnRace

  /** The findings that are acknowledged on arrival. */
  lemma AutoAcknowledgeIff(f: Finding)
    ensures AutoAcknowledge(f) <==>
      || f.kind == PolicyOpening
      || "Potential Firewall Opening:" <= f.title
      || (f.severity == Low && Includes(f.description, "Intent expects this path blocked")
          && Includes(f.description, "explicitly allows"))
  {
    if "Potential Firewall Opening:" <= f.title { assert OPENING_PREFIX <= f.title; }
  }

  /**
   A record that is refreshed shows the finding's severity, title and description under the batch's configuration,
   and keeps its kind and resource. A finding acknowledged on arrival acknowledges it and leaves a note where there is
   none; any other takes such an acknowledgement and its note back.
   */
  lemma RefreshedShows(r: Record, config: Option<string>, f: Finding)
    ensures
      var q := Refreshed(r, config, f);
      && q.severity == f.severity && q.title == f.title && q.description == f.description && q.config == config
      && q.kind == r.kind && q.resource == r.resource
    ensures
      var q := Refreshed(r, config, f);
      if AutoAcknowledge(f) then
        && q.status == Acknowledged
        && q.notes == (if r.notes == None || r.notes == Some(Text("")) then Some(AutoAcknowledged) else r.notes)
      else if r.notes == Some(AutoAcknowledged) then
        q.status == (if r.status == Acknowledged then Open else r.status) && q.notes == None
      else q.status == r.status && q.notes == r.notes
  {
    assert NoNote(r.notes) <==> r.notes == None || r.notes == Some(Text(""));
  }

  /** A record that is created shows the finding, open without a note unless the finding is acknowledged on arrival. */
  lemma CreatedShows(config: Option<string>, f: Finding)
    ensures
      var q := Created(config, f);
      && q.severity == f.severity && q.title == f.title && q.description == f.description && q.config == config
      && q.kind == f.kind && q.resource == f.resource
      && q.status == (if AutoAcknowledge(f) then Acknowledged else Open)
      && q.notes == (if AutoAcknowledge(f) then Some(AutoAcknowledged) else None)
  {
    assert Created(config, f).severity == f.severity;
  }

  /** The live network records of the configuration, or of any, whose resource mentions the endpoint. */
  lemma InScopeIff(config: Option<string>, e: string, r: Record)
    ensures InScope(config, e, r) <==>
      && (config == None || config == r.config) && r.kind in {IsolationBreach, PolicyOpening}
      && r.status in {Open, Acknowledged} && r.resource.Some? && Includes(r.resource.value, e)
  {
    assert Live(r) <==> r.status in {Open, Acknowledged};
  }

  lemma SameFindingIff(config: Option<string>, f: Finding, r: Record)
    ensures SameFinding(config, f, r) <==>
      && (config == None || config == r.config) && r.kind == f.kind && r.status in {Open, Acknowledged}
      && (f.resource == None || f.resource == r.resource)
  {
    assert Live(r) <==> r.status in {Open, Acknowledged};
  }

  /** The endpoint in question: that of a network finding's resource. */
  lemma EndpointInIff(f: Finding, e: string)
    ensures EndpointIn(f.kind, f.resource) == Some(e) <==>
      f.kind in {IsolationBreach, PolicyOpening} && f.resource.Some? && EndpointOf(f.resource) == Some(e)
  {
    assert TrimEnd("") == "";
  }

  /**
   Whether a record is kept, and which: of the records in scope of the finding's endpoint one of its source, or else
   one of unknown source, or else any; without an endpoint or a record in scope, one of its type and resource.
   */
  lemma KeptIs(x: Extractor, t: Table, config: Option<string>, f: Finding, found: Option<nat>, e: string)
    requires MayFind(x, t, config, f, found)
    ensures EndpointIn(f.kind, f.resource) == Some(e) && (exists j :: j in t && InScope(config, e, t[j])) ==>
      && found.Some? && found.value in t && InScope(config, e, t[found.value])
      && (var mine, its := x(f.title, f.description), x(t[found.value].title, t[found.value].description);
          forall j :: j in t && InScope(config, e, t[j]) ==>
            var other := x(t[j].title, t[j].description);
            && (other == mine != None ==> its == mine)
            && (other == None && its != None ==> its == mine))
    ensures (EndpointIn(f.kind, f.resource) == None
             || (EndpointIn(f.kind, f.resource) == Some(e) && forall j :: j in t ==> !InScope(config, e, t[j]))) ==>
      if found.Some? then found.value in t && SameFinding(config, f, t[found.value])
      else forall j :: j in t ==> !SameFinding(config, f, t[j])
  {
  }

  /**
   Every other record either stays as it was or, if it is in scope of the endpoint and its source agrees or is not
   known, is acknowledged, with the duplicates' note unless it has one of its own.
   */
  lemma OthersAfter(x: Extractor, u: Table, config: Option<string>, f: Finding, keeper: nat, id: nat)
    requires id in u
    ensures Collapse(x, u, config, f, keeper).Keys == u.Keys
    ensures
      var t, e := Collapse(x, u, config, f, keeper), EndpointIn(f.kind, f.resource);
      var mine, its := x(f.title, f.description), x(u[id].title, u[id].description);
      if id != keeper && e.Some? && InScope(config, e.value, u[id]) && (mine == None || its == None || mine == its) then
        t[id] == u[id].(
          status := Acknowledged,
          notes := if u[id].notes == None || u[id].notes == Some(Text("")) then Some(AutoDeduplicated)
                   else u[id].notes)
      else t[id] == u[id]
  {
    assert NoNote(u[id].notes) <==> u[id].notes == None || u[id].notes == Some(Text(""));
  }

  lemma StoredShows(x: Extractor, t: Table, config: Option<string>, f: Finding, u: Table, keeper: nat)
    requires Stored(x, t, config, f, u, keeper)
    ensures u.Keys == t.Keys + {keeper} && forall id :: id in t && id != keeper ==> u[id] == t[id]
    ensures
      var q := u[keeper];
      && q.severity == f.severity && q.title == f.title && q.description == f.description && q.config == config
      && (if keeper in t then q.kind == t[keeper].kind && q.resource == t[keeper].resource
          else q.kind == f.kind && q.resource == f.resource)
      && q.status in {Open, Acknowledged} && (AutoAcknowledge(f) ==> q.status == Acknowledged)
  {
    if keeper in t { RefreshedShows(t[keeper], config, f); } else { CreatedShows(config, f); }
  }

  lemma CollapseSpares(x: Extractor, u: Table, config: Option<string>, f: Finding, keeper: nat)
    requires keeper in u
    ensures
      var t := Collapse(x, u, config, f, keeper);
      && t.Keys == u.Keys && t[keeper] == u[keeper]
      && forall id :: id in t ==>
           && t[id].(status := u[id].status, notes := u[id].notes) == u[id]
           && (t[id] != u[id] ==> t[id].status == Acknowledged)
  {
  }

  /** So one finding leaves one record that shows it, and changes nothing but status and notes of others. */
  lemma ProcessedShows(x: Extractor, t: Table, config: Option<string>, f: Finding, t': Table) returns (keeper: nat)
    requires Processed(x, t, config, f, t')
    ensures keeper in t' && t'.Keys == t.Keys + {keeper}
    ensures
      var q := t'[keeper];
      && q.severity == f.severity && q.title == f.title && q.description == f.description && q.config == config
      && (if keeper in t then q.kind == t[keeper].kind && q.resource == t[keeper].resource
          else q.kind == f.kind && q.resource == f.resource)
      && q.status in {Open, Acknowledged} && (AutoAcknowledge(f) ==> q.status == Acknowledged)
    ensures forall id :: id in t && id != keeper ==>
      && t'[id].(status := t[id].status, notes := t[id].notes) == t[id]
      && (t'[id] != t[id] ==> t'[id].status == Acknowledged)
  {
    var u, k :| Stored(x, t, config, f, u, k) && t' == Collapse(x, u, config, f, k);
    keeper := k;
    StoredShows(x, t, config, f, u, keeper);
    CollapseSpares(x, u, config, f, keeper);
  }

  /**
   What is written when the record may have changed since it was read: its kind and resource stay, and so does the note
   it has by then, unless the one that was read asks for another; its status is computed from what was read.
   */
  lemma RewrittenShows(r: Record, seen: Record, config: Option<string>, f: Finding)
    ensures
      var q := VulnRace.Rewritten(r, seen, config, f);
      && q.severity == f.severity && q.title == f.title && q.description == f.description && q.config == config
      && q.kind == r.kind && q.resource == r.resource
    ensures
      var q, auto := VulnRace.Rewritten(r, seen, config, f), Some(AutoAcknowledged);
      if AutoAcknowledge(f) then
        && q.status == Acknowledged
        && q.notes == (
             if seen.notes == None || seen.notes == Some(Text("")) || seen.notes == auto then auto else r.notes)
      else if seen.notes == auto then
        q.status == (if seen.status == Acknowledged then Open else seen.status) && q.notes == None
      else q.status == seen.status && q.notes == r.notes
  {
    assert NoNote(seen.notes) <==> seen.notes == None || seen.notes == Some(Text(""));
  }

  /** A duplicate is acknowledged, with the note it had when it was read, or the duplicates' note if it had none. */
  lemma MarkedShows(r: Record, seen: Record)
    ensures VulnRace.Marked(r, seen).(status := r.status, notes := r.notes) == r
    ensures VulnRace.Marked(r, seen).status == Acknowledged
    ensures VulnRace.Marked(r, seen).notes ==
      if seen.notes == None || seen.notes == Some(Text("")) then Some(AutoDeduplicated) else seen.notes
  {
    assert NoNote(seen.notes) <==> seen.notes == None || seen.notes == Some(Text(""));
  }
}
