/**
 The program: queries in an order of the database's choosing, and the updates
 of createVulnerabilities, await by await.
 */
module VulnStore {
  import opened Wrappers
  import opened Endpoints
  import opened VulnDedup
  import opened VulnRace

  /** The records a batch still owes a write are in the table. */
  predicate Knows(p: Phase, t: Table) {
    (p.Found? ==> p.id in t) && (p.Marking? ==> p.todo.Keys <= t.Keys)
  }

  /** How far a batch is from being done with its finding. */
  function Stage(p: Phase): nat {
    match p
    case Searching(_) => 3
    case Found(_, _, _) => 2
    case Missing(_) => 2
    case Written(_, _) => 1
    case Marking(_) => 0
  }

  function Left(p: Phase): nat {
    if p.Marking? then |p.todo| else 0
  }

  class VulnerabilityStore {
    var rows: Table
    var nextId: nat
    var batches: seq<Batch>

    ghost function Now(): State
      reads this
    {
      State(rows, batches)
    }

    ghost predicate Valid()
      reads this
    {
      (forall id :: id in rows ==> id < nextId) && forall w :: 0 <= w < |batches| ==> Knows(batches[w].phase, rows)
    }

    constructor (configs: seq<Option<string>>)
      ensures Valid() && Now() == Start(configs)
    {
      rows, nextId := map[], 0;
      batches := seq(|configs|, w requires 0 <= w < |configs| => Batch(configs[w], IDLE));
    }

    /** The live network records containing the endpoint, in any order. */
    method FindCandidates(config: Option<string>, e: string) returns (ids: seq<nat>)
      ensures forall id :: id in ids <==> id in rows && InScope(config, e, rows[id])
    {
      ids := [];
      var todo := rows.Keys;
      while todo != {}
        invariant todo <= rows.Keys
        invariant forall id :: id in ids <==> id in rows.Keys - todo && InScope(config, e, rows[id])
      {
        var id :| id in todo;
        if InScope(config, e, rows[id]) { ids := ids + [id]; }
        todo := todo - {id};
      }
    }

    /** The first candidate of the given source. */
    method FindSource(x: Extractor, ids: seq<nat>, source: Option<string>) returns (found: Option<nat>)
      requires forall id :: id in ids ==> id in rows
      ensures found.Some? ==> found.value in ids && SourceOf(x, rows[found.value]) == source
      ensures found.None? ==> forall id :: id in ids ==> SourceOf(x, rows[id]) != source
    {
      for i := 0 to |ids|
        invariant forall j :: 0 <= j < i ==> SourceOf(x, rows[ids[j]]) != source
      {
        if SourceOf(x, rows[ids[i]]) == source { return Some(ids[i]); }
      }
      found := None;
    }

    /** Some live record of the same type and resource. */
    method FindSame(config: Option<string>, f: Finding) returns (found: Option<nat>)
      ensures if found.Some? then found.value in rows && SameFinding(config, f, rows[found.value])
              else forall id :: id in rows ==> !SameFinding(config, f, rows[id])
    {
      var todo := rows.Keys;
      while todo != {}
        invariant todo <= rows.Keys
        invariant forall id :: id in rows.Keys - todo ==> !SameFinding(config, f, rows[id])
      {
        var id :| id in todo;
        if SameFinding(config, f, rows[id]) { return Some(id); }
        todo := todo - {id};
      }
      found := None;
    }

    /** The batch's next phase, once its database call has returned. */
    method Enter(w: nat, p: Phase)
      requires Valid() && w < |batches| && Knows(p, rows)
      modifies this`batches
      ensures Valid() && batches == old(batches)[w := old(batches)[w].(phase := p)]
    {
      batches := batches[w := batches[w].(phase := p)];
    }

    /** The query by endpoint: the exact source first, then an unknown one, then any. */
    method Look(x: Extractor, w: nat, f: Finding)
      requires Valid() && w < |batches| && batches[w].phase == IDLE
      modifies this`batches
      ensures Valid() && Moved(x, old(Now()), Event.Look(w, f), Now())
    {
      var e := EndpointIn(f.kind, f.resource);
      var found: Option<nat> := None;
      if e.Some? {
        var candidates := FindCandidates(batches[w].config, e.value);
        found := Choose(x, f, candidates);
        assert forall id :: id in rows && InScope(batches[w].config, e.value, rows[id]) ==> id in candidates;
      }
      Enter(w, if found.Some? then Phase.Found(f, found.value, rows[found.value]) else Searching(f));
    }

    method Choose(x: Extractor, f: Finding, candidates: seq<nat>) returns (found: Option<nat>)
      requires forall id :: id in candidates ==> id in rows
      ensures found.None? <==> candidates == []
      ensures found.Some? ==> found.value in candidates
      ensures
        var source := x(f.title, f.description);
        found.Some? ==>
          if source.Some? && exists id :: id in candidates && SourceOf(x, rows[id]) == source then
            SourceOf(x, rows[found.value]) == source
          else (exists id :: id in candidates && SourceOf(x, rows[id]) == None) ==>
            SourceOf(x, rows[found.value]) == None
    {
      found := None;
      if candidates == [] { return; }
      assert candidates[0] in candidates;
      var source := x(f.title, f.description);
      if source.Some? {
        found := FindSource(x, candidates, source);
        if found.Some? { return; }
      }
      found := FindSource(x, candidates, None);
      if found.None? { found := Some(candidates[0]); }
    }

    /** The query by type and resource. */
    method LookAgain(x: Extractor, w: nat)
      requires Valid() && w < |batches| && batches[w].phase.Searching?
      modifies this`batches
      ensures Valid() && Moved(x, old(Now()), Event.LookAgain(w), Now())
    {
      var f := batches[w].phase.f;
      var found := FindSame(batches[w].config, f);
      Enter(w, if found.Some? then Phase.Found(f, found.value, rows[found.value]) else Missing(f));
    }

    /** The update or the insertion. */
    method Write(x: Extractor, w: nat)
      requires Valid() && w < |batches| && (batches[w].phase.Found? || batches[w].phase.Missing?)
      modifies this
      ensures Valid() && Moved(x, old(Now()), Event.Write(w), Now())
    {
      var config, phase := batches[w].config, batches[w].phase;
      var keeper;
      if phase.Found? {
        keeper := phase.id;
        rows := rows[keeper := Rewritten(rows[keeper], phase.seen, config, phase.f)];
      } else {
        keeper := nextId;
        nextId := nextId + 1;
        rows := rows[keeper := Created(config, phase.f)];
      }
      Enter(w, Written(phase.f, keeper));
    }

    /** The query for duplicates, of which the loop keeps those whose source agrees or is unknown. */
    method Fetch(x: Extractor, w: nat)
      requires Valid() && w < |batches| && batches[w].phase.Written?
      modifies this`batches
      ensures Valid() && Moved(x, old(Now()), Event.Fetch(w), Now())
    {
      var config, f, keeper := batches[w].config, batches[w].phase.f, batches[w].phase.keeper;
      var e := EndpointIn(f.kind, f.resource);
      var todo: Table := map[];
      if e.Some? {
        var source := x(f.title, f.description);
        var duplicates := FindCandidates(config, e.value);
        for i := 0 to |duplicates|
          invariant todo.Keys <= rows.Keys
          invariant forall id :: id in todo <==>
            id in duplicates[..i] && id != keeper && SourcesMatch(source, SourceOf(x, rows[id]))
          invariant forall id :: id in todo ==> todo[id] == rows[id]
        {
          var id := duplicates[i];
          assert id in duplicates && duplicates[..i + 1] == duplicates[..i] + [id];
          if id != keeper && SourcesMatch(source, SourceOf(x, rows[id])) { todo := todo[id := rows[id]]; }
        }
        assert duplicates[..|duplicates|] == duplicates;
      }
      assert todo == DuplicatesOf(x, rows, config, f, keeper);
      Enter(w, Marking(todo));
    }

    /** The update of one duplicate. */
    method Mark(x: Extractor, w: nat) returns (id: nat)
      requires Valid() && w < |batches| && batches[w].phase.Marking? && batches[w].phase != IDLE
      modifies this
      ensures Valid() && Moved(x, old(Now()), Event.Mark(w, id), Now())
      ensures batches[w].phase.Marking? && |batches[w].phase.todo| < |old(batches[w].phase.todo)|
    {
      var todo := batches[w].phase.todo;
      assert todo.Keys != {};
      id :| id in todo;
      rows := rows[id := Marked(rows[id], todo[id])];
      assert (todo - {id}).Keys == todo.Keys - {id};
      Enter(w, Marking(todo - {id}));
    }

    /** An operator's edit of the columns given. */
    method Update(x: Extractor, id: nat, status: Option<Status>, notes: Option<Option<Note>>) returns (found: bool)
      requires Valid()
      modifies this`rows
      ensures Valid() && found == (id in old(rows))
      ensures
        if found then
          Moved(x, old(Now()), Event.Edit(id, status.GetOr(old(rows)[id].status), notes.GetOr(old(rows)[id].notes)),
            Now())
        else Now() == old(Now())
    {
      found := id in rows;
      if found {
        rows := rows[id := rows[id].(status := status.GetOr(rows[id].status), notes := notes.GetOr(rows[id].notes))];
      }
    }

    /** The batch's next database call, whichever it has reached. */
    method Resume(x: Extractor, w: nat) returns (ghost ev: Event)
      requires Valid() && w < |batches| && batches[w].phase != IDLE
      modifies this
      ensures Valid() && Moved(x, old(Now()), ev, Now()) && By(w, ev) && !ev.Look?
      ensures
        var p, p' := old(batches[w].phase), batches[w].phase;
        Stage(p') < Stage(p) || (Stage(p') == Stage(p) && Left(p') < Left(p))
    {
      match batches[w].phase
      case Searching(_) =>
        LookAgain(x, w);
        ev := Event.LookAgain(w);
      case Found(_, _, _) =>
        Write(x, w);
        ev := Event.Write(w);
      case Missing(_) =>
        Write(x, w);
        ev := Event.Write(w);
      case Written(_, _) =>
        Fetch(x, w);
        ev := Event.Fetch(w);
      case Marking(_) =>
        var id := Mark(x, w);
        ev := Event.Mark(w, id);
    }

    /** One finding, undisturbed: the calls in turn make one step of the one-step machine. */
    method ProcessFinding(x: Extractor, w: nat, f: Finding)
      requires Valid() && w < |batches| && batches[w].phase == IDLE
      modifies this
      ensures Valid() && batches == old(batches) && Processed(x, old(rows), batches[w].config, f, rows)
    {
      ghost var config, others, t0 := batches[w].config, batches, rows;
      Look(x, w, f);
      LookStarts(x, t0, config, IDLE, f, rows, batches[w].phase, w);
      while batches[w].phase != IDLE
        invariant Valid() && |batches| == |others| && batches == others[w := Batch(config, batches[w].phase)]
        invariant Partial(x, t0, config, f, batches[w].phase, rows)
        decreases Stage(batches[w].phase), Left(batches[w].phase)
      {
        ghost var t, p := rows, batches[w].phase;
        ghost var ev := Resume(x, w);
        PartialTurn(x, t0, config, f, t, p, ev, rows, batches[w].phase);
      }
      PartialDone(x, t0, config, f, rows);
    }

    /** A batch, undisturbed: a run of the one-step machine. */
    method CreateVulnerabilities(x: Extractor, w: nat, findings: seq<Finding>) returns (ghost tables: seq<Table>)
      requires Valid() && w < |batches| && batches[w].phase == IDLE
      modifies this
      ensures Valid() && batches == old(batches) && Trace(x, BatchSteps(batches[w].config, findings), tables)
      ensures tables[0] == old(rows) && tables[|findings|] == rows
    {
      ghost var config := batches[w].config;
      tables := [rows];
      for i := 0 to |findings|
        invariant Valid() && batches == old(batches) && Trace(x, BatchSteps(config, findings[..i]), tables)
        invariant tables[0] == old(rows) && tables[i] == rows
      {
        ProcessFinding(x, w, findings[i]);
        BatchStepsAppend(config, findings, i);
        TraceSnoc(x, BatchSteps(config, findings[..i]), tables, Process(config, findings[i]), rows);
        tables := tables + [rows];
      }
      assert findings[..|findings|] == findings;
    }
  }

  function BatchSteps(config: Option<string>, findings: seq<Finding>): (steps: seq<Step>)
    ensures |steps| == |findings|
  {
    seq(|findings|, i requires 0 <= i < |findings| => Process(config, findings[i]))
  }

  lemma BatchStepsAppend(config: Option<string>, findings: seq<Finding>, i: nat)
    requires i < |findings|
    ensures BatchSteps(config, findings[..i + 1]) == BatchSteps(config, findings[..i]) + [Process(config, findings[i])]
  {
  }
}
