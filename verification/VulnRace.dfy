/**
 The same program at its awaits (backend/src/services/testProcessor.ts, createVulnerabilities): batches and
 operators write records between each other's reads and writes.
 */
module VulnRace {
  import opened Wrappers
  import opened Endpoints
  import opened VulnDedup

  // ---------- Steps between awaits ----------

  /** Where a batch stands: what it has read, and what it is about to write. An empty `Marking` is between findings. */
  datatype Phase =
    | Searching(f: Finding)
    | Found(f: Finding, id: nat, seen: Record)
    | Missing(f: Finding)
    | Written(f: Finding, keeper: nat)
    | Marking(todo: Table)

  const IDLE := Marking(map[])

  datatype Batch = Batch(config: Option<string>, phase: Phase)

  datatype State = State(table: Table, batches: seq<Batch>)

  /** One database call of batch `w`, or an operator's edit. */
  datatype Event =
    | Look(w: nat, f: Finding)
    | LookAgain(w: nat)
    | Write(w: nat)
    | Fetch(w: nat)
    | Mark(w: nat, id: nat)
    | Edit(id: nat, status: Status, notes: Option<Note>)

  /** The first query: candidates for the endpoint, if the finding has one. */
  ghost predicate Looked(x: Extractor, t: Table, config: Option<string>, f: Finding, p': Phase) {
    var e := EndpointIn(f.kind, f.resource);
    if e.Some? && exists j :: j in t && InScope(config, e.value, t[j]) then
      && p'.Found? && p'.f == f && p'.id in t && p'.seen == t[p'.id]
      && Preferred(x, t, config, e.value, x(f.title, f.description), p'.id)
    else p' == Searching(f)
  }

  /** The second query: the same type and resource. */
  ghost predicate LookedAgain(t: Table, config: Option<string>, f: Finding, p': Phase) {
    || (p'.Found? && p'.f == f && p'.id in t && p'.seen == t[p'.id] && SameFinding(config, f, t[p'.id]))
    || (p' == Missing(f) && forall j :: j in t ==> !SameFinding(config, f, t[j]))
  }

  /** The update of record `r`, whose status and note are computed from the record as it was read. */
  function Rewritten(r: Record, seen: Record, config: Option<string>, f: Finding): Record {
    var wasAuto := seen.status == Acknowledged && seen.notes == Some(AutoAcknowledged);
    Record(
      config, r.kind, f.severity, f.title, f.description, r.resource,
      if AutoAcknowledge(f) then Acknowledged else if wasAuto then Open else seen.status,
      if AutoAcknowledge(f) then
        if NoNote(seen.notes) || seen.notes == Some(AutoAcknowledged) then Some(AutoAcknowledged) else r.notes
      else if seen.notes == Some(AutoAcknowledged) then None
      else r.notes)
  }

  /** Acknowledging a duplicate: its note, too, is the one that was read. */
  function Marked(r: Record, seen: Record): Record {
    r.(status := Acknowledged, notes := Deduplicated(seen).notes)
  }

  function DuplicatesOf(x: Extractor, t: Table, config: Option<string>, f: Finding, keeper: nat): Table {
    map id | id in t && Duplicate(x, config, f, keeper, id, t[id]) :: t[id]
  }

  ghost predicate Turn(x: Extractor, config: Option<string>, t: Table, p: Phase, ev: Event, t': Table, p': Phase) {
    match ev
    case Look(_, f) => p == IDLE && t' == t && Looked(x, t, config, f, p')
    case LookAgain(_) => p.Searching? && t' == t && LookedAgain(t, config, p.f, p')
    case Write(_) =>
      || (p.Found? && p.id in t && t' == t[p.id := Rewritten(t[p.id], p.seen, config, p.f)] && p' == Written(p.f, p.id))
      || (p.Missing? && p'.Written? && p'.f == p.f && p'.keeper !in t && t' == t[p'.keeper := Created(config, p.f)])
    case Fetch(_) => p.Written? && t' == t && p' == Marking(DuplicatesOf(x, t, config, p.f, p.keeper))
    case Mark(_, id) =>
      && p.Marking? && id in p.todo && id in t
      && t' == t[id := Marked(t[id], p.todo[id])] && p' == Marking(p.todo - {id})
    case Edit(_, _, _) => false
  }

  ghost predicate Moved(x: Extractor, s: State, ev: Event, s': State) {
    match ev
    case Edit(id, status, notes) =>
      id in s.table && s' == s.(table := s.table[id := s.table[id].(status := status, notes := notes)])
    case _ =>
      && ev.w < |s.batches| == |s'.batches|
      && s'.batches == s.batches[ev.w := s'.batches[ev.w]]
      && s'.batches[ev.w].config == s.batches[ev.w].config
      && Turn(x, s.batches[ev.w].config, s.table, s.batches[ev.w].phase, ev, s'.table, s'.batches[ev.w].phase)
  }

  /** Any interleaving of any number of batches and operators. */
  ghost predicate Interleaving(x: Extractor, events: seq<Event>, states: seq<State>) {
    |states| == |events| + 1 && forall n :: 0 <= n < |events| ==> Moved(x, states[n], events[n], states[n + 1])
  }

  ghost predicate Leaves(events: seq<Event>, id: nat) {
    forall n :: 0 <= n < |events| ==> !(events[n].Edit? && events[n].id == id)
  }

  predicate AllIdle(s: State) {
    forall w :: 0 <= w < |s.batches| ==> s.batches[w].phase == IDLE
  }

  predicate By(w: nat, ev: Event) {
    !ev.Edit? && ev.w == w
  }

  // ---------- Operators' notes ----------

  /**
   What a batch has read of record `id` does not lead it to overwrite the record's own note: for an update, not the
   automatic note, nor no note at all if the finding is acknowledged automatically; for a duplicate, that very note.
   */
  predicate KeepsNote(p: Phase, id: nat, r: Record) {
    && (p.Found? && p.id == id ==>
          p.seen.notes != Some(AutoAcknowledged) && !(AutoAcknowledge(p.f) && NoNote(p.seen.notes)))
    && (p.Marking? && id in p.todo ==> p.todo[id].notes == r.notes)
  }

  ghost predicate NoteSafe(s: State, id: nat) {
    id in s.table && OwnNote(s.table[id]) && forall w :: 0 <= w < |s.batches| ==>
      KeepsNote(s.batches[w].phase, id, s.table[id])
  }

  lemma NoteSafeTurn(
    x: Extractor, config: Option<string>, t: Table, p: Phase, ev: Event, t': Table, p': Phase, id: nat)
    requires Turn(x, config, t, p, ev, t', p') && id in t && OwnNote(t[id]) && KeepsNote(p, id, t[id])
    ensures id in t' && t'[id].notes == t[id].notes && KeepsNote(p', id, t'[id])
  {
  }

  lemma NoteSafeStep(x: Extractor, s: State, ev: Event, s': State, id: nat)
    requires NoteSafe(s, id) && Moved(x, s, ev, s') && !(ev.Edit? && ev.id == id)
    ensures NoteSafe(s', id) && s'.table[id].notes == s.table[id].notes
  {
    if !ev.Edit? {
      NoteSafeTurn(x, s.batches[ev.w].config, s.table, s.batches[ev.w].phase, ev, s'.table, s'.batches[ev.w].phase, id);
    }
    forall w | 0 <= w < |s'.batches|
      ensures KeepsNote(s'.batches[w].phase, id, s'.table[id])
    {
      if ev.Edit? || w != ev.w {
        assert KeepsNote(s.batches[w].phase, id, s.table[id]) && s'.batches[w] == s.batches[w];
      }
    }
  }

  lemma {:induction false} NoteSafeRun(x: Extractor, events: seq<Event>, states: seq<State>, id: nat, n: nat)
    requires Interleaving(x, events, states) && Leaves(events, id) && NoteSafe(states[0], id) && n <= |events|
    ensures NoteSafe(states[n], id) && states[n].table[id].notes == states[0].table[id].notes
  {
    if n > 0 {
      NoteSafeRun(x, events, states, id, n - 1);
      NoteSafeStep(x, states[n - 1], events[n - 1], states[n], id);
    }
  }

  /** In every interleaving from `s` that does not edit the record again, its note stays. */
  ghost predicate NoteStays(x: Extractor, s: State, id: nat)
    requires id in s.table
  {
    forall events, states :: Interleaving(x, events, states) && states[0] == s && Leaves(events, id) ==>
      NoteAtEnd(states, id, s.table[id].notes)
  }

  ghost predicate NoteAtEnd(states: seq<State>, id: nat, notes: Option<Note>) {
    states != [] && id in states[|states| - 1].table && states[|states| - 1].table[id].notes == notes
  }

  /** The batch that owes record `id` a write can make it next. */
  lemma OwedWrite(x: Extractor, s: State, id: nat, w: nat) returns (ev: Event, s': State)
    requires id in s.table && w < |s.batches|
    requires var p := s.batches[w].phase; (p.Found? && p.id == id) || (p.Marking? && id in p.todo)
    ensures Moved(x, s, ev, s') && !ev.Edit? && id in s'.table
    ensures
      var p := s.batches[w].phase;
      s'.table[id] ==
        if p.Found? then Rewritten(s.table[id], p.seen, s.batches[w].config, p.f) else Marked(s.table[id], p.todo[id])
  {
    var config, p := s.batches[w].config, s.batches[w].phase;
    if p.Found? {
      ev := Write(w);
      s' := State(s.table[id := Rewritten(s.table[id], p.seen, config, p.f)],
        s.batches[w := Batch(config, Written(p.f, id))]);
    } else {
      ev := Mark(w, id);
      s' := State(s.table[id := Marked(s.table[id], p.todo[id])],
        s.batches[w := Batch(config, Marking(p.todo - {id}))]);
    }
  }

  lemma OneStep(x: Extractor, s: State, ev: Event, s': State)
    requires Moved(x, s, ev, s')
    ensures Interleaving(x, [ev], [s, s'])
  {
  }

  /**
   An operator's own note outlasts all automation, however interleaved, exactly when no batch already holds a reading
   of the record from which it would overwrite the note.
   */
  lemma NoteStaysIff(x: Extractor, s: State, id: nat)
    requires id in s.table && OwnNote(s.table[id])
    ensures NoteStays(x, s, id) <==> forall w :: 0 <= w < |s.batches| ==> KeepsNote(s.batches[w].phase, id, s.table[id])
  {
    if NoteSafe(s, id) {
      forall events, states | Interleaving(x, events, states) && states[0] == s && Leaves(events, id)
        ensures NoteAtEnd(states, id, s.table[id].notes)
      {
        NoteSafeRun(x, events, states, id, |events|);
      }
    } else {
      var w :| 0 <= w < |s.batches| && !KeepsNote(s.batches[w].phase, id, s.table[id]);
      var ev, s' := OwedWrite(x, s, id, w);
      OneStep(x, s, ev, s');
      assert !NoteAtEnd([s, s'], id, s.table[id].notes) && Leaves([ev], id);
    }
  }

  // ---------- Settled records ----------

  /**
   What a batch has read of record `id` does not lead it to unsettle the record: for an update by an ordinary finding,
   an acknowledged record without the automatic note; by one that is acknowledged automatically, a record with another
   note; for a duplicate, no automatic note. The note does not matter where only openings can match.
   */
  ghost predicate KeepsSettled(p: Phase, id: nat, r: Record) {
    && (p.Found? && p.id == id ==>
          if AutoAcknowledge(p.f) then
            OnlyOpenings(r) || (!NoNote(p.seen.notes) && p.seen.notes != Some(AutoAcknowledged))
          else p.seen.status == Acknowledged && p.seen.notes != Some(AutoAcknowledged))
    && (p.Marking? && id in p.todo ==> OnlyOpenings(r) || p.todo[id].notes != Some(AutoAcknowledged))
  }

  lemma SameOpenings(r: Record, r': Record)
    requires r.kind == r'.kind && r.resource == r'.resource
    ensures OnlyOpenings(r) == OnlyOpenings(r')
  {
    assert forall e :: MentionsEndpoint(r', e) == MentionsEndpoint(r, e);
  }

  /** The owed writes are as good as the readings promise. */
  lemma KeepsSettledIff(p: Phase, id: nat, r: Record, config: Option<string>)
    requires Settled(r)
    ensures KeepsSettled(p, id, r) <==>
      && (p.Found? && p.id == id ==> Settled(Rewritten(r, p.seen, config, p.f)))
      && (p.Marking? && id in p.todo ==> Settled(Marked(r, p.todo[id])))
  {
    if p.Found? { SameOpenings(r, Rewritten(r, p.seen, config, p.f)); }
    if p.Marking? && id in p.todo { SameOpenings(r, Marked(r, p.todo[id])); }
  }

  lemma KeepsSettledStill(p: Phase, id: nat, r: Record, r': Record)
    requires r.kind == r'.kind && r.resource == r'.resource && KeepsSettled(p, id, r)
    ensures KeepsSettled(p, id, r')
  {
    SameOpenings(r, r');
  }

  lemma FoundOpeningAgain(x: Extractor, t: Table, config: Option<string>, f: Finding, p': Phase)
    requires Looked(x, t, config, f, p') || LookedAgain(t, config, f, p')
    requires p'.Found? && OnlyOpenings(t[p'.id])
    ensures AutoAcknowledge(f)
  {
    var e := EndpointIn(f.kind, f.resource);
    if e.Some? { assert !MentionsEndpoint(t[p'.id], e.value); }
  }

  lemma SettledTurn(
    x: Extractor, config: Option<string>, t: Table, p: Phase, ev: Event, t': Table, p': Phase, id: nat)
    requires Turn(x, config, t, p, ev, t', p') && id in t && Settled(t[id]) && KeepsSettled(p, id, t[id])
    ensures id in t' && Settled(t'[id]) && t'[id].kind == t[id].kind && t'[id].resource == t[id].resource
    ensures KeepsSettled(p', id, t'[id])
  {
    KeepsSettledIff(p, id, t[id], config);
    match ev
    case Look(_, f) =>
      if p'.Found? && p'.id == id && OnlyOpenings(t[id]) { FoundOpeningAgain(x, t, config, f, p'); }
    case LookAgain(_) =>
      if p'.Found? && p'.id == id && OnlyOpenings(t[id]) { FoundOpeningAgain(x, t, config, p.f, p'); }
    case Write(_) =>
    case Fetch(_) =>
    case Mark(_, j) =>
      KeepsSettledStill(p, id, t[id], t'[id]);
  }

  ghost predicate SettledSafe(s: State, id: nat) {
    && id in s.table && Settled(s.table[id])
    && forall w :: 0 <= w < |s.batches| ==> KeepsSettled(s.batches[w].phase, id, s.table[id])
  }

  lemma SettledSafeStep(x: Extractor, s: State, ev: Event, s': State, id: nat)
    requires SettledSafe(s, id) && Moved(x, s, ev, s') && !(ev.Edit? && ev.id == id)
    ensures SettledSafe(s', id)
  {
    if !ev.Edit? {
      SettledTurn(x, s.batches[ev.w].config, s.table, s.batches[ev.w].phase, ev, s'.table, s'.batches[ev.w].phase, id);
    }
    forall w | 0 <= w < |s'.batches|
      ensures KeepsSettled(s'.batches[w].phase, id, s'.table[id])
    {
      if ev.Edit? || w != ev.w {
        assert s'.batches[w] == s.batches[w];
        KeepsSettledStill(s.batches[w].phase, id, s.table[id], s'.table[id]);
      }
    }
  }

  lemma {:induction false} SettledSafeRun(x: Extractor, events: seq<Event>, states: seq<State>, id: nat, n: nat)
    requires Interleaving(x, events, states) && Leaves(events, id) && SettledSafe(states[0], id) && n <= |events|
    ensures SettledSafe(states[n], id)
  {
    if n > 0 {
      SettledSafeRun(x, events, states, id, n - 1);
      SettledSafeStep(x, states[n - 1], events[n - 1], states[n], id);
    }
  }

  ghost predicate SettledAtEnd(states: seq<State>, id: nat) {
    states != [] && id in states[|states| - 1].table && Settled(states[|states| - 1].table[id])
  }

  ghost predicate StaysSettled(x: Extractor, s: State, id: nat) {
    forall events, states :: Interleaving(x, events, states) && states[0] == s && Leaves(events, id) ==>
      SettledAtEnd(states, id)
  }

  /**
   A settled record stays settled, and so acknowledged, exactly when no batch
   holds a reading of it that unsettles it.
   */
  lemma StaysSettledIff(x: Extractor, s: State, id: nat)
    requires id in s.table && Settled(s.table[id])
    ensures StaysSettled(x, s, id) <==> forall w :: 0 <= w < |s.batches| ==>
      KeepsSettled(s.batches[w].phase, id, s.table[id])
  {
    if SettledSafe(s, id) {
      forall events, states | Interleaving(x, events, states) && states[0] == s && Leaves(events, id)
        ensures SettledAtEnd(states, id)
      {
        SettledSafeRun(x, events, states, id, |events|);
      }
    } else {
      var w :| 0 <= w < |s.batches| && !KeepsSettled(s.batches[w].phase, id, s.table[id]);
      var ev, s' := OwedWrite(x, s, id, w);
      OneStep(x, s, ev, s');
      KeepsSettledIff(s.batches[w].phase, id, s.table[id], s.batches[w].config);
      assert !SettledAtEnd([s, s'], id) && Leaves([ev], id);
    }
  }

  // ---------- What is lost otherwise ----------

  /**
   An operator acknowledges an open record, with a note, while a batch has read it, through its endpoint, and not yet
   written it. An ordinary finding opens it again, and the note is lost exactly if what was read is the automatic note,
   or no note and the finding is acknowledged automatically.
   */
  lemma EditInBetweenIsLost(x: Extractor, config: Option<string>, r: Record, f: Finding, note: string)
    returns (states: seq<State>)
    requires r.status == Open && note != ""
    requires EndpointIn(f.kind, f.resource).Some? && InScope(config, EndpointIn(f.kind, f.resource).value, r)
    ensures |states| == 4 && states[0] == State(map[0 := r], [Batch(config, IDLE)])
    ensures Interleaving(x, [Look(0, f), Event.Edit(0, Acknowledged, Some(Text(note))), Write(0)], states)
    ensures 0 in states[2].table && Settled(states[2].table[0]) && states[2].table[0].notes == Some(Text(note))
    ensures 0 in states[3].table
    ensures
      var last := states[3].table[0];
      && last.status == (if AutoAcknowledge(f) then Acknowledged else Open)
      && (last.notes != Some(Text(note)) <==>
            r.notes == Some(AutoAcknowledged) || (AutoAcknowledge(f) && NoNote(r.notes)))
  {
    var edited := r.(status := Acknowledged, notes := Some(Text(note)));
    var t := map[0 := r];
    var s0, s1 := State(t, [Batch(config, IDLE)]), State(t, [Batch(config, Found(f, 0, r))]);
    var s2 := State(map[0 := edited], [Batch(config, Found(f, 0, r))]);
    var s3 := State(map[0 := Rewritten(edited, r, config, f)], [Batch(config, Written(f, 0))]);
    assert Looked(x, t, config, f, Found(f, 0, r));
    assert t[0 := edited] == s2.table && s2.table[0 := Rewritten(edited, r, config, f)] == s3.table;
    assert Moved(x, s0, Look(0, f), s1) && Moved(x, s2, Write(0), s3);
    states := [s0, s1, s2, s3];
  }

  // ----- Two batches search before either creates -----

  /** An empty table, and batches of these configurations between findings. */
  function Start(configs: seq<Option<string>>): State {
    State(map[], seq(|configs|, i requires 0 <= i < |configs| => Batch(configs[i], IDLE)))
  }

  /** Two batches in a list of them, by position. */
  datatype Race = Race(configs: seq<Option<string>>, v: nat, w: nat) {

    predicate Valid() {
      v < |configs| && w < |configs| && v != w
    }

    predicate Even() {
      Valid() && configs[v] == configs[w]
    }

    /** The other batches are idle. */
    function At(t: Table, p: Phase, q: Phase): State
      requires Valid()
    {
      State(t, Start(configs).batches[v := Batch(configs[v], p)][w := Batch(configs[w], q)])
    }
  }

  /** Automation alone leads from one state to the other. */
  ghost predicate Reaches(x: Extractor, s: State, s': State) {
    exists events, states ::
      Interleaving(x, events, states) && states[0] == s && states[|events|] == s' && NoEdits(events)
  }

  predicate NoEdits(events: seq<Event>) {
    forall n :: 0 <= n < |events| ==> !events[n].Edit?
  }

  lemma ReachesItself(x: Extractor, s: State)
    ensures Reaches(x, s, s)
  {
    var events: seq<Event>, states := [], [s];
    assert Interleaving(x, events, states) && states[|events|] == s && NoEdits(events);
  }

  lemma ReachesNext(x: Extractor, s: State, s': State, ev: Event, s'': State)
    requires Reaches(x, s, s') && Moved(x, s', ev, s'') && !ev.Edit?
    ensures Reaches(x, s, s'')
  {
    var events, states :|
      Interleaving(x, events, states) && states[0] == s && states[|events|] == s' && NoEdits(events);
    var events', states' := events + [ev], states + [s''];
    assert Interleaving(x, events', states') && states'[|events'|] == s'' && NoEdits(events');
  }

  lemma FirstMoves(x: Extractor, s: State, c: Race, t: Table, p: Phase, q: Phase, ev: Event, t': Table, p': Phase)
    requires c.Valid() && Reaches(x, s, c.At(t, p, q)) && By(c.v, ev) && Turn(x, c.configs[c.v], t, p, ev, t', p')
    ensures Reaches(x, s, c.At(t', p', q))
  {
    ReachesNext(x, s, c.At(t, p, q), ev, c.At(t', p', q));
  }

  lemma SecondMoves(x: Extractor, s: State, c: Race, t: Table, p: Phase, q: Phase, ev: Event, t': Table, q': Phase)
    requires c.Valid() && Reaches(x, s, c.At(t, p, q)) && By(c.w, ev) && Turn(x, c.configs[c.w], t, q, ev, t', q')
    ensures Reaches(x, s, c.At(t', p, q'))
  {
    ReachesNext(x, s, c.At(t, p, q), ev, c.At(t', p, q'));
  }

  lemma RaceStarts(x: Extractor, c: Race)
    requires c.Valid()
    ensures Reaches(x, Start(c.configs), c.At(map[], IDLE, IDLE))
  {
    ReachesItself(x, Start(c.configs));
    assert c.At(map[], IDLE, IDLE) == Start(c.configs);
  }

  /** Both batches search the empty table. */
  lemma RacingSearches(x: Extractor, c: Race, f: Finding)
    requires c.Valid()
    ensures Reaches(x, Start(c.configs), c.At(map[], Missing(f), Missing(f)))
  {
    var s := Start(c.configs);
    RaceStarts(x, c);
    FirstMoves(x, s, c, map[], IDLE, IDLE, Look(c.v, f), map[], Searching(f));
    FirstMoves(x, s, c, map[], Searching(f), IDLE, LookAgain(c.v), map[], Missing(f));
    SecondMoves(x, s, c, map[], Missing(f), IDLE, Look(c.w, f), map[], Searching(f));
    SecondMoves(x, s, c, map[], Missing(f), Searching(f), LookAgain(c.w), map[], Missing(f));
  }

  /** Both batches create a record, and the two are twins. */
  lemma RaceCreatesTwins(x: Extractor, c: Race, f: Finding)
    requires c.Even() && EndpointIn(f.kind, f.resource).Some? && !AutoAcknowledge(f)
    ensures
      var r := Created(c.configs[c.v], f);
      Reaches(x, Start(c.configs), c.At(map[0 := r, 1 := r], Written(f, 0), Written(f, 1))) && Twins(x, r, r)
  {
    var s, r := Start(c.configs), Created(c.configs[c.v], f);
    RacingSearches(x, c, f);
    assert map[][0 := r] == map[0 := r] && map[0 := r][1 := r] == map[0 := r, 1 := r];
    FirstMoves(x, s, c, map[], Missing(f), Missing(f), Write(c.v), map[0 := r], Written(f, 0));
    SecondMoves(x, s, c, map[0 := r], Written(f, 0), Missing(f), Write(c.w), map[0 := r, 1 := r], Written(f, 1));
  }

  /** The other record is the one duplicate, open or not. */
  lemma OtherIsFetched(x: Extractor, config: Option<string>, f: Finding, keeper: nat, t: Table)
    requires keeper < 2 && EndpointIn(f.kind, f.resource).Some? && t.Keys == {0, 1}
    requires t[1 - keeper] == Created(config, f)
    ensures DuplicatesOf(x, t, config, f, keeper) == map[1 - keeper := t[1 - keeper]]
    ensures map[1 - keeper := t[1 - keeper]] - {1 - keeper} == map[]
    ensures Marked(t[1 - keeper], t[1 - keeper]) == Deduplicated(t[1 - keeper])
  {
    ContainsOwnEndpoint(f.resource);
    assert Duplicate(x, config, f, keeper, 1 - keeper, t[1 - keeper]);
  }

  lemma FirstMarks(x: Extractor, s: State, c: Race, f: Finding, r: Record, d: Record, q: Phase)
    requires c.Even() && EndpointIn(f.kind, f.resource).Some? && r == Created(c.configs[c.v], f) && d == Deduplicated(r)
    requires Reaches(x, s, c.At(map[0 := r, 1 := r], Written(f, 0), q))
    ensures Reaches(x, s, c.At(map[0 := r, 1 := d], IDLE, q))
  {
    var t, todo := map[0 := r, 1 := r], map[1 := r];
    OtherIsFetched(x, c.configs[c.v], f, 0, t);
    TwoEntries(r, d);
    FirstMoves(x, s, c, t, Written(f, 0), q, Fetch(c.v), t, Marking(todo));
    FirstMoves(x, s, c, t, Marking(todo), q, Mark(c.v, 1), map[0 := r, 1 := d], IDLE);
  }

  lemma SecondMarks(x: Extractor, s: State, c: Race, f: Finding, r: Record, d: Record)
    requires c.Even() && EndpointIn(f.kind, f.resource).Some? && r == Created(c.configs[c.v], f) && d == Deduplicated(r)
    requires Reaches(x, s, c.At(map[0 := r, 1 := d], IDLE, Written(f, 1)))
    ensures Reaches(x, s, c.At(map[0 := d, 1 := d], IDLE, IDLE))
  {
    var t, todo := map[0 := r, 1 := d], map[0 := r];
    OtherIsFetched(x, c.configs[c.v], f, 1, t);
    TwoEntries(r, d);
    SecondMoves(x, s, c, t, IDLE, Written(f, 1), Fetch(c.w), t, Marking(todo));
    SecondMoves(x, s, c, t, IDLE, Marking(todo), Mark(c.w, 0), map[0 := d, 1 := d], IDLE);
  }

  lemma TwoEntries(r: Record, d: Record)
    ensures map[0 := r, 1 := r][1 := d] == map[0 := r, 1 := d] && map[0 := r, 1 := d][0 := d] == map[0 := d, 1 := d]
  {
  }

  lemma NoneOpen(x: Extractor, s: State, d: Record)
    requires Settled(d) && AllIdle(s) && s.table == map[0 := d, 1 := d]
    ensures StaysSettled(x, s, 0) && StaysSettled(x, s, 1)
  {
    StaysSettledIff(x, s, 0);
    StaysSettledIff(x, s, 1);
  }

  /**
   For every network finding with an endpoint: two batches that search before either writes both create a record, and
   each then acknowledges the other's as a duplicate of its own - so that no open record is left, and no later
   finding opens one of the two again.
   */
  lemma RaceLeavesNoneOpen(x: Extractor, c: Race, f: Finding)
    requires c.Even() && EndpointIn(f.kind, f.resource).Some? && !AutoAcknowledge(f)
    ensures
      var d := Deduplicated(Created(c.configs[c.v], f));
      var end := Start(c.configs).(table := map[0 := d, 1 := d]);
      Reaches(x, Start(c.configs), end) && StaysSettled(x, end, 0) && StaysSettled(x, end, 1)
  {
    var s, r := Start(c.configs), Created(c.configs[c.v], f);
    var d := Deduplicated(r);
    RaceCreatesTwins(x, c, f);
    FirstMarks(x, s, c, f, r, d, Written(f, 1));
    SecondMarks(x, s, c, f, r, d);
    assert c.At(map[0 := d, 1 := d], IDLE, IDLE) == s.(table := map[0 := d, 1 := d]);
    NoneOpen(x, s.(table := map[0 := d, 1 := d]), d);
  }

  // ---------- At most one live record per configuration and endpoint ----------

  /** Another live record of the same configuration and endpoint. */
  ghost predicate Rivalled(t: Table, id: nat, r: Record) {
    exists j :: j in t && j != id && Live(t[j]) && SameEndpoint(t[j], r)
  }

  /** Record `id` was not live before, is live now, and is not the only live one of its endpoint. */
  ghost predicate Revived(t: Table, id: nat, t': Table) {
    (id in t ==> !Live(t[id])) && id in t' && Live(t'[id]) && Rivalled(t, id, t'[id])
  }

  /** The write creates a record, or brings one back that was closed since it was read, next to a live one. */
  ghost predicate Collides(s: State, ev: Event, s': State) {
    match ev
    case Write(w) =>
      && w < |s.batches| == |s'.batches| && s'.batches[w].phase.Written?
      && Revived(s.table, s'.batches[w].phase.keeper, s'.table)
    case Mark(_, id) => Revived(s.table, id, s'.table)
    case _ => false
  }

  /** A batch has a configuration exactly if all have, and still knows the record it is about to write. */
  ghost predicate Fits(withConfig: bool, t: Table, b: Batch) {
    && Configured(withConfig, b.config)
    && (b.phase.Found? ==> b.phase.id in t && t[b.phase.id].config == b.config && Live(b.phase.seen))
  }

  ghost predicate Orderly(withConfig: bool, s: State) {
    AllConfigured(withConfig, s.table) && forall w :: 0 <= w < |s.batches| ==> Fits(withConfig, s.table, s.batches[w])
  }

  /** An operator does not bring a closed record back. */
  ghost predicate Closing(s: State, ev: Event) {
    ev.Edit? ==> ev.id in s.table && (ev.status == Open || ev.status == Acknowledged ==> Live(s.table[ev.id]))
  }

  /** Changing one record keeps at most one live record per endpoint exactly when it does not revive a rival. */
  lemma LiveUniqueAfter(t: Table, id: nat, r: Record)
    requires LiveUnique(t)
      && (id in t && Live(t[id]) ==> RecordEndpoint(r) == RecordEndpoint(t[id]) && r.config == t[id].config)
    ensures LiveUnique(t[id := r]) <==> !Revived(t, id, t[id := r])
  {
    var t' := t[id := r];
    if Revived(t, id, t') {
      var j :| j in t && j != id && Live(t[j]) && SameEndpoint(t[j], r);
      assert t'[j] == t[j] && t'[id] == r;
    } else {
      forall a, b | a in t' && b in t' && a != b && Live(t'[a]) && Live(t'[b])
        ensures !SameEndpoint(t'[a], t'[b])
      {
        var j := if a == id then b else a;
        if a == id || b == id {
          assert t'[j] == t[j] && !SameEndpoint(t[j], r);
        }
      }
    }
  }

  /** The record an event writes, if it writes one. */
  ghost function Target(s: State, ev: Event, s': State): Option<nat> {
    match ev
    case Write(w) => if w < |s'.batches| && s'.batches[w].phase.Written? then Some(s'.batches[w].phase.keeper) else None
    case Mark(_, id) => Some(id)
    case Edit(id, _, _) => Some(id)
    case _ => None
  }

  lemma TargetOnly(x: Extractor, withConfig: bool, s: State, ev: Event, s': State)
    requires Moved(x, s, ev, s') && Orderly(withConfig, s)
    ensures
      match Target(s, ev, s') {
        case None => s'.table == s.table
        case Some(id) =>
          && id in s'.table && s'.table == s.table[id := s'.table[id]]
          && (id in s.table ==>
            RecordEndpoint(s'.table[id]) == RecordEndpoint(s.table[id]) && s'.table[id].config == s.table[id].config)
          && Configured(withConfig, s'.table[id].config)
      }
  {
    if !ev.Edit? {
      assert Fits(withConfig, s.table, s.batches[ev.w]);
    }
  }

  lemma OrderlyTurn(
    x: Extractor, withConfig: bool, config: Option<string>, t: Table, p: Phase, ev: Event, t': Table, p': Phase)
    requires Turn(x, config, t, p, ev, t', p') && Fits(withConfig, t, Batch(config, p)) && AllConfigured(withConfig, t)
    ensures Fits(withConfig, t', Batch(config, p'))
  {
    if p'.Found? { assert InConfig(config, t[p'.id]) && Configured(withConfig, t[p'.id].config); }
  }

  lemma OrderlyStep(x: Extractor, withConfig: bool, s: State, ev: Event, s': State)
    requires Moved(x, s, ev, s') && Orderly(withConfig, s)
    ensures Orderly(withConfig, s')
  {
    TargetOnly(x, withConfig, s, ev, s');
    forall w | 0 <= w < |s'.batches|
      ensures Fits(withConfig, s'.table, s'.batches[w])
    {
      assert Fits(withConfig, s.table, s.batches[w]);
      if !ev.Edit? && ev.w == w {
        var b, b' := s.batches[w], s'.batches[w];
        OrderlyTurn(x, withConfig, b.config, s.table, b.phase, ev, s'.table, b'.phase);
      }
    }
  }

  lemma CollidesIff(x: Extractor, withConfig: bool, s: State, ev: Event, s': State)
    requires Moved(x, s, ev, s') && Orderly(withConfig, s) && Closing(s, ev) && LiveUnique(s.table)
    ensures LiveUnique(s'.table) <==> !Collides(s, ev, s')
  {
    TargetOnly(x, withConfig, s, ev, s');
    var target := Target(s, ev, s');
    if target.Some? {
      LiveUniqueAfter(s.table, target.value, s'.table[target.value]);
    }
  }

  ghost predicate AllLiveUnique(states: seq<State>, n: nat) {
    forall k :: 0 <= k <= n && k < |states| ==> LiveUnique(states[k].table)
  }

  ghost predicate AllOpenUnique(x: Extractor, states: seq<State>, n: nat) {
    forall k :: 0 <= k <= n && k < |states| ==> Unique(x, states[k].table)
  }

  /** Operators bring no closed record back. */
  ghost predicate ClosingRun(x: Extractor, events: seq<Event>, states: seq<State>) {
    Interleaving(x, events, states) && forall n :: 0 <= n < |events| ==> Closing(states[n], events[n])
  }

  /** ... and all batches and records have a configuration, or none has. */
  ghost predicate OrderlyRun(x: Extractor, withConfig: bool, events: seq<Event>, states: seq<State>) {
    ClosingRun(x, events, states) && Orderly(withConfig, states[0])
  }

  // ----- What a collision comes from -----

  /** The batch is searching for `f`, or has found nothing. */
  predicate Searches(p: Phase, f: Finding) {
    p == Searching(f) || p == Missing(f)
  }

  /** A live record of this configuration that names the finding's endpoint: what a search would find. */
  ghost predicate Present(t: Table, config: Option<string>, f: Finding) {
    var e := EndpointIn(f.kind, f.resource);
    e.Some? && exists j :: j in t && Live(t[j]) && t[j].config == config && RecordEndpoint(t[j]) == e
  }

  /** The batch has read record `id` and owes it a write. */
  predicate Owes(p: Phase, id: nat) {
    (p.Found? && p.id == id) || (p.Marking? && id in p.todo)
  }

  /**
   Between batch w's read and its write, somebody else writes a record concerned: one that its search would have
   found appears, or one that it has read is closed.
   */
  ghost predicate Interrupted(s: State, ev: Event, s': State, w: nat) {
    && w < |s.batches| && !By(w, ev)
    && var b := s.batches[w];
    || (exists f :: Searches(b.phase, f) && !Present(s.table, b.config, f) && Present(s'.table, b.config, f))
    || (exists id :: Owes(b.phase, id) && id in s.table && Live(s.table[id]) && id in s'.table && !Live(s'.table[id]))
  }

  ghost predicate InterruptsNobody(s: State, ev: Event, s': State) {
    forall w :: !Interrupted(s, ev, s', w)
  }

  ghost predicate Uninterrupted(events: seq<Event>, states: seq<State>, n: nat) {
    forall m :: 0 <= m < n && m < |events| && m + 1 < |states| ==> InterruptsNobody(states[m], events[m], states[m + 1])
  }

  /** A search that has come up empty is still right, if nobody interrupted. */
  lemma SearchStep(x: Extractor, s: State, ev: Event, s': State, w: nat, f: Finding)
    requires Moved(x, s, ev, s') && w < |s.batches| && w < |s'.batches| && Searches(s'.batches[w].phase, f)
    requires !Interrupted(s, ev, s', w)
    requires Searches(s.batches[w].phase, f) ==> !Present(s.table, s.batches[w].config, f)
    ensures !Present(s'.table, s'.batches[w].config, f)
  {
    if By(w, ev) {
      var config := s.batches[w].config;
      assert Turn(x, config, s.table, s.batches[w].phase, ev, s'.table, s'.batches[w].phase);
      if ev.Look? && Present(s.table, config, f) {
        var j :| j in s.table && Live(s.table[j]) && s.table[j].config == config
          && RecordEndpoint(s.table[j]) == EndpointIn(f.kind, f.resource);
        ContainsOwnEndpoint(s.table[j].resource);
        assert InScope(config, EndpointIn(f.kind, f.resource).value, s.table[j]);
      }
    }
  }

  /** A record a batch owes a write is still live, if nobody interrupted. */
  lemma OwedStep(x: Extractor, s: State, ev: Event, s': State, w: nat, id: nat)
    requires Moved(x, s, ev, s') && w < |s.batches| && w < |s'.batches| && Owes(s'.batches[w].phase, id)
    requires !Interrupted(s, ev, s', w)
    requires Owes(s.batches[w].phase, id) ==> id in s.table && Live(s.table[id])
    ensures id in s'.table && Live(s'.table[id])
  {
    if By(w, ev) {
      assert Turn(x, s.batches[w].config, s.table, s.batches[w].phase, ev, s'.table, s'.batches[w].phase);
    }
  }

  /** What every batch has read is still the case. */
  ghost predicate Current(s: State) {
    forall w :: 0 <= w < |s.batches| ==>
      && (forall f :: Searches(s.batches[w].phase, f) ==> !Present(s.table, s.batches[w].config, f))
      && (forall id :: Owes(s.batches[w].phase, id) ==> id in s.table && Live(s.table[id]))
  }

  lemma CurrentStep(x: Extractor, s: State, ev: Event, s': State)
    requires Moved(x, s, ev, s') && Current(s) && InterruptsNobody(s, ev, s')
    ensures Current(s')
  {
    forall w | 0 <= w < |s'.batches|
      ensures forall f :: Searches(s'.batches[w].phase, f) ==> !Present(s'.table, s'.batches[w].config, f)
      ensures forall id :: Owes(s'.batches[w].phase, id) ==> id in s'.table && Live(s'.table[id])
    {
      forall f | Searches(s'.batches[w].phase, f)
        ensures !Present(s'.table, s'.batches[w].config, f)
      {
        SearchStep(x, s, ev, s', w, f);
      }
      forall id | Owes(s'.batches[w].phase, id)
        ensures id in s'.table && Live(s'.table[id])
      {
        OwedStep(x, s, ev, s', w, id);
      }
    }
  }

  lemma CurrentHasNoCollision(x: Extractor, s: State, ev: Event, s': State)
    requires Moved(x, s, ev, s') && Current(s)
    ensures !Collides(s, ev, s')
  {
    if Collides(s, ev, s') {
      var b := s.batches[ev.w];
      if b.phase.Missing? {
        assert Searches(b.phase, b.phase.f);
      } else {
        var id := if ev.Mark? then ev.id else b.phase.id;
        assert Owes(b.phase, id);
      }
    }
  }

  /**
   If between a batch's read and its write nobody else writes the records concerned, at most one live record per
   configuration and endpoint exists throughout, however the batches interleave.
   */
  lemma {:induction false} UninterruptedStaysUnique(
    x: Extractor, withConfig: bool, events: seq<Event>, states: seq<State>, n: nat)
    requires OrderlyRun(x, withConfig, events, states) && LiveUnique(states[0].table) && AllIdle(states[0])
    requires n <= |events| && Uninterrupted(events, states, n)
    ensures AllLiveUnique(states, n) && Orderly(withConfig, states[n]) && Current(states[n])
  {
    if n > 0 {
      var m := n - 1;
      UninterruptedStaysUnique(x, withConfig, events, states, m);
      assert Moved(x, states[m], events[m], states[m + 1]);
      OrderlyStep(x, withConfig, states[m], events[m], states[n]);
      CurrentStep(x, states[m], events[m], states[n]);
      CurrentHasNoCollision(x, states[m], events[m], states[n]);
      CollidesIff(x, withConfig, states[m], events[m], states[n]);
    }
  }

  // ----- One batch per configuration -----

  /** No two batches can reach the same records: without a configuration, a batch reaches all of them. */
  ghost predicate Apart(configs: seq<Option<string>>) {
    forall v, w :: 0 <= v < w < |configs| ==> configs[v].Some? && configs[w].Some? && configs[v] != configs[w]
  }

  ghost function ConfigsOf(s: State): (configs: seq<Option<string>>)
    ensures |configs| == |s.batches| && forall w :: 0 <= w < |configs| ==> configs[w] == s.batches[w].config
  {
    seq(|s.batches|, w requires 0 <= w < |s.batches| => s.batches[w].config)
  }

  /** A record that is live, or that a batch's write may bring back. */
  ghost predicate Counts(s: State, a: nat) {
    a in s.table && (Live(s.table[a]) || exists w :: 0 <= w < |s.batches| && Owes(s.batches[w].phase, a))
  }

  /** The record of this configuration and endpoint that a search for the finding is about. */
  predicate Sought(config: Option<string>, f: Finding, r: Record) {
    EndpointIn(f.kind, f.resource).Some? && RecordEndpoint(r) == EndpointIn(f.kind, f.resource) && r.config == config
  }

  /** A batch owes writes to records of its own configuration only, and seeks what no record that counts is. */
  ghost predicate KeepsToItself(s: State, b: Batch) {
    && (forall a :: Owes(b.phase, a) ==> a in s.table && s.table[a].config == b.config)
    && (forall f, a :: Searches(b.phase, f) && Counts(s, a) ==> !Sought(b.config, f, s.table[a]))
  }

  ghost predicate Separate(s: State) {
    && (forall a, b :: Counts(s, a) && Counts(s, b) && a != b ==> !SameEndpoint(s.table[a], s.table[b]))
    && (forall w :: 0 <= w < |s.batches| ==> KeepsToItself(s, s.batches[w]))
  }

  /** The record an event creates, if it creates one. */
  ghost predicate Creates(s: State, ev: Event, s': State, a: nat) {
    && ev.Write? && ev.w < |s.batches| && s.batches[ev.w].phase.Missing?
    && a !in s.table && a in s'.table && s'.table[a] == Created(s.batches[ev.w].config, s.batches[ev.w].phase.f)
  }

  /** Records start to count only by being created, and keep their configuration and endpoint. */
  lemma CountsStep(x: Extractor, withConfig: bool, s: State, ev: Event, s': State, a: nat)
    requires Moved(x, s, ev, s') && Orderly(withConfig, s) && Closing(s, ev) && Separate(s) && Counts(s', a)
    ensures Creates(s, ev, s', a) || Counts(s, a)
    ensures a in s.table ==>
      RecordEndpoint(s'.table[a]) == RecordEndpoint(s.table[a]) && s'.table[a].config == s.table[a].config
  {
    TargetOnly(x, withConfig, s, ev, s');
    if !ev.Edit? {
      var b, b' := s.batches[ev.w], s'.batches[ev.w];
      assert KeepsToItself(s, b);
      if w :| 0 <= w < |s'.batches| && Owes(s'.batches[w].phase, a) {
        if w == ev.w { assert Owes(b.phase, a) || (a in s.table && Live(s.table[a])); }
        else { assert Owes(s.batches[w].phase, a); }
      }
      if ev.Mark? || b.phase.Found? { assert ev.Mark? ==> Owes(b.phase, ev.id); }
    }
  }

  /** What batch `w` owes after an event is of its own configuration. */
  lemma OwnConfigStep(x: Extractor, withConfig: bool, s: State, ev: Event, s': State, w: nat, a: nat)
    requires Moved(x, s, ev, s') && Orderly(withConfig, s) && Separate(s)
    requires w < |s'.batches| && Owes(s'.batches[w].phase, a)
    ensures a in s'.table && s'.table[a].config == s'.batches[w].config
  {
    TargetOnly(x, withConfig, s, ev, s');
    assert KeepsToItself(s, s.batches[w]) && Fits(withConfig, s.table, s.batches[w]);
    if By(w, ev) && !Owes(s.batches[w].phase, a) {
      assert Turn(x, s.batches[w].config, s.table, s.batches[w].phase, ev, s'.table, s'.batches[w].phase);
      assert a in s.table && InConfig(s.batches[w].config, s.table[a]) && Configured(withConfig, s.table[a].config);
    }
  }

  /** A first search that comes up empty has seen every record that counts: those of its configuration are live. */
  lemma SearchedAll(x: Extractor, s: State, w: nat, f: Finding, a: nat)
    requires Separate(s) && Apart(ConfigsOf(s)) && w < |s.batches| && s.batches[w].phase == IDLE && Counts(s, a)
    requires Looked(x, s.table, s.batches[w].config, f, Searching(f))
    ensures !Sought(s.batches[w].config, f, s.table[a])
  {
    var r, config := s.table[a], s.batches[w].config;
    if v :| 0 <= v < |s.batches| && Owes(s.batches[v].phase, a) {
      assert KeepsToItself(s, s.batches[v]) && ConfigsOf(s)[v] != ConfigsOf(s)[w];
    } else if Sought(config, f, r) {
      ContainsOwnEndpoint(r.resource);
      assert InScope(config, EndpointIn(f.kind, f.resource).value, r);
    }
  }

  lemma SeekingStep(
    x: Extractor, withConfig: bool, s: State, ev: Event, s': State, w: nat, f: Finding, a: nat)
    requires Moved(x, s, ev, s') && Orderly(withConfig, s) && Closing(s, ev) && Separate(s) && Apart(ConfigsOf(s))
    requires w < |s'.batches| && Searches(s'.batches[w].phase, f) && Counts(s', a)
    ensures !Sought(s'.batches[w].config, f, s'.table[a])
  {
    CountsStep(x, withConfig, s, ev, s', a);
    assert KeepsToItself(s, s.batches[w]);
    if Creates(s, ev, s', a) {
      if w != ev.w { assert ConfigsOf(s)[w] != ConfigsOf(s)[ev.w]; }
    } else if ev.Look? && ev.w == w {
      SearchedAll(x, s, w, f, a);
    } else {
      assert Searches(s.batches[w].phase, f);
    }
  }

  lemma SeparatePairStep(x: Extractor, withConfig: bool, s: State, ev: Event, s': State, a: nat, b: nat)
    requires Moved(x, s, ev, s') && Orderly(withConfig, s) && Closing(s, ev) && Separate(s)
    requires Counts(s', a) && Counts(s', b) && a != b && !Creates(s, ev, s', b)
    ensures !SameEndpoint(s'.table[a], s'.table[b])
  {
    CountsStep(x, withConfig, s, ev, s', a);
    CountsStep(x, withConfig, s, ev, s', b);
    if Creates(s, ev, s', a) {
      var own := s.batches[ev.w];
      assert KeepsToItself(s, own) && Searches(own.phase, own.phase.f) && !Sought(own.config, own.phase.f, s.table[b]);
    }
  }

  lemma SeparateStep(x: Extractor, withConfig: bool, s: State, ev: Event, s': State)
    requires Moved(x, s, ev, s') && Orderly(withConfig, s) && Closing(s, ev) && Separate(s) && Apart(ConfigsOf(s))
    ensures Separate(s') && ConfigsOf(s') == ConfigsOf(s)
  {
    forall a, b | Counts(s', a) && Counts(s', b) && a != b
      ensures !SameEndpoint(s'.table[a], s'.table[b])
    {
      if Creates(s, ev, s', b) {
        CreatesOne(x, s, ev, s', a, b);
        SeparatePairStep(x, withConfig, s, ev, s', b, a);
      } else {
        SeparatePairStep(x, withConfig, s, ev, s', a, b);
      }
    }
    forall w | 0 <= w < |s'.batches|
      ensures KeepsToItself(s', s'.batches[w])
    {
      forall a | Owes(s'.batches[w].phase, a)
        ensures a in s'.table && s'.table[a].config == s'.batches[w].config
      {
        OwnConfigStep(x, withConfig, s, ev, s', w, a);
      }
      forall f, a | Searches(s'.batches[w].phase, f) && Counts(s', a)
        ensures !Sought(s'.batches[w].config, f, s'.table[a])
      {
        SeekingStep(x, withConfig, s, ev, s', w, f, a);
      }
    }
  }

  lemma CreatesOne(x: Extractor, s: State, ev: Event, s': State, a: nat, b: nat)
    requires Moved(x, s, ev, s') && Creates(s, ev, s', b) && a != b
    ensures !Creates(s, ev, s', a)
  {
  }

  lemma IdleIsSeparate(s: State)
    requires AllIdle(s) && LiveUnique(s.table)
    ensures Separate(s)
  {
  }

  lemma SeparateIsUnique(s: State)
    requires Separate(s)
    ensures LiveUnique(s.table)
  {
    assert forall a :: a in s.table && Live(s.table[a]) ==> Counts(s, a);
  }

  /** With one batch per configuration, at most one live record per configuration and endpoint, from any idle start. */
  lemma {:induction false} ApartStaysUnique(
    x: Extractor, withConfig: bool, events: seq<Event>, states: seq<State>, n: nat)
    requires OrderlyRun(x, withConfig, events, states) && Separate(states[0]) && Apart(ConfigsOf(states[0]))
    requires n <= |events|
    ensures Orderly(withConfig, states[n]) && Separate(states[n]) && ConfigsOf(states[n]) == ConfigsOf(states[0])
  {
    if n > 0 {
      var m := n - 1;
      ApartStaysUnique(x, withConfig, events, states, m);
      assert Moved(x, states[m], events[m], states[m + 1]);
      OrderlyStep(x, withConfig, states[m], events[m], states[n]);
      SeparateStep(x, withConfig, states[m], events[m], states[n]);
    }
  }

  lemma ApartAllUnique(x: Extractor, withConfig: bool, events: seq<Event>, states: seq<State>)
    requires OrderlyRun(x, withConfig, events, states) && LiveUnique(states[0].table) && AllIdle(states[0])
    requires Apart(ConfigsOf(states[0]))
    ensures AllLiveUnique(states, |events|) && AllOpenUnique(x, states, |events|)
  {
    IdleIsSeparate(states[0]);
    forall k | 0 <= k <= |events|
      ensures LiveUnique(states[k].table) && Unique(x, states[k].table)
    {
      ApartStaysUnique(x, withConfig, events, states, k);
      SeparateIsUnique(states[k]);
      LiveUniqueIsUnique(x, states[k].table);
    }
  }

  /** A finding that races can be lost on. */
  function Sample(): Finding {
    Breach("", "", Some(Bare("10.0.0." + "1")))
  }

  lemma SampleCounts()
    ensures EndpointIn(Sample().kind, Sample().resource).Some? && !AutoAcknowledge(Sample())
  {
    PrivateAddress("1");
    BareEndpoint("10.0.0." + "1");
  }

  /** Two batches of one configuration can race. */
  lemma EvenRaceBreaks(x: Extractor, c: Race)
    requires c.Even()
    ensures exists t, p, q :: Reaches(x, Start(c.configs), c.At(t, p, q)) && !Unique(x, t)
  {
    SampleCounts();
    RaceCreatesTwins(x, c, Sample());
    var r := Created(c.configs[c.v], Sample());
    TwinsNotUnique(x, map[0 := r, 1 := r]);
  }

  lemma TwinsNotUnique(x: Extractor, t: Table)
    requires 0 in t && 1 in t && Twins(x, t[0], t[1])
    ensures !Unique(x, t)
  {
  }

  /** The second batch has a configuration and does not see the first one's record. */
  lemma UnevenCreates(x: Extractor, c: Race, f: Finding)
    requires c.Valid() && c.configs[c.v].None? && c.configs[c.w].Some? && EndpointIn(f.kind, f.resource).Some?
    ensures
      var t := map[0 := Created(None, f), 1 := Created(c.configs[c.w], f)];
      Reaches(x, Start(c.configs), c.At(t, IDLE, Written(f, 1)))
  {
    var s, r0, r1 := Start(c.configs), Created(None, f), Created(c.configs[c.w], f);
    var one, two := map[0 := r0], map[0 := r0, 1 := r1];
    RaceStarts(x, c);
    FirstMoves(x, s, c, map[], IDLE, IDLE, Look(c.v, f), map[], Searching(f));
    FirstMoves(x, s, c, map[], Searching(f), IDLE, LookAgain(c.v), map[], Missing(f));
    assert map[][0 := r0] == one && one[1 := r1] == two;
    FirstMoves(x, s, c, map[], Missing(f), IDLE, Write(c.v), one, Written(f, 0));
    assert DuplicatesOf(x, one, None, f, 0) == map[];
    FirstMoves(x, s, c, one, Written(f, 0), IDLE, Fetch(c.v), one, IDLE);
    SecondMoves(x, s, c, one, IDLE, IDLE, Look(c.w, f), one, Searching(f));
    SecondMoves(x, s, c, one, IDLE, Searching(f), LookAgain(c.w), one, Missing(f));
    SecondMoves(x, s, c, one, IDLE, Missing(f), Write(c.w), two, Written(f, 1));
  }

  /** Once both have written, the first one updates the second one's record, which loses its configuration. */
  lemma UnevenRaceBreaks(x: Extractor, c: Race)
    requires c.Valid() && c.configs[c.v].None? && c.configs[c.w].Some?
    ensures exists t, p, q :: Reaches(x, Start(c.configs), c.At(t, p, q)) && !Unique(x, t)
  {
    SampleCounts();
    var f := Sample();
    UnevenCreates(x, c, f);
    var s, r0, r1 := Start(c.configs), Created(None, f), Created(c.configs[c.w], f);
    var two := map[0 := r0, 1 := r1];
    ContainsOwnEndpoint(f.resource);
    assert Looked(x, two, None, f, Found(f, 1, r1));
    FirstMoves(x, s, c, two, IDLE, Written(f, 1), Look(c.v, f), two, Found(f, 1, r1));
    var t := map[0 := r0, 1 := Rewritten(r1, r1, None, f)];
    assert two[1 := Rewritten(r1, r1, None, f)] == t;
    FirstMoves(x, s, c, two, Found(f, 1, r1), Written(f, 1), Write(c.v), t, Written(f, 1));
    TwinsNotUnique(x, t);
  }

  lemma NotApartBreaks(x: Extractor, configs: seq<Option<string>>) returns (events: seq<Event>, states: seq<State>)
    requires !Apart(configs)
    ensures ClosingRun(x, events, states) && states[0] == Start(configs)
    ensures !AllOpenUnique(x, states, |events|) && !AllLiveUnique(states, |events|)
  {
    var v, w :| 0 <= v < w < |configs| && !(configs[v].Some? && configs[w].Some? && configs[v] != configs[w]);
    var c := Race(configs, if configs[v].None? then v else w, if configs[v].None? then w else v);
    if c.Even() { EvenRaceBreaks(x, c); } else { UnevenRaceBreaks(x, c); }
    var t, p, q :| Reaches(x, Start(c.configs), c.At(t, p, q)) && !Unique(x, t);
    events, states :|
      Interleaving(x, events, states) && states[0] == Start(configs) && states[|events|] == c.At(t, p, q)
      && NoEdits(events);
    NotUniqueAtEnd(x, states, |events|);
  }

  lemma NotUniqueAtEnd(x: Extractor, states: seq<State>, n: nat)
    requires n < |states| && !Unique(x, states[n].table)
    ensures !AllOpenUnique(x, states, n) && !AllLiveUnique(states, n)
  {
    if LiveUnique(states[n].table) { LiveUniqueIsUnique(x, states[n].table); }
  }

  /** Batches apart are alike: none, one, or all with a configuration. */
  lemma ApartStartsOrderly(configs: seq<Option<string>>) returns (withConfig: bool)
    requires Apart(configs)
    ensures Orderly(withConfig, Start(configs)) && ConfigsOf(Start(configs)) == configs
  {
    withConfig := configs != [] && configs[0].Some?;
  }

  /**
   Whatever the findings, the interleaving and the operators who bring no closed record back: at most one live record
   per configuration and endpoint exists throughout, exactly when no two batches can reach the same records - all carry
   a configuration and no two the same, or there is only one batch. The same goes for open records of one source.
   */
  lemma UniqueIffApart(x: Extractor, configs: seq<Option<string>>)
    ensures
      (forall events, states :: ClosingRun(x, events, states) && states[0] == Start(configs) ==>
        AllLiveUnique(states, |events|)) <==> Apart(configs)
    ensures
      (forall events, states :: ClosingRun(x, events, states) && states[0] == Start(configs) ==>
        AllOpenUnique(x, states, |events|)) <==> Apart(configs)
  {
    if Apart(configs) {
      var withConfig := ApartStartsOrderly(configs);
      forall events, states | ClosingRun(x, events, states) && states[0] == Start(configs)
        ensures AllLiveUnique(states, |events|) && AllOpenUnique(x, states, |events|)
      {
        ApartAllUnique(x, withConfig, events, states);
      }
    } else {
      var events, states := NotApartBreaks(x, configs);
    }
  }

  // ---------- Undisturbed processing is one step ----------

  /** The duplicates not yet acknowledged are as they were fetched; everything else is as after the whole loop. */
  ghost predicate PartlyMarked(
    x: Extractor, u: Table, config: Option<string>, f: Finding, keeper: nat, todo: Table, t: Table) {
    && t.Keys == u.Keys && todo.Keys <= u.Keys
    && (forall id :: id in todo ==> todo[id] == u[id] && t[id] == u[id] && Duplicate(x, config, f, keeper, id, u[id]))
    && (forall id :: id in u && id !in todo ==> t[id] == Collapse(x, u, config, f, keeper)[id])
  }

  /** How far the finding has come, all writes since table `t0` being the batch's own. */
  ghost predicate Partial(x: Extractor, t0: Table, config: Option<string>, f: Finding, p: Phase, t: Table) {
    match p
    case Searching(g) =>
      && g == f && t == t0
      && var e := EndpointIn(f.kind, f.resource); e.Some? ==> forall j :: j in t0 ==> !InScope(config, e.value, t0[j])
    case Found(g, id, seen) => g == f && t == t0 && id in t0 && seen == t0[id] && MayFind(x, t0, config, f, Some(id))
    case Missing(g) => g == f && t == t0 && MayFind(x, t0, config, f, None)
    case Written(g, keeper) => g == f && Stored(x, t0, config, f, t, keeper)
    case Marking(todo) =>
      exists u, keeper :: Stored(x, t0, config, f, u, keeper) && PartlyMarked(x, u, config, f, keeper, todo, t)
  }

  lemma LookStarts(x: Extractor, t: Table, config: Option<string>, p: Phase, f: Finding, t': Table, p': Phase, w: nat)
    requires Turn(x, config, t, p, Look(w, f), t', p')
    ensures Partial(x, t, config, f, p', t')
  {
  }

  lemma WriteTurn(
    x: Extractor, t0: Table, config: Option<string>, f: Finding, t: Table, p: Phase, w: nat, t': Table, p': Phase)
    requires Partial(x, t0, config, f, p, t) && Turn(x, config, t, p, Write(w), t', p')
    ensures Partial(x, t0, config, f, p', t')
  {
    if p.Found? { assert Rewritten(t[p.id], t[p.id], config, f) == Refreshed(t[p.id], config, f); }
    assert Stored(x, t0, config, f, t', p'.keeper);
  }

  lemma MarkTurn(
    x: Extractor, u: Table, config: Option<string>, f: Finding, keeper: nat, todo: Table, t: Table, id: nat)
    requires PartlyMarked(x, u, config, f, keeper, todo, t) && id in todo
    ensures PartlyMarked(x, u, config, f, keeper, todo - {id}, t[id := Marked(t[id], todo[id])])
  {
    assert Marked(t[id], todo[id]) == Deduplicated(u[id]);
  }

  lemma PartialTurn(
    x: Extractor, t0: Table, config: Option<string>, f: Finding, t: Table, p: Phase, ev: Event, t': Table,
    p': Phase)
    requires Partial(x, t0, config, f, p, t) && Turn(x, config, t, p, ev, t', p') && !ev.Look?
    ensures Partial(x, t0, config, f, p', t')
  {
    match ev
    case LookAgain(_) =>
    case Write(w) => WriteTurn(x, t0, config, f, t, p, w, t', p');
    case Fetch(_) => assert PartlyMarked(x, t, config, f, p.keeper, p'.todo, t');
    case Mark(_, id) =>
      var u, keeper :| Stored(x, t0, config, f, u, keeper) && PartlyMarked(x, u, config, f, keeper, p.todo, t);
      MarkTurn(x, u, config, f, keeper, p.todo, t, id);
  }

  /** A finding that comes through undisturbed is processed as in one step. */
  lemma PartialDone(x: Extractor, t0: Table, config: Option<string>, f: Finding, t: Table)
    requires Partial(x, t0, config, f, IDLE, t)
    ensures Processed(x, t0, config, f, t)
  {
    var u, keeper :| Stored(x, t0, config, f, u, keeper) && PartlyMarked(x, u, config, f, keeper, map[], t);
    assert t == Collapse(x, u, config, f, keeper);
  }

  predicate IdleBut(s: State, w: nat) {
    forall v :: 0 <= v < |s.batches| && v != w ==> s.batches[v].phase == IDLE
  }

  /** While a batch is processing a finding, nobody else acts. */
  ghost predicate Undisturbed(events: seq<Event>, states: seq<State>) {
    forall n, w :: 0 <= n < |events| && n < |states| && 0 <= w < |states[n].batches| ==>
      states[n].batches[w].phase == IDLE || By(w, events[n])
  }

  /** The step of the one-step machine that an event begins. */
  function StepOf(s: State, ev: Event): Option<Step> {
    match ev
    case Look(w, f) => if w < |s.batches| then Some(Process(s.batches[w].config, f)) else None
    case Edit(id, status, notes) => Some(Step.Edit(id, status, notes))
    case _ => None
  }

  /** Each step was begun by an event, in order, at the table that event saw. */
  ghost predicate Begun(events: seq<Event>, states: seq<State>, steps: seq<Step>, tables: seq<Table>, at: seq<nat>) {
    && |at| == |steps| && |tables| == |steps| + 1
    && (forall i :: 0 <= i < |at| ==>
      at[i] < |events| && at[i] < |states| && StepOf(states[at[i]], events[at[i]]) == Some(steps[i])
                                      && tables[i] == states[at[i]].table)
    && (forall i, j :: 0 <= i < j < |at| ==> at[i] < at[j])
  }

  /** Where the run stands: between findings, or inside one that event `begin` began. */
  datatype Standing = Between | Inside(w: nat, f: Finding, begin: nat)

  ghost predicate Stands(
    x: Extractor, events: seq<Event>, states: seq<State>, n: nat, steps: seq<Step>, tables: seq<Table>,
    at: seq<nat>, where: Standing) {
    && n < |states| && Trace(x, steps, tables) && tables[0] == states[0].table
      && Begun(events, states, steps, tables, at)
    && (forall i :: 0 <= i < |at| ==> at[i] < n)
    && var last := tables[|steps|];
    match where
    case Between => AllIdle(states[n]) && last == states[n].table
    case Inside(w, f, begin) =>
      && w < |states[n].batches| && IdleBut(states[n], w) && states[n].batches[w].phase != IDLE
      && begin < n && begin < |events| && states[begin].table == last
      && StepOf(states[begin], events[begin]) == Some(Process(states[n].batches[w].config, f))
      && (forall i :: 0 <= i < |at| ==> at[i] < begin)
      && Partial(x, last, states[n].batches[w].config, f, states[n].batches[w].phase, states[n].table)
  }

  lemma TraceSnoc(x: Extractor, steps: seq<Step>, tables: seq<Table>, s: Step, t: Table)
    requires Trace(x, steps, tables) && Next(x, tables[|steps|], s, t)
    ensures Trace(x, steps + [s], tables + [t])
  {
  }

  lemma BegunSnoc(
    events: seq<Event>, states: seq<State>, steps: seq<Step>, tables: seq<Table>, at: seq<nat>, begin: nat,
    s: Step, t: Table)
    requires Begun(events, states, steps, tables, at) && begin < |events| && begin < |states|
    requires StepOf(states[begin], events[begin]) == Some(s) && tables[|steps|] == states[begin].table
    requires forall i :: 0 <= i < |at| ==> at[i] < begin
    ensures Begun(events, states, steps + [s], tables + [t], at + [begin])
  {
  }

  lemma StandsNext(
    x: Extractor, events: seq<Event>, states: seq<State>, n: nat, steps: seq<Step>, tables: seq<Table>,
    at: seq<nat>, where: Standing)
    returns (steps': seq<Step>, tables': seq<Table>, at': seq<nat>, where': Standing)
    requires Interleaving(x, events, states) && Undisturbed(events, states) && n < |events|
    requires Stands(x, events, states, n, steps, tables, at, where)
    ensures Stands(x, events, states, n + 1, steps', tables', at', where')
  {
    var s, ev, s' := states[n], events[n], states[n + 1];
    var last := tables[|steps|];
    assert Moved(x, s, ev, s');
    steps', tables', at', where' := steps, tables, at, where;
    match where
    case Between =>
      if ev.Edit? {
        var step := Step.Edit(ev.id, ev.status, ev.notes);
        TraceSnoc(x, steps, tables, step, s'.table);
        BegunSnoc(events, states, steps, tables, at, n, step, s'.table);
        steps', tables', at' := steps + [step], tables + [s'.table], at + [n];
      } else {
        assert s.batches[ev.w].phase == IDLE;
        LookStarts(x, s.table, s.batches[ev.w].config, IDLE, ev.f, s'.table, s'.batches[ev.w].phase, ev.w);
        where' := Inside(ev.w, ev.f, n);
      }
    case Inside(w, f, begin) =>
      assert By(w, ev);
      var config, p' := s.batches[w].config, s'.batches[w].phase;
      PartialTurn(x, last, config, f, s.table, s.batches[w].phase, ev, s'.table, p');
      if p' == IDLE {
        PartialDone(x, last, config, f, s'.table);
        var step := Process(config, f);
        TraceSnoc(x, steps, tables, step, s'.table);
        BegunSnoc(events, states, steps, tables, at, begin, step, s'.table);
        steps', tables', at', where' := steps + [step], tables + [s'.table], at + [begin], Between;
      }
  }

  /**
   If nobody else acts while a batch is processing a finding, the run is one of the one-step machine, each finding
   taking effect on the table its first query saw.
   */
  lemma {:induction false} UndisturbedIsAtomic(x: Extractor, events: seq<Event>, states: seq<State>, n: nat)
    returns (steps: seq<Step>, tables: seq<Table>, at: seq<nat>, where: Standing)
    requires Interleaving(x, events, states) && Undisturbed(events, states) && n <= |events| && AllIdle(states[0])
    ensures Stands(x, events, states, n, steps, tables, at, where)
  {
    if n == 0 {
      steps, tables, at, where := [], [states[0].table], [], Between;
    } else {
      steps, tables, at, where := UndisturbedIsAtomic(x, events, states, n - 1);
      steps, tables, at, where := StandsNext(x, events, states, n - 1, steps, tables, at, where);
    }
  }

  /** Findings name resources of the pool; operators do not reopen records. */
  ghost predicate PooledEvent(pool: set<string>, s: State, ev: Event) {
    match StepOf(s, ev)
    case None => true
    case Some(step) => Pooled(pool, s.table, step)
  }

  /** So what holds over all runs of one-step processing holds here between findings - uniqueness, for one. */
  lemma UndisturbedRunsStayUnique(x: Extractor, pool: set<string>, events: seq<Event>, states: seq<State>)
    requires Interleaving(x, events, states) && Undisturbed(events, states) && Alike(pool)
    requires AllIdle(states[0]) && states[0].table == map[] && AllIdle(states[|events|])
    requires forall n :: 0 <= n < |events| ==> PooledEvent(pool, states[n], events[n])
    ensures Unique(x, states[|events|].table)
  {
    var steps, tables, at, where := UndisturbedIsAtomic(x, events, states, |events|);
    assert where == Between;
    forall i | 0 <= i < |steps|
      ensures Pooled(pool, tables[i], steps[i])
    {
      assert PooledEvent(pool, states[at[i]], events[at[i]]);
    }
    MixedRunStaysUnique(x, pool, steps, tables, |steps|);
  }
}
