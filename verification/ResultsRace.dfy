/**
 Stored results at their awaits (backend/src/mqtt/index.ts and its peers): every handler reads the test run's record,
 builds the new one from its reading, and writes it, while other handlers do the same.
 */
module ResultsRace {
  import opened Wrappers
  import opened JsonValue
  import opened ResultsJson

  // ---------- Steps between awaits ----------

  const RESULT_KEYS := {"commandResults", "results", "command_results"}

  /** What a handler has to write: results that arrived, or metadata, which never holds results. */
  datatype Change = Arrived(d: Delivery) | Noted(patch: Fields)

  predicate Proper(c: Change) {
    c.Noted? ==> c.patch.Keys !! RESULT_KEYS
  }

  function Outcome(reading: Json, c: Change): Json {
    match c
    case Arrived(d) => Obj(Build(reading, d.payload, d.patch))
    case Noted(patch) => Obj(MergeFields(AsFields(Some(reading)), patch))
  }

  function ResultsOf(stored: Json): seq<Json> {
    CommandResults(AsFields(Some(stored)))
  }

  /** The result list a change brings; the timeout's is empty. */
  function Brings(c: Change): seq<Json> {
    if c.Arrived? then ResultsOf(c.d.payload) else []
  }

  datatype Event = Read(w: nat) | Write(w: nat, c: Change)

  /** The stored record, and the readings of handlers that have not written yet. */
  datatype State = State(stored: Json, readings: map<nat, Json>)

  predicate Moved(s: State, ev: Event, s': State) {
    match ev
    case Read(w) => w !in s.readings && s' == s.(readings := s.readings[w := s.stored])
    case Write(w, c) => w in s.readings && Proper(c) && s' == State(Outcome(s.readings[w], c), s.readings - {w})
  }

  ghost predicate Run(events: seq<Event>, states: seq<State>) {
    |states| == |events| + 1 && forall n :: 0 <= n < |events| ==> Moved(states[n], events[n], states[n + 1])
  }

  /** What is stored lists what the change brings, or else what the handler has read. */
  lemma OutcomeResults(reading: Json, c: Change)
    requires Proper(c)
    ensures ResultsOf(Outcome(reading, c)) == Newer(Brings(c), ResultsOf(reading))
  {
    match c
    case Arrived(d) =>
      BuiltResults(reading, d.payload, d.patch);
    case Noted(patch) =>
      var current := AsFields(Some(reading));
      forall k | k in RESULT_KEYS
        ensures Items(MergeFields(current, patch), k) == Items(current, k)
      {
        MergeAt(current, patch, k);
      }
  }

  // ---------- A run follows the lists written ----------

  /** The last nonempty list written, or the first one. */
  function Latest(first: seq<Json>, events: seq<Event>): seq<Json> {
    if events == [] then first
    else
      var last := |events| - 1;
      if events[last].Write? && Brings(events[last].c) != [] then Brings(events[last].c)
      else Latest(first, events[..last])
  }

  ghost predicate Follows(first: seq<Json>, events: seq<Event>, states: seq<State>, n: nat) {
    n <= |events| && n < |states| && ResultsOf(states[n].stored) == Latest(first, events[..n])
  }

  /** The write at k was built from the reading made at r. */
  ghost predicate ReadFor(events: seq<Event>, r: nat, k: nat) {
    && r < k < |events| && events[k].Write? && events[r] == Read(events[k].w)
    && forall i :: r < i < k ==> events[i].w != events[k].w
  }

  /** An empty list is written from a reading that another list has overtaken. */
  ghost predicate Overtaken(first: seq<Json>, events: seq<Event>, r: nat, k: nat) {
    ReadFor(events, r, k) && Brings(events[k].c) == [] && Latest(first, events[..r]) != Latest(first, events[..k])
  }

  /** Every reading that is held was made at some step, and its handler has done nothing since. */
  lemma {:induction false} Held(events: seq<Event>, states: seq<State>, n: nat, w: nat) returns (r: nat)
    requires Run(events, states) && states[0].readings == map[] && n <= |events| && w in states[n].readings
    ensures r < n && events[r] == Read(w) && states[n].readings[w] == states[r].stored
    ensures forall i :: r < i < n ==> events[i].w != w
  {
    var m := n - 1;
    assert Moved(states[m], events[m], states[m + 1]);
    if events[m] == Read(w) { r := m; } else { r := Held(events, states, m, w); }
  }

  lemma LatestNext(first: seq<Json>, events: seq<Event>, k: nat)
    requires k < |events|
    ensures Latest(first, events[..k + 1]) ==
      if events[k].Write? && Brings(events[k].c) != [] then Brings(events[k].c) else Latest(first, events[..k])
  {
    assert events[..k + 1][..k] == events[..k];
  }

  /** A write follows the lists written exactly if its reading was not overtaken. */
  lemma WriteFollows(first: seq<Json>, events: seq<Event>, states: seq<State>, k: nat) returns (r: nat)
    requires Run(events, states) && states[0].readings == map[] && k < |events| && events[k].Write?
    ensures ReadFor(events, r, k)
    ensures Follows(first, events, states, r) ==>
      (Follows(first, events, states, k + 1) <==> !Overtaken(first, events, r, k))
  {
    assert Moved(states[k], events[k], states[k + 1]);
    r := Held(events, states, k, events[k].w);
    OutcomeResults(states[k].readings[events[k].w], events[k].c);
    LatestNext(first, events, k);
  }

  lemma ReadFollows(first: seq<Json>, events: seq<Event>, states: seq<State>, k: nat)
    requires Run(events, states) && k < |events| && events[k].Read?
    ensures Follows(first, events, states, k + 1) <==> Follows(first, events, states, k)
  {
    assert Moved(states[k], events[k], states[k + 1]);
    LatestNext(first, events, k);
  }

  lemma {:induction false} UnovertakenFollows(first: seq<Json>, events: seq<Event>, states: seq<State>, n: nat)
    requires Run(events, states) && states[0].readings == map[] && first == ResultsOf(states[0].stored)
    requires n <= |events| && forall r, k :: !Overtaken(first, events, r, k)
    ensures forall m :: 0 <= m <= n ==> Follows(first, events, states, m)
  {
    if n == 0 {
      assert events[..0] == [];
    } else {
      var k := n - 1;
      UnovertakenFollows(first, events, states, k);
      if events[k].Read? {
        ReadFollows(first, events, states, k);
      } else {
        var r := WriteFollows(first, events, states, k);
      }
    }
  }

  lemma OneReading(events: seq<Event>, r: nat, r': nat, k: nat)
    requires ReadFor(events, r, k) && ReadFor(events, r', k)
    ensures r == r'
  {
  }

  /**
   Throughout a run the stored results are the last nonempty list written, exactly when no empty delivery - and no
   metadata - is written from a reading that a different list has overtaken since.
   */
  lemma ResultsFollowIff(events: seq<Event>, states: seq<State>)
    requires Run(events, states) && states[0].readings == map[]
    ensures
      var first := ResultsOf(states[0].stored);
      (forall n :: 0 <= n <= |events| ==> Follows(first, events, states, n))
      <==> (forall r, k :: !Overtaken(first, events, r, k))
  {
    var first := ResultsOf(states[0].stored);
    if forall r, k :: !Overtaken(first, events, r, k) {
      UnovertakenFollows(first, events, states, |events|);
    }
    if forall n :: 0 <= n <= |events| ==> Follows(first, events, states, n) {
      forall r, k | ReadFor(events, r, k)
        ensures !Overtaken(first, events, r, k)
      {
        var r' := WriteFollows(first, events, states, k);
        OneReading(events, r, r', k);
        var next := k + 1;
        assert Follows(first, events, states, r) && Follows(first, events, states, next);
      }
    }
  }

  // ---------- What a state can still lose ----------

  ghost predicate BringNothing(events: seq<Event>) {
    forall n :: 0 <= n < |events| && events[n].Write? ==> Brings(events[n].c) == []
  }

  /** Deliveries without results, and metadata, never change the results, however they interleave. */
  ghost predicate ResultsLast(s: State) {
    forall events, states :: Run(events, states) && states[0] == s && BringNothing(events) ==> EndsWith(states, s)
  }

  ghost predicate EndsWith(states: seq<State>, s: State) {
    states != [] && ResultsOf(states[|states| - 1].stored) == ResultsOf(s.stored)
  }

  /** All readings list what is stored. */
  ghost predicate Agreed(s: State, results: seq<Json>) {
    ResultsOf(s.stored) == results && forall w :: w in s.readings ==> ResultsOf(s.readings[w]) == results
  }

  lemma {:induction false} AgreedRun(events: seq<Event>, states: seq<State>, results: seq<Json>, n: nat)
    requires Run(events, states) && BringNothing(events) && Agreed(states[0], results) && n <= |events|
    ensures Agreed(states[n], results)
  {
    if n > 0 {
      var m := n - 1;
      AgreedRun(events, states, results, m);
      assert Moved(states[m], events[m], states[m + 1]);
      if events[m].Write? { OutcomeResults(states[m].readings[events[m].w], events[m].c); }
    }
  }

  /** Empty deliveries can change the results stored exactly if some handler still holds a reading with others. */
  lemma ResultsLastIff(s: State)
    ensures ResultsLast(s) <==> forall w :: w in s.readings ==> ResultsOf(s.readings[w]) == ResultsOf(s.stored)
  {
    if Agreed(s, ResultsOf(s.stored)) {
      forall events, states | Run(events, states) && states[0] == s && BringNothing(events)
        ensures EndsWith(states, s)
      {
        AgreedRun(events, states, ResultsOf(s.stored), |events|);
      }
    } else {
      var w :| w in s.readings && ResultsOf(s.readings[w]) != ResultsOf(s.stored);
      var c := Noted(map[]);
      OutcomeResults(s.readings[w], c);
      var events, states := [Write(w, c)], [s, State(Outcome(s.readings[w], c), s.readings - {w})];
      assert Run(events, states) && BringNothing(events) && !EndsWith(states, s);
    }
  }

  // ---------- The timeout against the results ----------

  /** The payload of the timeout and of an assembly that failed. */
  function NoResults(patch: Fields): Change {
    Arrived(Delivery(Obj(map["results" := Arr([])]), patch))
  }

  lemma NoResultsBrought(patch: Fields)
    ensures Brings(NoResults(patch)) == []
  {
  }

  lemma WriteMoves(s: State, w: nat, c: Change)
    requires w in s.readings && Proper(c)
    ensures Moved(s, Write(w, c), State(Outcome(s.readings[w], c), s.readings - {w}))
  {
  }

  lemma TwoReadings(stored: Json)
    ensures map[0 := stored][1 := stored] == map[0 := stored, 1 := stored]
    ensures map[0 := stored, 1 := stored] - {1} == map[0 := stored] && map[0 := stored] - {0} == map[]
  {
  }

  lemma FourSteps(
    s0: State, e0: Event, s1: State, e1: Event, s2: State, e2: Event, s3: State, e3: Event, s4: State)
    requires Moved(s0, e0, s1) && Moved(s1, e1, s2) && Moved(s2, e2, s3) && Moved(s3, e3, s4)
    ensures Run([e0, e1, e2, e3], [s0, s1, s2, s3, s4])
  {
    var events, states := [e0, e1, e2, e3], [s0, s1, s2, s3, s4];
    forall n | 0 <= n < 4
      ensures Moved(states[n], events[n], states[n + 1])
    {
      if n == 0 {
      } else if n == 1 {
      } else if n == 2 {
      } else {
        assert n == 3;
      }
    }
  }

  /** Two handlers read before either writes, and the first to read is the last to write. */
  lemma TwoHandlers(stored: Json, c: Change, d: Change) returns (events: seq<Event>, states: seq<State>)
    requires Proper(c) && Proper(d)
    ensures events == [Read(0), Read(1), Write(1, d), Write(0, c)] && Run(events, states)
    ensures states[0] == State(stored, map[]) && states[4] == State(Outcome(stored, c), map[])
    ensures states[3].stored == Outcome(stored, d)
  {
    var s1, s2 := State(stored, map[0 := stored]), State(stored, map[0 := stored, 1 := stored]);
    var s3, s4 := State(Outcome(stored, d), map[0 := stored]), State(Outcome(stored, c), map[]);
    TwoReadings(stored);
    WriteMoves(s2, 1, d);
    WriteMoves(s3, 0, c);
    var s0 := State(stored, map[]);
    FourSteps(s0, Read(0), s1, Read(1), s2, Write(1, d), s3, Write(0, c), s4);
    events, states := [Read(0), Read(1), Write(1, d), Write(0, c)], [s0, s1, s2, s3, s4];
  }

  /**
   The results arrive while the timeout's handler has read the record and not yet written it: they are stored, and then
   whatever was there before is put back.
   */
  lemma TimeoutErasesResults(stored: Json, full: Delivery, patch: Fields)
    returns (events: seq<Event>, states: seq<State>)
    requires ResultsOf(full.payload) != []
    ensures events == [Read(0), Read(1), Write(1, Arrived(full)), Write(0, NoResults(patch))]
    ensures Run(events, states) && states[0] == State(stored, map[])
    ensures ResultsOf(states[3].stored) == ResultsOf(full.payload)
    ensures ResultsOf(states[4].stored) == ResultsOf(stored)
  {
    NoResultsBrought(patch);
    OutcomeResults(stored, Arrived(full));
    OutcomeResults(stored, NoResults(patch));
    events, states := TwoHandlers(stored, NoResults(patch), Arrived(full));
  }

  // ---------- Undisturbed deliveries ----------

  /** Every write directly follows its read. */
  ghost predicate Undisturbed(events: seq<Event>) {
    forall k :: 0 <= k < |events| && events[k].Write? ==> k > 0 && events[k - 1] == Read(events[k].w)
  }

  ghost predicate OnlyResults(events: seq<Event>) {
    forall k :: 0 <= k < |events| && events[k].Write? ==> events[k].c.Arrived?
  }

  function DeliveriesIn(events: seq<Event>): seq<Delivery> {
    if events == [] then []
    else
      var last := |events| - 1;
      var before := DeliveriesIn(events[..last]);
      if events[last].Write? && events[last].c.Arrived? then before + [events[last].c.d] else before
  }

  lemma DeliverNext(stored: Json, ds: seq<Delivery>, d: Delivery)
    ensures Deliver(stored, ds + [d]) == Outcome(Deliver(stored, ds), Arrived(d))
  {
    assert (ds + [d])[..|ds|] == ds;
  }

  lemma OneMore(stored: Json, ds: seq<Delivery>, ev: Event, before: Json, after: Json)
    requires before == Deliver(stored, ds) && (ev.Write? ==> ev.c.Arrived?)
    requires after == if ev.Write? then Outcome(before, ev.c) else before
    ensures after == Deliver(stored, if ev.Write? then ds + [ev.c.d] else ds)
  {
    if ev.Write? { DeliverNext(stored, ds, ev.c.d); }
  }

  lemma DeliveriesNext(events: seq<Event>, k: nat)
    requires k < |events|
    ensures
      var ds := DeliveriesIn(events[..k]);
      DeliveriesIn(events[..k + 1]) == if events[k].Write? && events[k].c.Arrived? then ds + [events[k].c.d] else ds
  {
    assert events[..k + 1][..k] == events[..k];
  }

  /** An undisturbed write is built from what is stored. */
  lemma UndisturbedStep(events: seq<Event>, states: seq<State>, k: nat)
    requires Run(events, states) && Undisturbed(events) && k < |events|
    ensures states[k + 1].stored ==
      if events[k].Write? then Outcome(states[k].stored, events[k].c) else states[k].stored
  {
    assert Moved(states[k], events[k], states[k + 1]);
    if events[k].Write? {
      var j := k - 1;
      assert Moved(states[j], events[j], states[j + 1]);
    }
  }

  /** Then the record is what delivering one after the other makes it. */
  lemma {:induction false} UndisturbedDelivers(events: seq<Event>, states: seq<State>, n: nat)
    requires Run(events, states) && Undisturbed(events) && n <= |events|
    requires OnlyResults(events)
    ensures states[n].stored == Deliver(states[0].stored, DeliveriesIn(events[..n]))
  {
    if n == 0 {
      assert events[..0] == [];
    } else {
      var k := n - 1;
      UndisturbedDelivers(events, states, k);
      UndisturbedStep(events, states, k);
      DeliveriesNext(events, k);
      OneMore(states[0].stored, DeliveriesIn(events[..k]), events[k], states[k].stored, states[n].stored);
    }
  }

  // ---------- The program ----------

  /** The test run's row, and the local variables of the handlers that have read it. */
  class TestRunRow {
    var resultsJson: Json
    var readings: map<nat, Json>

    ghost function Now(): State
      reads this
    {
      State(resultsJson, readings)
    }

    constructor (stored: Json)
      ensures Now() == State(stored, map[])
    {
      resultsJson, readings := stored, map[];
    }

    /** The query of a handler that has not read yet. */
    method FindUnique(w: nat)
      requires w !in readings
      modifies this`readings
      ensures Moved(old(Now()), Read(w), Now())
    {
      readings := readings[w := resultsJson];
    }

    /** Results, or their absence, built into what the handler has read. */
    method UpdateResults(w: nat, payload: Json, patch: Fields)
      requires w in readings
      modifies this
      ensures Moved(old(Now()), Write(w, Arrived(Delivery(payload, patch))), Now())
    {
      var record := BuildStructuredResultsJson(readings[w], payload, patch);
      resultsJson, readings := Obj(record), readings - {w};
    }

    /** A metadata patch merged into what the handler has read. */
    method MergePatch(w: nat, patch: Fields)
      requires w in readings && patch.Keys !! RESULT_KEYS
      modifies this
      ensures Moved(old(Now()), Write(w, Noted(patch)), Now())
    {
      var merged := MergeObjects(AsFields(Some(readings[w])), patch);
      resultsJson, readings := Obj(merged), readings - {w};
    }
  }
}
