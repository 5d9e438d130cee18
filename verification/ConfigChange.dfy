/**
 The configuration change log (backend/src/services/configChangeService.ts): diffing two
 snapshots of one resource type, seeding an ACL baseline, and what the recorded rows replay to.
 */
module ConfigChange {
  import opened Wrappers
  import opened JsonValue
  import opened StableStringify

  /** A resource's id, as the key of a JavaScript Map: missing ids share the key undefined. */
  type Id = Option<string>

  type IdTable = map<Id, Doc>

  datatype Change =
    | Created(id: Id, name: string, newValue: Doc)
    | Modified(id: Id, name: string, previousValue: Doc, newValue: Doc)
    | Deleted(id: Id, name: string, previousValue: Doc)

  /** How a resource type is keyed and labelled; the ACL baseline has a key of its own. */
  datatype Kind = Kind(getId: Doc -> Id, getName: Doc -> string, seedId: Doc -> Id, seedName: Doc -> string)

  ghost predicate AllValid(snapshot: seq<Doc>) {
    forall i :: 0 <= i < |snapshot| ==> Valid(snapshot[i])
  }

  // ---------- Meaning ----------

  /** The id map of a snapshot; a repeated id keeps its last resource. */
  function IdMap(kind: Kind, snapshot: seq<Doc>): IdTable {
    if snapshot == [] then map[]
    else
      var last := |snapshot| - 1;
      IdMap(kind, snapshot[..last])[kind.getId(snapshot[last]) := snapshot[last]]
  }

  /** A resource is in the id map exactly if nothing later in the snapshot has its id. */
  lemma {:induction false} IdMapHoldsLast(kind: Kind, snapshot: seq<Doc>, id: Id)
    ensures id in IdMap(kind, snapshot) <==> exists i :: 0 <= i < |snapshot| && kind.getId(snapshot[i]) == id
    ensures id in IdMap(kind, snapshot) ==>
      exists i :: 0 <= i < |snapshot| && kind.getId(snapshot[i]) == id && IdMap(kind, snapshot)[id] == snapshot[i]
                  && forall j :: i < j < |snapshot| ==> kind.getId(snapshot[j]) != id
  {
    if snapshot != [] {
      var last := |snapshot| - 1;
      var front := snapshot[..last];
      IdMapHoldsLast(kind, front, id);
      if kind.getId(snapshot[last]) != id {
        if i :| 0 <= i < |front| && kind.getId(front[i]) == id { assert kind.getId(snapshot[i]) == id; }
        if i :| 0 <= i < |snapshot| && kind.getId(snapshot[i]) == id { assert kind.getId(front[i]) == id; }
        if id in IdMap(kind, front) {
          var i :| 0 <= i < |front| && kind.getId(front[i]) == id && IdMap(kind, front)[id] == front[i]
                   && forall j :: i < j < |front| ==> kind.getId(front[j]) != id;
          assert forall j :: i < j < |snapshot| ==> kind.getId(snapshot[j]) != id;
        }
      }
    }
  }

  /** An id map up to key order inside the resources. */
  ghost function Meaning(m: IdTable): map<Id, Json> {
    map id | id in m :: Value(m[id])
  }

  ghost predicate Differs(prev: IdTable, cur: IdTable, id: Id) {
    if id in prev && id in cur then Value(prev[id]) != Value(cur[id]) else id in prev || id in cur
  }

  /** The row that a differing id calls for. */
  function RowFor(kind: Kind, prev: IdTable, cur: IdTable, id: Id): Change
    requires id in prev || id in cur
  {
    if id !in cur then Deleted(id, kind.getName(prev[id]), prev[id])
    else if id !in prev then Created(id, kind.getName(cur[id]), cur[id])
    else Modified(id, kind.getName(cur[id]), prev[id], cur[id])
  }

  /** Among the ids seen: exactly one row per differing id, saying what happened to it. */
  ghost predicate DiffOf(kind: Kind, prev: IdTable, cur: IdTable, seen: set<Id>, rows: seq<Change>) {
    && (forall k :: 0 <= k < |rows| ==>
          rows[k].id in seen && Differs(prev, cur, rows[k].id) && rows[k] == RowFor(kind, prev, cur, rows[k].id))
    && (forall k, l :: 0 <= k < l < |rows| ==> rows[k].id != rows[l].id)
    && (forall id :: id in seen && Differs(prev, cur, id) ==> Logged(rows, id))
  }

  ghost predicate IsDiff(kind: Kind, prev: IdTable, cur: IdTable, rows: seq<Change>) {
    DiffOf(kind, prev, cur, prev.Keys + cur.Keys, rows)
  }

  ghost predicate Logged(rows: seq<Change>, id: Id) {
    exists k :: 0 <= k < |rows| && rows[k].id == id
  }

  function ApplyRow(m: IdTable, row: Change): IdTable {
    if row.Deleted? then m - {row.id} else m[row.id := row.newValue]
  }

  function Replay(m: IdTable, rows: seq<Change>): IdTable
    decreases |rows|
  {
    if rows == [] then m else Replay(ApplyRow(m, rows[0]), rows[1..])
  }

  // ---------- The program ----------

  /** A JavaScript Map: entries are visited in the order their keys were first inserted. */
  datatype OrderedMap = OrderedMap(keys: seq<Id>, entries: IdTable) {

    ghost predicate Valid() {
      && (forall i, j :: 0 <= i < j < |keys| ==> keys[i] != keys[j])
      && (forall id :: id in keys <==> id in entries)
    }
  }

  method BuildMap(kind: Kind, snapshot: seq<Doc>) returns (m: OrderedMap)
    ensures m.Valid() && m.entries == IdMap(kind, snapshot)
  {
    m := OrderedMap([], map[]);
    for i := 0 to |snapshot|
      invariant m.Valid() && m.entries == IdMap(kind, snapshot[..i])
    {
      assert snapshot[..i + 1][..i] == snapshot[..i];
      var id := kind.getId(snapshot[i]);
      m := OrderedMap(if id in m.entries then m.keys else m.keys + [id], m.entries[id := snapshot[i]]);
    }
    assert snapshot[..|snapshot|] == snapshot;
  }

  lemma {:induction false} IdMapValid(kind: Kind, snapshot: seq<Doc>, id: Id)
    requires AllValid(snapshot) && id in IdMap(kind, snapshot)
    ensures Valid(IdMap(kind, snapshot)[id])
  {
    var last := |snapshot| - 1;
    if kind.getId(snapshot[last]) != id { IdMapValid(kind, snapshot[..last], id); }
  }

  lemma DiffSees(kind: Kind, prev: IdTable, cur: IdTable, seen: set<Id>, rows: seq<Change>, id: Id, row: seq<Change>)
    requires DiffOf(kind, prev, cur, seen, rows) && id !in seen && (id in prev || id in cur)
    requires row == if Differs(prev, cur, id) then [RowFor(kind, prev, cur, id)] else []
    ensures DiffOf(kind, prev, cur, seen + {id}, rows + row)
  {
    var rows' := rows + row;
    forall x | x in seen + {id} && Differs(prev, cur, x)
      ensures Logged(rows', x)
    {
      if x == id {
        assert rows'[|rows|].id == id;
      } else {
        var k :| 0 <= k < |rows| && rows[k].id == x;
        assert rows'[k].id == x;
      }
    }
  }

  function KeysSeen(m: OrderedMap, i: nat): set<Id>
    requires i <= |m.keys|
  {
    set k | 0 <= k < i :: m.keys[k]
  }

  /** New or modified: the comparison is by printed text. */
  method CompareOne(kind: Kind, prev: IdTable, cur: IdTable, id: Id) returns (row: seq<Change>)
    requires id in cur && Valid(cur[id]) && (id in prev ==> Valid(prev[id]))
    ensures row == if Differs(prev, cur, id) then [RowFor(kind, prev, cur, id)] else []
  {
    var resource := cur[id];
    if id !in prev {
      return [Created(id, kind.getName(resource), resource)];
    }
    SameTextIffSameValue(prev[id], resource);
    if Stringify(prev[id]) != Stringify(resource) {
      return [Modified(id, kind.getName(resource), prev[id], resource)];
    }
    row := [];
  }

  lemma KeysSeenStep(m: OrderedMap, base: set<Id>, i: nat)
    requires i < |m.keys|
    ensures base + KeysSeen(m, i + 1) == base + KeysSeen(m, i) + {m.keys[i]}
  {
  }

  lemma AllKeysSeen(m: OrderedMap)
    requires m.Valid()
    ensures KeysSeen(m, |m.keys|) == m.entries.Keys
  {
  }

  /** First loop: new and modified resources. */
  method RecordPresent(kind: Kind, previousMap: OrderedMap, currentMap: OrderedMap)
    returns (rows: seq<Change>, changes: nat)
    requires previousMap.Valid() && currentMap.Valid()
    requires forall id :: id in previousMap.entries ==> Valid(previousMap.entries[id])
    requires forall id :: id in currentMap.entries ==> Valid(currentMap.entries[id])
    ensures changes == |rows| && DiffOf(kind, previousMap.entries, currentMap.entries, currentMap.entries.Keys, rows)
  {
    changes, rows := 0, [];
    for i := 0 to |currentMap.keys|
      invariant changes == |rows|
        && DiffOf(kind, previousMap.entries, currentMap.entries, KeysSeen(currentMap, i), rows)
    {
      var id := currentMap.keys[i];
      var row := CompareOne(kind, previousMap.entries, currentMap.entries, id);
      DiffSees(kind, previousMap.entries, currentMap.entries, KeysSeen(currentMap, i), rows, id, row);
      KeysSeenStep(currentMap, {}, i);
      assert {} + KeysSeen(currentMap, i) == KeysSeen(currentMap, i);
      assert {} + KeysSeen(currentMap, i + 1) == KeysSeen(currentMap, i + 1);
      rows := rows + row;
      changes := changes + |row|;
    }
    AllKeysSeen(currentMap);
  }

  /** Second loop: deleted resources. */
  method RecordDeleted(kind: Kind, previousMap: OrderedMap, currentMap: OrderedMap, recorded: seq<Change>, count: nat)
    returns (rows: seq<Change>, changes: nat)
    requires previousMap.Valid() && count == |recorded|
    requires DiffOf(kind, previousMap.entries, currentMap.entries, currentMap.entries.Keys, recorded)
    ensures changes == |rows| && IsDiff(kind, previousMap.entries, currentMap.entries, rows)
  {
    rows, changes := recorded, count;
    ghost var prev, cur := previousMap.entries, currentMap.entries;
    assert cur.Keys + KeysSeen(previousMap, 0) == cur.Keys;
    for i := 0 to |previousMap.keys|
      invariant changes == |rows| && DiffOf(kind, prev, cur, cur.Keys + KeysSeen(previousMap, i), rows)
    {
      var id := previousMap.keys[i];
      KeysSeenStep(previousMap, cur.Keys, i);
      if id !in currentMap.entries {
        DiffSees(kind, prev, cur, cur.Keys + KeysSeen(previousMap, i), rows, id, [RowFor(kind, prev, cur, id)]);
        rows := rows + [Deleted(id, kind.getName(previousMap.entries[id]), previousMap.entries[id])];
        changes := changes + 1;
      } else {
        assert cur.Keys + KeysSeen(previousMap, i + 1) == cur.Keys + KeysSeen(previousMap, i);
      }
    }
    AllKeysSeen(previousMap);
    assert cur.Keys + prev.Keys == prev.Keys + cur.Keys;
  }

  method CompareResources(kind: Kind, previous: seq<Doc>, current: seq<Doc>) returns (rows: seq<Change>, changes: nat)
    requires AllValid(previous) && AllValid(current)
    ensures IsDiff(kind, IdMap(kind, previous), IdMap(kind, current), rows)
    ensures changes == |rows|
  {
    var previousMap := BuildMap(kind, previous);
    var currentMap := BuildMap(kind, current);
    forall id | id in previousMap.entries { IdMapValid(kind, previous, id); }
    forall id | id in currentMap.entries { IdMapValid(kind, current, id); }
    rows, changes := RecordPresent(kind, previousMap, currentMap);
    rows, changes := RecordDeleted(kind, previousMap, currentMap, rows, changes);
  }

  /** `!resourceId`: undefined or empty. */
  predicate NoId(id: Id) {
    id.None? || id.value == ""
  }

  /** One-time ACL backfill: a CREATED row for every rule that has a seed id. */
  method SeedBaseline(kind: Kind, existing: nat, current: seq<Doc>) returns (rows: seq<Change>, inserted: nat)
    ensures inserted == |rows|
    ensures existing > 0 ==> rows == []
    ensures existing == 0 ==> rows == BaselineRows(kind, current)
  {
    rows, inserted := [], 0;
    if existing > 0 { return; }
    for i := 0 to |current|
      invariant rows == BaselineRows(kind, current[..i]) && inserted == |rows|
    {
      assert current[..i + 1][..i] == current[..i];
      var id := kind.seedId(current[i]);
      if NoId(id) { continue; }
      rows := rows + [Created(id, kind.seedName(current[i]), current[i])];
      inserted := inserted + 1;
    }
    assert current[..|current|] == current;
  }

  function BaselineRows(kind: Kind, snapshot: seq<Doc>): seq<Change> {
    if snapshot == [] then []
    else
      var last := |snapshot| - 1;
      var id := kind.seedId(snapshot[last]);
      var before := BaselineRows(kind, snapshot[..last]);
      if NoId(id) then before else before + [Created(id, kind.seedName(snapshot[last]), snapshot[last])]
  }

  /** The baseline has a creation for every rule with a nonempty id, and nothing else. */
  lemma {:induction false} BaselineTells(kind: Kind, snapshot: seq<Doc>)
    ensures forall i :: 0 <= i < |snapshot| && kind.seedId(snapshot[i]).GetOr("") != "" ==>
      Created(kind.seedId(snapshot[i]), kind.seedName(snapshot[i]), snapshot[i]) in BaselineRows(kind, snapshot)
    ensures forall row :: row in BaselineRows(kind, snapshot) ==>
      && row.Created? && row.newValue in snapshot && row.id == kind.seedId(row.newValue)
      && row.name == kind.seedName(row.newValue) && row.id.GetOr("") != ""
    ensures |BaselineRows(kind, snapshot)| <= |snapshot|
  {
    if snapshot != [] {
      var last := |snapshot| - 1;
      BaselineTells(kind, snapshot[..last]);
      assert forall i :: 0 <= i < last ==> snapshot[..last][i] == snapshot[i];
    }
  }

  /** The last rule seeded under each seed id. */
  function SeedMap(kind: Kind, snapshot: seq<Doc>): IdTable {
    if snapshot == [] then map[]
    else
      var last := |snapshot| - 1;
      var id := kind.seedId(snapshot[last]);
      var before := SeedMap(kind, snapshot[..last]);
      if NoId(id) then before else before[id := snapshot[last]]
  }

  // ---------- What the rows replay to ----------

  lemma {:induction false} ReplayAppend(m: IdTable, rows: seq<Change>, more: seq<Change>)
    ensures Replay(m, rows + more) == Replay(Replay(m, rows), more)
    decreases |rows|
  {
    if rows == [] {
      assert rows + more == more;
    } else {
      var row := rows[0];
      assert (rows + more)[1..] == rows[1..] + more;
      ReplayAppend(ApplyRow(m, row), rows[1..], more);
    }
  }

  /** Replay depends on the resources only through their meaning. */
  lemma {:induction false} ReplayRespectsMeaning(m: IdTable, n: IdTable, rows: seq<Change>)
    requires Meaning(m) == Meaning(n)
    ensures Meaning(Replay(m, rows)) == Meaning(Replay(n, rows))
    decreases |rows|
  {
    if rows != [] {
      var row := rows[0];
      var m', n' := ApplyRow(m, row), ApplyRow(n, row);
      forall id
        ensures id in m' <==> id in n'
        ensures id in m' ==> Value(m'[id]) == Value(n'[id])
      {
        assert id in Meaning(m) <==> id in Meaning(n);
        assert id in m ==> Meaning(m)[id] == Meaning(n)[id];
      }
      assert Meaning(m') == Meaning(n');
      ReplayRespectsMeaning(m', n', rows[1..]);
    }
  }

  /** Rows with distinct ids act independently: each id ends as its own row says. */
  lemma {:induction false} ReplayAt(m: IdTable, rows: seq<Change>, id: Id)
    requires forall k, l :: 0 <= k < l < |rows| ==> rows[k].id != rows[l].id
    ensures !Logged(rows, id) ==> (id in Replay(m, rows) <==> id in m) && (id in m ==> Replay(m, rows)[id] == m[id])
    ensures forall k :: 0 <= k < |rows| && rows[k].id == id ==>
      if rows[k].Deleted? then id !in Replay(m, rows)
        else id in Replay(m, rows) && Replay(m, rows)[id] == rows[k].newValue
    decreases |rows|
  {
    if rows != [] {
      var row := rows[0];
      var m' := ApplyRow(m, row);
      ReplayAt(m', rows[1..], id);
      if Logged(rows[1..], id) {
        var k :| 0 <= k < |rows[1..]| && rows[1..][k].id == id;
        assert rows[k + 1].id == id;
      }
      forall k | 0 <= k < |rows| && rows[k].id == id
        ensures if rows[k].Deleted? then id !in Replay(m, rows)
          else id in Replay(m, rows) && Replay(m, rows)[id] == rows[k].newValue
      {
        if k == 0 {
          assert !Logged(rows[1..], id);
        } else {
          assert rows[1..][k - 1] == rows[k];
        }
      }
      if !Logged(rows, id) { assert rows[0].id != id; }
    }
  }

  /** Replaying a diff over the old id map yields the new one, up to key order. */
  lemma DiffReplays(kind: Kind, prev: IdTable, cur: IdTable, rows: seq<Change>)
    requires IsDiff(kind, prev, cur, rows)
    ensures Meaning(Replay(prev, rows)) == Meaning(cur)
  {
    var m := Replay(prev, rows);
    forall id
      ensures id in m <==> id in cur
      ensures id in cur ==> Value(m[id]) == Value(cur[id])
    {
      ReplayAt(prev, rows, id);
      if Logged(rows, id) {
        var k :| 0 <= k < |rows| && rows[k].id == id;
        assert rows[k] == RowFor(kind, prev, cur, id);
      }
    }
  }

  /** Taking a row back: what was created goes, and what was modified or deleted is as before. */
  function UndoRow(m: IdTable, row: Change): IdTable {
    if row.Created? then m - {row.id} else m[row.id := row.previousValue]
  }

  /** Reading rows backwards. */
  function Undo(m: IdTable, rows: seq<Change>): IdTable
    decreases |rows|
  {
    if rows == [] then m else Undo(UndoRow(m, rows[|rows| - 1]), rows[..|rows| - 1])
  }

  lemma {:induction false} UndoAt(m: IdTable, rows: seq<Change>, id: Id)
    requires forall k, l :: 0 <= k < l < |rows| ==> rows[k].id != rows[l].id
    ensures !Logged(rows, id) ==> (id in Undo(m, rows) <==> id in m) && (id in m ==> Undo(m, rows)[id] == m[id])
    ensures forall k :: 0 <= k < |rows| && rows[k].id == id ==>
      if rows[k].Created? then id !in Undo(m, rows)
        else id in Undo(m, rows) && Undo(m, rows)[id] == rows[k].previousValue
    decreases |rows|
  {
    if rows != [] {
      var last := |rows| - 1;
      var front := rows[..last];
      UndoAt(UndoRow(m, rows[last]), front, id);
      if Logged(front, id) {
        var k :| 0 <= k < |front| && front[k].id == id;
        assert rows[k].id == id;
      }
      forall k | 0 <= k < |rows| && rows[k].id == id
        ensures if rows[k].Created? then id !in Undo(m, rows)
          else id in Undo(m, rows) && Undo(m, rows)[id] == rows[k].previousValue
      {
        if k == last { assert !Logged(front, id); } else { assert front[k] == rows[k]; }
      }
      if !Logged(rows, id) { assert rows[last].id != id; }
    }
  }

  /** A diff can be undone: read backwards from the current id map it yields the previous one, up to key order. */
  lemma DiffUndoes(kind: Kind, prev: IdTable, cur: IdTable, rows: seq<Change>)
    requires IsDiff(kind, prev, cur, rows)
    ensures Meaning(Undo(cur, rows)) == Meaning(prev)
  {
    var m := Undo(cur, rows);
    forall id
      ensures id in m <==> id in prev
      ensures id in prev ==> Value(m[id]) == Value(prev[id])
    {
      UndoAt(cur, rows, id);
      if Logged(rows, id) {
        var k :| 0 <= k < |rows| && rows[k].id == id;
        assert rows[k] == RowFor(kind, prev, cur, id);
      }
    }
  }

  /**
   What each row of a diff says: a creation has an id that is new, a deletion one that is gone, a modification one whose
   resource means something else; before and after are the resources themselves, named as they are now or last were.
   */
  lemma RowsTell(kind: Kind, prev: IdTable, cur: IdTable, rows: seq<Change>, k: nat)
    requires IsDiff(kind, prev, cur, rows) && k < |rows|
    ensures
      match rows[k]
      case Created(id, name, after) => id !in prev && id in cur && after == cur[id] && name == kind.getName(cur[id])
      case Deleted(id, name, before) => id in prev && id !in cur && before == prev[id] && name == kind.getName(prev[id])
      case Modified(id, name, before, after) =>
        && id in prev && id in cur && before == prev[id] && after == cur[id] && name == kind.getName(cur[id])
        && Value(before) != Value(after)
  {
    assert rows[k] == RowFor(kind, prev, cur, rows[k].id);
  }

  /** Nothing is recorded exactly when the two snapshots mean the same. */
  lemma DiffEmptyIffSame(kind: Kind, prev: IdTable, cur: IdTable, rows: seq<Change>)
    requires IsDiff(kind, prev, cur, rows)
    ensures rows == [] <==> Meaning(prev) == Meaning(cur)
  {
    if rows == [] {
      forall id
        ensures id in prev <==> id in cur
        ensures id in prev ==> Value(prev[id]) == Value(cur[id])
      {
        assert !Logged(rows, id);
      }
      assert Meaning(prev) == Meaning(cur);
    } else {
      var id := rows[0].id;
      assert Differs(prev, cur, id);
      if id in prev && id in cur {
        assert Meaning(prev)[id] != Meaning(cur)[id];
      } else {
        assert id in Meaning(prev) <==> id !in Meaning(cur);
      }
    }
  }

  // ---------- Whole histories ----------

  /** Two tables say the same of one id, up to key order. */
  ghost predicate SameAt(m: IdTable, n: IdTable, id: Id) {
    (id in m <==> id in n) && (id in m && id in n ==> Value(m[id]) == Value(n[id]))
  }

  lemma SameMeaningIff(m: IdTable, n: IdTable)
    ensures Meaning(m) == Meaning(n) <==> forall id :: SameAt(m, n, id)
  {
    if Meaning(m) == Meaning(n) {
      forall id
        ensures SameAt(m, n, id)
      {
        assert id in Meaning(m) <==> id in Meaning(n);
        assert id in m ==> Meaning(m)[id] == Meaning(n)[id];
      }
    }
    if forall id :: SameAt(m, n, id) {
      forall id
        ensures id in Meaning(m) <==> id in Meaning(n)
        ensures id in Meaning(m) && id in Meaning(n) ==> Meaning(m)[id] == Meaning(n)[id]
      {
        assert SameAt(m, n, id);
      }
    }
  }

  /** Replaying a baseline overlays the rules seeded, each under its seed id. */
  lemma {:induction false} BaselineReplays(kind: Kind, m: IdTable, snapshot: seq<Doc>)
    ensures Replay(m, BaselineRows(kind, snapshot)) == m + SeedMap(kind, snapshot)
  {
    if snapshot == [] {
      assert m + map[] == m;
    } else {
      var last := |snapshot| - 1;
      BaselineReplays(kind, m, snapshot[..last]);
      var id := kind.seedId(snapshot[last]);
      if !NoId(id) {
        var row := Created(id, kind.seedName(snapshot[last]), snapshot[last]);
        ReplayAppend(m, BaselineRows(kind, snapshot[..last]), [row]);
        var r := Replay(m, BaselineRows(kind, snapshot[..last]));
        assert Replay(r, [row]) == Replay(ApplyRow(r, row), []);
      }
    }
  }

  /** Every seed id finds, in the snapshot's own id map, a value equal to the last rule seeded under it. */
  ghost predicate SeedsAgree(kind: Kind, snapshot: seq<Doc>) {
    forall id :: id in SeedMap(kind, snapshot) ==> SameAt(SeedMap(kind, snapshot), IdMap(kind, snapshot), id)
  }

  /** A seed over a snapshot keeps its meaning exactly when the seeds agree with its id map. */
  lemma SeedKeepsMeaningIff(kind: Kind, m: IdTable, snapshot: seq<Doc>)
    requires Meaning(m) == Meaning(IdMap(kind, snapshot))
    ensures Meaning(Replay(m, BaselineRows(kind, snapshot))) == Meaning(m) <==> SeedsAgree(kind, snapshot)
  {
    var own, seeds := IdMap(kind, snapshot), SeedMap(kind, snapshot);
    BaselineReplays(kind, m, snapshot);
    SameMeaningIff(m + seeds, m);
    SameMeaningIff(m, own);
    forall id
      ensures SameAt(m + seeds, m, id) <==> (id in seeds ==> SameAt(seeds, own, id))
    {
      assert SameAt(m, own, id);
    }
  }

  // ---------- The ACL rules' own keys ----------

  /** A text field of an object; anything else reads as undefined. */
  function TextField(d: Doc, k: string): Id {
    if d.DObj? && k in KeySet(d.members) && Lookup(d.members, k).DStr? then Some(Lookup(d.members, k).s) else None
  }

  /** `a || b` */
  function FirstOf(a: Id, b: Id): Id {
    if NoId(a) then b else a
  }

  function AclSeedId(d: Doc): Id {
    FirstOf(TextField(d, "_id"), TextField(d, "id"))
  }

  /** `r._id` for the diff, `rule?._id || rule?.id` for the seed; the names follow the ids. */
  function AclKind(): Kind {
    Kind(
      (d: Doc) => TextField(d, "_id"), (d: Doc) => FirstOf(TextField(d, "name"), TextField(d, "_id")).GetOr(""),
      (d: Doc) => AclSeedId(d), (d: Doc) => FirstOf(TextField(d, "name"), AclSeedId(d)).GetOr(""))
  }

  /** The keys and names of ACL rules, spelled out. */
  lemma AclKeys(d: Doc)
    ensures
      var own, other, name, kind := TextField(d, "_id"), TextField(d, "id"), TextField(d, "name"), AclKind();
      && kind.getId(d) == own
      && (own.GetOr("") != "" ==> kind.seedId(d) == own) && (own.GetOr("") == "" ==> kind.seedId(d) == other)
      && (name.GetOr("") != "" ==> kind.getName(d) == kind.seedName(d) == name.value)
      && (name.GetOr("") == "" ==> kind.getName(d) == own.GetOr("") && kind.seedName(d) == kind.seedId(d).GetOr(""))
  {
  }

  /** A rule with an `id` has an `_id`. */
  predicate ProperlyKeyed(d: Doc) {
    NoId(TextField(d, "_id")) ==> NoId(TextField(d, "id"))
  }

  lemma {:induction false} ProperSeeds(snapshot: seq<Doc>, id: Id)
    requires forall i :: 0 <= i < |snapshot| ==> ProperlyKeyed(snapshot[i])
    ensures
      var seeds, own := SeedMap(AclKind(), snapshot), IdMap(AclKind(), snapshot);
      (id in seeds <==> id in own && !NoId(id)) && (id in seeds ==> seeds[id] == own[id])
  {
    if snapshot != [] {
      ProperSeeds(snapshot[..|snapshot| - 1], id);
    }
  }

  /** When every rule with an `id` has an `_id`, seeding is harmless. */
  lemma ProperlyKeyedSeedsAgree(snapshot: seq<Doc>)
    requires forall i :: 0 <= i < |snapshot| ==> ProperlyKeyed(snapshot[i])
    ensures SeedsAgree(AclKind(), snapshot)
  {
    forall id | id in SeedMap(AclKind(), snapshot)
      ensures SameAt(SeedMap(AclKind(), snapshot), IdMap(AclKind(), snapshot), id)
    {
      ProperSeeds(snapshot, id);
    }
  }

  /**
   The rule {"id": "x"}, unchanged between two snapshots: no change is recorded,
   yet the seed creates an id no diff knows.
   */
  lemma SeedUnderAnotherIdCounterexample() returns (rule: Doc)
    ensures rule == DObj([("id", DStr("x"))])
    ensures IdMap(AclKind(), [rule]) == map[None := rule]
    ensures BaselineRows(AclKind(), [rule]) == [Created(Some("x"), "x", rule)]
    ensures Meaning(Replay(IdMap(AclKind(), [rule]), BaselineRows(AclKind(), [rule])))
      != Meaning(IdMap(AclKind(), [rule]))
  {
    rule := DObj([("id", DStr("x"))]);
    var kind, snapshot := AclKind(), [rule];
    assert ("id", DStr("x")) in rule.members;
    assert "id" != "_id" && "id" != "name";
    assert KeySet(rule.members) == {"id"};
    assert TextField(rule, "_id") == None && TextField(rule, "name") == None && TextField(rule, "id") == Some("x");
    assert snapshot[..0] == [];
    assert IdMap(kind, snapshot) == map[None := rule];
    assert SeedMap(kind, snapshot) == map[Some("x") := rule];
    assert Some("x") in SeedMap(kind, snapshot) && Some("x") !in IdMap(kind, snapshot);
    SeedKeepsMeaningIff(kind, IdMap(kind, snapshot), snapshot);
  }

  // ---------- Whole histories ----------

  function TableAt(kind: Kind, snapshots: seq<seq<Doc>>, i: nat): IdTable
    requires i < |snapshots|
  {
    IdMap(kind, snapshots[i])
  }

  /** Up to snapshot i nothing changed. */
  ghost predicate Quiet(kind: Kind, snapshots: seq<seq<Doc>>, i: nat)
    requires i < |snapshots|
  {
    forall j :: 1 <= j <= i ==> Meaning(TableAt(kind, snapshots, j - 1)) == Meaning(TableAt(kind, snapshots, j))
  }

  /** The synchronisation that seeds a new log: nothing changed so far, and this is the first with something to seed. */
  ghost predicate WouldSeed(kind: Kind, snapshots: seq<seq<Doc>>, i: nat) {
    && 1 <= i < |snapshots| && Quiet(kind, snapshots, i) && BaselineRows(kind, snapshots[i]) != []
    && forall j :: 1 <= j < i ==> BaselineRows(kind, snapshots[j]) == []
  }

  /** Seeded under an id where its snapshot has something else, and not touched by any diff since. */
  ghost predicate Stray(kind: Kind, snapshots: seq<seq<Doc>>, k: nat, i: nat, id: Id)
    requires k <= i < |snapshots|
  {
    && id in SeedMap(kind, snapshots[k]) && !SameAt(SeedMap(kind, snapshots[k]), TableAt(kind, snapshots, k), id)
    && forall j :: k < j <= i ==> SameAt(TableAt(kind, snapshots, j - 1), TableAt(kind, snapshots, j), id)
  }

  /** The id is a stray of the log's seed, if the log was seeded. */
  ghost predicate Off(kind: Kind, snapshots: seq<seq<Doc>>, seededAt: Option<nat>, i: nat, id: Id)
    requires i < |snapshots| && (seededAt.Some? ==> seededAt.value <= i)
  {
    seededAt.Some? && Stray(kind, snapshots, seededAt.value, i, id)
  }

  ghost predicate FollowsAt(kind: Kind, snapshots: seq<seq<Doc>>, seededAt: Option<nat>, i: nat, m: IdTable, id: Id)
    requires i < |snapshots| && (seededAt.Some? ==> seededAt.value <= i)
  {
    if Off(kind, snapshots, seededAt, i, id) then SameAt(m, SeedMap(kind, snapshots[seededAt.value]), id)
    else SameAt(m, TableAt(kind, snapshots, i), id)
  }

  /** The log's table follows the snapshots, except at stray seeds. */
  ghost predicate Follows(kind: Kind, snapshots: seq<seq<Doc>>, seededAt: Option<nat>, i: nat, m: IdTable)
    requires i < |snapshots| && (seededAt.Some? ==> seededAt.value <= i)
  {
    forall id :: FollowsAt(kind, snapshots, seededAt, i, m, id)
  }

  ghost predicate NoStray(kind: Kind, snapshots: seq<seq<Doc>>, seededAt: Option<nat>, i: nat)
    requires i < |snapshots| && (seededAt.Some? ==> seededAt.value <= i)
  {
    forall id :: !Off(kind, snapshots, seededAt, i, id)
  }

  lemma DiffAt(kind: Kind, prev: IdTable, cur: IdTable, rows: seq<Change>, m: IdTable, id: Id)
    requires IsDiff(kind, prev, cur, rows)
    ensures if SameAt(prev, cur, id) then SameAt(Replay(m, rows), m, id) else SameAt(Replay(m, rows), cur, id)
  {
    ReplayAt(m, rows, id);
    if Logged(rows, id) {
      var k :| 0 <= k < |rows| && rows[k].id == id;
      assert Differs(prev, cur, id) && rows[k] == RowFor(kind, prev, cur, id);
    }
  }

  lemma StrayStep(kind: Kind, snapshots: seq<seq<Doc>>, k: nat, i: nat, id: Id)
    requires k <= i && i + 1 < |snapshots|
    ensures Stray(kind, snapshots, k, i + 1, id) <==>
              Stray(kind, snapshots, k, i, id)
                && SameAt(TableAt(kind, snapshots, i), TableAt(kind, snapshots, i + 1), id)
  {
    if Stray(kind, snapshots, k, i + 1, id) {
      assert SameAt(TableAt(kind, snapshots, i), TableAt(kind, snapshots, i + 1), id);
    }
  }

  lemma HistoryStepAt(
    kind: Kind, snapshots: seq<seq<Doc>>, seededAt: Option<nat>, i: nat, m: IdTable, rows: seq<Change>, id: Id)
    requires i + 1 < |snapshots| && (seededAt.Some? ==> seededAt.value <= i)
    requires FollowsAt(kind, snapshots, seededAt, i, m, id)
    requires IsDiff(kind, TableAt(kind, snapshots, i), TableAt(kind, snapshots, i + 1), rows)
    ensures FollowsAt(kind, snapshots, seededAt, i + 1, Replay(m, rows), id)
  {
    DiffAt(kind, TableAt(kind, snapshots, i), TableAt(kind, snapshots, i + 1), rows, m, id);
    if seededAt.Some? { StrayStep(kind, snapshots, seededAt.value, i, id); }
  }

  /** One diff on: ids that changed follow again, the others stay as they were. */
  lemma HistoryStep(kind: Kind, snapshots: seq<seq<Doc>>, seededAt: Option<nat>, i: nat, m: IdTable, rows: seq<Change>)
    requires i + 1 < |snapshots| && (seededAt.Some? ==> seededAt.value <= i)
    requires Follows(kind, snapshots, seededAt, i, m)
    requires IsDiff(kind, TableAt(kind, snapshots, i), TableAt(kind, snapshots, i + 1), rows)
    ensures Follows(kind, snapshots, seededAt, i + 1, Replay(m, rows))
  {
    var next, replayed := i + 1, Replay(m, rows);
    forall id
      ensures FollowsAt(kind, snapshots, seededAt, next, replayed, id)
    {
      assert FollowsAt(kind, snapshots, seededAt, i, m, id);
      HistoryStepAt(kind, snapshots, seededAt, i, m, rows, id);
    }
  }

  /** The seed itself: exactly the seeds that disagree with their snapshot are stray. */
  lemma SeedStep(kind: Kind, snapshots: seq<seq<Doc>>, i: nat, m: IdTable)
    requires i < |snapshots| && Follows(kind, snapshots, None, i, m)
    ensures Follows(kind, snapshots, Some(i), i, Replay(m, BaselineRows(kind, snapshots[i])))
  {
    BaselineReplays(kind, m, snapshots[i]);
    var seeded := m + SeedMap(kind, snapshots[i]);
    forall id
      ensures FollowsAt(kind, snapshots, Some(i), i, seeded, id)
    {
      assert FollowsAt(kind, snapshots, None, i, m, id);
    }
  }

  lemma {:induction false} StrayStaysOff(kind: Kind, snapshots: seq<seq<Doc>>, k: nat, i: nat, id: Id)
    requires k <= i < |snapshots| && Stray(kind, snapshots, k, i, id)
    ensures !SameAt(SeedMap(kind, snapshots[k]), TableAt(kind, snapshots, i), id)
    decreases i
  {
    if k < i {
      StrayStep(kind, snapshots, k, i - 1, id);
      StrayStaysOff(kind, snapshots, k, i - 1, id);
    }
  }

  /** The log means the snapshot exactly when no stray seed is left. */
  lemma FollowsMeans(kind: Kind, snapshots: seq<seq<Doc>>, seededAt: Option<nat>, i: nat, m: IdTable)
    requires i < |snapshots| && (seededAt.Some? ==> seededAt.value <= i) && Follows(kind, snapshots, seededAt, i, m)
    ensures Meaning(m) == Meaning(TableAt(kind, snapshots, i)) <==> NoStray(kind, snapshots, seededAt, i)
  {
    SameMeaningIff(m, TableAt(kind, snapshots, i));
    forall id
      ensures SameAt(m, TableAt(kind, snapshots, i), id) <==> !Off(kind, snapshots, seededAt, i, id)
    {
      FollowsMeansAt(kind, snapshots, seededAt, i, m, id);
    }
  }

  lemma FollowsMeansAt(kind: Kind, snapshots: seq<seq<Doc>>, seededAt: Option<nat>, i: nat, m: IdTable, id: Id)
    requires i < |snapshots| && (seededAt.Some? ==> seededAt.value <= i) && Follows(kind, snapshots, seededAt, i, m)
    ensures SameAt(m, TableAt(kind, snapshots, i), id) <==> !Off(kind, snapshots, seededAt, i, id)
  {
    assert FollowsAt(kind, snapshots, seededAt, i, m, id);
    if Off(kind, snapshots, seededAt, i, id) { StrayStaysOff(kind, snapshots, seededAt.value, i, id); }
  }

  /** Whether and where a log was seeded, as far as the first i synchronisations. */
  ghost predicate SeedState(
    kind: Kind, snapshots: seq<seq<Doc>>, seeds: bool, i: nat, seededAt: Option<nat>, empty: bool)
    requires i < |snapshots|
  {
    if seededAt.Some? then seeds && !empty && seededAt.value <= i && WouldSeed(kind, snapshots, seededAt.value)
    else
      && (empty <==> Quiet(kind, snapshots, i))
      && (seeds ==> forall j :: 1 <= j <= i ==> !WouldSeed(kind, snapshots, j))
      && (seeds && empty ==> forall j :: 1 <= j <= i ==> BaselineRows(kind, snapshots[j]) == [])
  }

  /** What holds of a log after the first i synchronisations. */
  ghost predicate Recorded(
    kind: Kind, snapshots: seq<seq<Doc>>, seeds: bool, i: nat, seededAt: Option<nat>, log: seq<Change>)
    requires snapshots != [] && i < |snapshots|
  {
    && SeedState(kind, snapshots, seeds, i, seededAt, log == [])
    && Follows(kind, snapshots, seededAt, i, Replay(TableAt(kind, snapshots, 0), log))
  }

  /** The seeding step of one synchronisation; `existing` counts the rows stored for the type. */
  method SeedIfMissing(
    kind: Kind, snapshots: seq<seq<Doc>>, i: nat, existing: nat, recorded: seq<Change>, ghost first: IdTable,
    ghost was: Option<nat>)
    returns (log: seq<Change>, ghost seededAt: Option<nat>)
    requires 1 <= i < |snapshots| && existing >= |recorded| && (was.Some? ==> was.value < i && recorded != [])
    requires Follows(kind, snapshots, was, i, Replay(first, recorded))
    ensures seededAt == if existing == 0 && BaselineRows(kind, snapshots[i]) != [] then Some(i) else was
    ensures log == [] <==> recorded == [] && seededAt == was
    ensures Follows(kind, snapshots, seededAt, i, Replay(first, log))
  {
    log, seededAt := recorded, was;
    var seeded, inserted := SeedBaseline(kind, existing, snapshots[i]);
    if seeded != [] {
      SeedStep(kind, snapshots, i, first);
      log, seededAt := seeded, Some(i);
    }
  }

  /** One synchronisation: the diff, and the seed when the type is seeded and nothing changed. */
  method Synchronise(
    kind: Kind, snapshots: seq<seq<Doc>>, i: nat, acl: bool, prior: nat, log: seq<Change>, ghost was: Option<nat>)
    returns (log': seq<Change>, ghost seededAt: Option<nat>)
    requires 1 <= i < |snapshots| && AllValid(snapshots[i - 1]) && AllValid(snapshots[i])
    requires Recorded(kind, snapshots, acl && prior == 0, i - 1, was, log)
    ensures Recorded(kind, snapshots, acl && prior == 0, i, seededAt, log')
  {
    var rows, changes := CompareResources(kind, snapshots[i - 1], snapshots[i]);
    ghost var first := TableAt(kind, snapshots, 0);
    HistoryStep(kind, snapshots, was, i - 1, Replay(first, log), rows);
    ReplayAppend(first, log, rows);
    DiffEmptyIffSame(kind, TableAt(kind, snapshots, i - 1), TableAt(kind, snapshots, i), rows);
    log', seededAt := log + rows, was;
    if acl && changes == 0 {
      log', seededAt := SeedIfMissing(kind, snapshots, i, prior + |log'|, log', first, was);
    }
    SeedStateStep(kind, snapshots, acl && prior == 0, i, was, log == [], rows == [], seededAt, log' == []);
  }

  /**
   Successive synchronisations of one resource type. `acl` marks the type that is seeded, and `prior`
   counts the rows already stored for it. The log replays from the first snapshot to the last exactly
   when no seed, put under an id where its snapshot has something else, was left untouched by later diffs.
   */
  method RecordHistory(kind: Kind, snapshots: seq<seq<Doc>>, acl: bool, prior: nat)
    returns (log: seq<Change>, ghost seededAt: Option<nat>)
    requires snapshots != [] && forall i :: 0 <= i < |snapshots| ==> AllValid(snapshots[i])
    ensures seededAt.Some? ==> acl && prior == 0 && WouldSeed(kind, snapshots, seededAt.value)
    ensures seededAt.None? && acl && prior == 0 ==> forall i :: 1 <= i < |snapshots| ==> !WouldSeed(kind, snapshots, i)
    ensures Meaning(Replay(TableAt(kind, snapshots, 0), log)) == Meaning(TableAt(kind, snapshots, |snapshots| - 1))
            <==> NoStray(kind, snapshots, seededAt, |snapshots| - 1)
  {
    log, seededAt := [], None;
    for i := 1 to |snapshots|
      invariant Recorded(kind, snapshots, acl && prior == 0, i - 1, seededAt, log)
    {
      log, seededAt := Synchronise(kind, snapshots, i, acl, prior, log, seededAt);
    }
    FollowsMeans(kind, snapshots, seededAt, |snapshots| - 1, Replay(TableAt(kind, snapshots, 0), log));
  }

  lemma QuietStep(kind: Kind, snapshots: seq<seq<Doc>>, i: nat)
    requires 1 <= i < |snapshots|
    ensures Quiet(kind, snapshots, i) <==>
              Quiet(kind, snapshots, i - 1)
                && Meaning(TableAt(kind, snapshots, i - 1)) == Meaning(TableAt(kind, snapshots, i))
  {
  }

  lemma SeedStateStep(
    kind: Kind, snapshots: seq<seq<Doc>>, seeds: bool, i: nat, was: Option<nat>, wasEmpty: bool, same: bool,
    now: Option<nat>, empty: bool)
    requires 1 <= i < |snapshots| && SeedState(kind, snapshots, seeds, i - 1, was, wasEmpty)
    requires same <==> Meaning(TableAt(kind, snapshots, i - 1)) == Meaning(TableAt(kind, snapshots, i))
    requires now == if seeds && wasEmpty && same && BaselineRows(kind, snapshots[i]) != [] then Some(i) else was
    requires empty <==> wasEmpty && same && now == was
    ensures SeedState(kind, snapshots, seeds, i, now, empty)
  {
    QuietStep(kind, snapshots, i);
    if was.None? && now.None? && seeds {
      forall j | 1 <= j <= i
        ensures !WouldSeed(kind, snapshots, j)
      {
      }
    }
  }

  /** With rules keyed properly, a log of the ACL rules always replays to the last snapshot. */
  lemma ProperlyKeyedNeverStray(snapshots: seq<seq<Doc>>, k: nat, i: nat, id: Id)
    requires k <= i < |snapshots| && forall j :: 0 <= j < |snapshots[k]| ==> ProperlyKeyed(snapshots[k][j])
    ensures !Stray(AclKind(), snapshots, k, i, id)
  {
    ProperlyKeyedSeedsAgree(snapshots[k]);
  }
}
