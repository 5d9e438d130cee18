/**
 The structured record of a test run (backend/src/services/testRunResultsJson.ts): deep merge
 of JSON objects, and the record built from what is stored plus what arrives.
 */
module ResultsJson {
  import opened Wrappers
  import opened JsonValue

  type Fields = map<string, Json>

  // ---------- Deep merge ----------

  /** Records merge key by key; anything else is replaced by the patch. */
  function Merge(base: Json, patch: Json): Json
    decreases base
  {
    if base.Obj? && patch.Obj? then
      Obj(map k | k in base.fields.Keys + patch.fields.Keys ::
            if k !in patch.fields then base.fields[k]
            else if k in base.fields then Merge(base.fields[k], patch.fields[k])
            else patch.fields[k])
    else patch
  }

  function MergeFields(a: Fields, b: Fields): Fields {
    Merge(Obj(a), Obj(b)).fields
  }

  /** The source's loop over the patch's entries, in whatever order they come. */
  method MergeJson(base: Json, patch: Json) returns (merged: Json)
    ensures merged == Merge(base, patch)
    decreases base
  {
    if !base.Obj? || !patch.Obj? {
      return patch;
    }
    var fields := base.fields;
    var todo := patch.fields.Keys;
    while todo != {}
      invariant todo <= patch.fields.Keys
      invariant fields.Keys == base.fields.Keys + (patch.fields.Keys - todo)
      invariant forall k :: k in fields && (k in todo || k !in patch.fields) ==>
        k in base.fields && fields[k] == base.fields[k]
      invariant forall k :: k in patch.fields && k !in todo ==>
        fields[k] == if k in base.fields then Merge(base.fields[k], patch.fields[k]) else patch.fields[k]
    {
      var key :| key in todo;
      var patchValue := patch.fields[key];
      if key in fields && fields[key].Obj? && patchValue.Obj? {
        var value := MergeJson(base.fields[key], patchValue);
        fields := fields[key := value];
      } else {
        fields := fields[key := patchValue];
      }
      todo := todo - {key};
    }
    assert fields == Merge(base, patch).fields;
    merged := Obj(fields);
  }

  lemma EmptyIsIdentity(f: Fields)
    ensures MergeFields(map[], f) == f && MergeFields(f, map[]) == f
  {
  }

  lemma {:induction false} MergeIdempotent(a: Json)
    ensures Merge(a, a) == a
  {
    if a.Obj? {
      forall k | k in a.fields
        ensures Merge(a.fields[k], a.fields[k]) == a.fields[k]
      {
        MergeIdempotent(a.fields[k]);
      }
      assert Merge(a, a).fields == a.fields;
    }
  }

  /** A patch applied twice is a patch applied once. */
  lemma {:induction false} MergeAbsorbs(a: Json, b: Json)
    ensures Merge(Merge(a, b), b) == Merge(a, b)
    decreases a
  {
    if a.Obj? && b.Obj? {
      var m := Merge(a, b);
      forall k | k in b.fields
        ensures Merge(m.fields[k], b.fields[k]) == m.fields[k]
      {
        if k in a.fields {
          MergeAbsorbs(a.fields[k], b.fields[k]);
        } else {
          MergeIdempotent(b.fields[k]);
        }
      }
      assert Merge(m, b).fields == m.fields;
    } else {
      MergeIdempotent(b);
    }
  }

  /** Every key of the base is already in the patch, to any depth where both hold records. */
  predicate Subsumes(patch: Json, base: Json)
    requires patch.Obj? && base.Obj?
    decreases base
  {
    forall k :: k in base.fields ==>
      k in patch.fields && (base.fields[k].Obj? && patch.fields[k].Obj? ==> Subsumes(patch.fields[k], base.fields[k]))
  }

  lemma {:induction false} SubsumesIff(patch: Json, base: Json)
    requires patch.Obj? && base.Obj?
    ensures Subsumes(patch, base) <==> Merge(base, patch) == patch
    decreases base
  {
    var m := Merge(base, patch);
    forall k | k in base.fields && k in patch.fields && base.fields[k].Obj? && patch.fields[k].Obj?
      ensures Subsumes(patch.fields[k], base.fields[k]) <==> m.fields[k] == patch.fields[k]
    {
      SubsumesIff(patch.fields[k], base.fields[k]);
    }
    if Subsumes(patch, base) {
      assert m.fields.Keys == patch.fields.Keys;
      forall k | k in m.fields
        ensures m.fields[k] == patch.fields[k]
      {
        if k in base.fields { assert m.fields[k] == Merge(base.fields[k], patch.fields[k]); }
      }
      assert m.fields == patch.fields;
    } else {
      var k :| k in base.fields
        && !(k in patch.fields
        && (base.fields[k].Obj? && patch.fields[k].Obj? ==> Subsumes(patch.fields[k], base.fields[k])));
      assert k in m.fields;
      assert k in patch.fields ==> m.fields[k] != patch.fields[k];
    }
  }

  /** No path holds record, non-record, record in the three operands, unless the third subsumes the first. */
  predicate Associative(a: Json, b: Json, c: Json)
    decreases a
  {
    a.Obj? && c.Obj? ==>
      if b.Obj? then forall k :: k in a.fields && k in b.fields && k in c.fields ==>
        Associative(a.fields[k], b.fields[k], c.fields[k])
      else Subsumes(c, a)
  }

  /** Exactly when grouping does not matter. */
  lemma {:induction false} MergeAssociativeIff(a: Json, b: Json, c: Json)
    ensures Merge(Merge(a, b), c) == Merge(a, Merge(b, c)) <==> Associative(a, b, c)
    decreases a
  {
    if a.Obj? && b.Obj? && c.Obj? {
      var l, r := Merge(Merge(a, b), c), Merge(a, Merge(b, c));
      assert l.fields.Keys == r.fields.Keys;
      forall k | k in l.fields
        ensures l.fields[k] == r.fields[k] <==>
          (k in a.fields && k in b.fields && k in c.fields ==> Associative(a.fields[k], b.fields[k], c.fields[k]))
      {
        if k in a.fields && k in b.fields && k in c.fields {
          MergeAssociativeIff(a.fields[k], b.fields[k], c.fields[k]);
        }
      }
      if Associative(a, b, c) {
        assert l.fields == r.fields;
      }
    } else if a.Obj? && c.Obj? {
      SubsumesIff(c, a);
    }
  }

  /** Grouping does matter in general: a scalar in the middle wipes out the first record's keys only one way round. */
  lemma MergeNotAssociative()
    ensures
      var a, b, c := Obj(map["x" := Null]), Null, Obj(map["y" := Null]);
      Merge(Merge(a, b), c) != Merge(a, Merge(b, c))
  {
    var a, b, c := Obj(map["x" := Null]), Null, Obj(map["y" := Null]);
    assert "x" in Merge(a, c).fields && "x" !in c.fields;
  }

  // ---------- The structured record ----------

  const LEGACY_KEYS := {"topologyMetadata", "deviceToDeviceMetadata", "honeypotExclusions", "meshDevices"}

  /** Legacy keys the record also keeps at its root. */
  const ROOT_KEYS := {"topologyMetadata", "deviceToDeviceMetadata", "honeypotExclusions"}

  function AsFields(j: Option<Json>): Fields {
    if j.Some? && j.value.Obj? then j.value.fields else map[]
  }

  function Get(f: Fields, k: string): Option<Json> {
    if k in f then Some(f[k]) else None
  }

  function LegacyMetadata(payload: Fields): Fields {
    map k | k in LEGACY_KEYS && k in payload :: payload[k]
  }

  function Items(payload: Fields, k: string): Option<seq<Json>> {
    if k in payload && payload[k].Arr? then Some(payload[k].items) else None
  }

  /** The first of the three spellings that holds an array, even an empty one. */
  function CommandResults(payload: Fields): seq<Json> {
    var a, b, c := Items(payload, "commandResults"), Items(payload, "results"), Items(payload, "command_results");
    if a.Some? then a.value else if b.Some? then b.value else c.GetOr([])
  }

  /** What arrives wins unless it is empty. */
  function Newer(incoming: seq<Json>, current: seq<Json>): seq<Json> {
    if |incoming| > 0 then incoming else current
  }

  function SchemaVersion(incoming: Fields, current: Fields): Json {
    if "schemaVersion" in incoming && incoming["schemaVersion"].Num? then incoming["schemaVersion"]
    else if "schemaVersion" in current && current["schemaVersion"].Num? then current["schemaVersion"]
    else Num("2")
  }

  function OwnMetadata(payload: Fields): Fields {
    MergeFields(AsFields(Get(payload, "metadata")), LegacyMetadata(payload))
  }

  function Metadata(current: Fields, incoming: Fields): Fields {
    MergeFields(OwnMetadata(current), OwnMetadata(incoming))
  }

  function Transport(current: Fields, incoming: Fields, patch: Fields): Fields {
    MergeFields(AsFields(Get(current, "transport")), MergeFields(AsFields(Get(incoming, "transport")), patch))
  }

  /** The values of the keys the record manages itself. */
  datatype Parts = Parts(
    metadata: Fields, results: seq<Json>, evidence: seq<Json>, verdicts: seq<Json>,
    transport: Fields, schemaVersion: Json)

  function PartsOf(current: Fields, incoming: Fields, patch: Fields): Parts {
    Parts(
      Metadata(current, incoming),
      Newer(CommandResults(incoming), CommandResults(current)),
      Newer(Items(incoming, "evidence").GetOr([]), Items(current, "evidence").GetOr([])),
      Newer(Items(incoming, "verdicts").GetOr([]), Items(current, "verdicts").GetOr([])),
      Transport(current, incoming, patch),
      SchemaVersion(incoming, current))
  }

  function Managed(p: Parts): Fields {
    map[
      "metadata" := Obj(p.metadata), "commandResults" := Arr(p.results), "results" := Arr(p.results),
      "evidence" := Arr(p.evidence), "verdicts" := Arr(p.verdicts),
      "transport" := Obj(p.transport), "schemaVersion" := p.schemaVersion
    ] + Surfaced(p.metadata)
  }

  /** The legacy keys found in the metadata, repeated at the root. */
  function Surfaced(meta: Fields): Fields {
    map k | k in ROOT_KEYS && k in meta :: meta[k]
  }

  function Build(existing: Json, payload: Json, patch: Fields): Fields {
    var current, incoming := AsFields(Some(existing)), AsFields(Some(payload));
    MergeFields(current, incoming) + Managed(PartsOf(current, incoming, patch))
  }

  method MergeObjects(a: Fields, b: Fields) returns (f: Fields)
    ensures f == MergeFields(a, b)
  {
    var merged := MergeJson(Obj(a), Obj(b));
    f := merged.fields;
  }

  method MergeMetadata(current: Fields, incoming: Fields) returns (metadata: Fields)
    ensures metadata == Metadata(current, incoming)
  {
    var own := MergeObjects(AsFields(Get(current, "metadata")), LegacyMetadata(current));
    var arriving := MergeObjects(AsFields(Get(incoming, "metadata")), LegacyMetadata(incoming));
    metadata := MergeObjects(own, arriving);
  }

  method MergeTransport(current: Fields, incoming: Fields, patch: Fields) returns (transport: Fields)
    ensures transport == Transport(current, incoming, patch)
  {
    var arriving := MergeObjects(AsFields(Get(incoming, "transport")), patch);
    transport := MergeObjects(AsFields(Get(current, "transport")), arriving);
  }

  /** The source's sequence of merges and assignments. */
  method BuildStructuredResultsJson(existing: Json, payload: Json, patch: Fields) returns (record: Fields)
    ensures record == Build(existing, payload, patch)
  {
    var current, incoming := AsFields(Some(existing)), AsFields(Some(payload));
    var root := MergeObjects(current, incoming);
    var metadata := MergeMetadata(current, incoming);
    var commandResults := if |CommandResults(incoming)| > 0 then CommandResults(incoming) else CommandResults(current);
    var incomingEvidence, incomingVerdicts :=
      Items(incoming, "evidence").GetOr([]), Items(incoming, "verdicts").GetOr([]);
    var evidence := if |incomingEvidence| > 0 then incomingEvidence else Items(current, "evidence").GetOr([]);
    var verdicts := if |incomingVerdicts| > 0 then incomingVerdicts else Items(current, "verdicts").GetOr([]);
    var transport := MergeTransport(current, incoming, patch);
    var parts := Parts(metadata, commandResults, evidence, verdicts, transport, SchemaVersion(incoming, current));
    record := Assign(root, parts);
  }

  /** The assignments over the merged root. */
  method Assign(root: Fields, p: Parts) returns (record: Fields)
    ensures record == root + Managed(p)
  {
    record := root;
    record := record["metadata" := Obj(p.metadata)];
    record := record["commandResults" := Arr(p.results)];
    record := record["results" := Arr(p.results)];
    record := record["evidence" := Arr(p.evidence)];
    record := record["verdicts" := Arr(p.verdicts)];
    record := record["transport" := Obj(p.transport)];
    record := record["schemaVersion" := p.schemaVersion];
    record := Surface(record, p.metadata);
  }

  /** The three conditional assignments that end the source function. */
  method Surface(before: Fields, metadata: Fields) returns (record: Fields)
    ensures record == before + Surfaced(metadata)
  {
    record := before;
    if "topologyMetadata" in metadata {
      record := record["topologyMetadata" := metadata["topologyMetadata"]];
    }
    if "deviceToDeviceMetadata" in metadata {
      record := record["deviceToDeviceMetadata" := metadata["deviceToDeviceMetadata"]];
    }
    if "honeypotExclusions" in metadata {
      record := record["honeypotExclusions" := metadata["honeypotExclusions"]];
    }
  }

  // ---------- Redelivery ----------

  function MergeOption(base: Option<Json>, patch: Option<Json>): Option<Json> {
    if patch.None? then base else if base.None? then patch else Some(Merge(base.value, patch.value))
  }

  lemma MergeAt(a: Fields, b: Fields, k: string)
    ensures Get(MergeFields(a, b), k) == MergeOption(Get(a, k), Get(b, k))
  {
  }

  lemma OptionAbsorbs(a: Option<Json>, b: Option<Json>)
    ensures MergeOption(MergeOption(a, b), b) == MergeOption(a, b)
    ensures MergeOption(b, b) == b
  {
    if b.Some? {
      MergeIdempotent(b.value);
      if a.Some? { MergeAbsorbs(a.value, b.value); }
    }
  }

  function Present(o: Option<Json>): nat {
    if o.Some? then 1 else 0
  }

  function Body(o: Option<Json>): Json {
    o.GetOr(Null)
  }

  predicate RecordOrAbsent(o: Option<Json>) {
    o.None? || o.value.Obj?
  }

  function OrElse(base: Option<Json>, patch1: Option<Json>, patch2: Option<Json>, patch3: Option<Json>): Option<Json> {
    MergeOption(MergeOption(base, patch1), MergeOption(patch2, patch3))
  }

  /**
   A legacy key that lives both at the root and inside the metadata is merged twice on
   redelivery, in a different order; the result is nevertheless settled after one delivery.
   `a`, `b` are the stored metadata and root values, `d`, `e` the incoming ones.
   */
  lemma {:induction false} LegacySettles(a: Option<Json>, b: Option<Json>, d: Option<Json>, e: Option<Json>)
    ensures
      var settled := OrElse(a, b, d, e);
      MergeOption(MergeOption(settled, MergeOption(b, e)), MergeOption(d, e)) == settled
    decreases Present(a) + Present(b) + Present(d) + Present(e), Body(a), Body(b), Body(d), Body(e)
  {
    var incoming := MergeOption(d, e);
    OptionAbsorbs(d, e);
    OptionAbsorbs(MergeOption(a, b), incoming);
    OptionAbsorbs(incoming, incoming);
    OptionAbsorbs(a, b);
    if !RecordOrAbsent(e) {
    } else if !RecordOrAbsent(d) {
      if e.Some? { LegacySettles(a, b, None, e); }
    } else if !RecordOrAbsent(b) {
    } else if !RecordOrAbsent(a) {
      if b.Some? { LegacySettles(None, b, d, e); }
    } else {
      LegacySettlesInside(a, b, d, e);
    }
  }

  lemma {:induction false} LegacySettlesInside(a: Option<Json>, b: Option<Json>, d: Option<Json>, e: Option<Json>)
    requires RecordOrAbsent(a) && RecordOrAbsent(b) && RecordOrAbsent(d) && RecordOrAbsent(e)
    ensures
      var settled := OrElse(a, b, d, e);
      MergeOption(MergeOption(settled, MergeOption(b, e)), MergeOption(d, e)) == settled
    decreases Present(a) + Present(b) + Present(d) + Present(e), Body(a), Body(b), Body(d), Body(e), 0
  {
    var settled := OrElse(a, b, d, e);
    var again := MergeOption(MergeOption(settled, MergeOption(b, e)), MergeOption(d, e));
    var fa, fb, fd, fe := AsFields(a), AsFields(b), AsFields(d), AsFields(e);
    if a.None? && b.None? && d.None? && e.None? { return; }
    forall k
      ensures Get(AsFields(again), k) == Get(AsFields(settled), k)
    {
      RecordMergeAt(a, b, k);
      RecordMergeAt(d, e, k);
      RecordMergeAt(b, e, k);
      RecordMergeAt(MergeOption(a, b), MergeOption(d, e), k);
      RecordMergeAt(settled, MergeOption(b, e), k);
      RecordMergeAt(MergeOption(settled, MergeOption(b, e)), MergeOption(d, e), k);
      LegacySettles(Get(fa, k), Get(fb, k), Get(fd, k), Get(fe, k));
    }
    SameFields(AsFields(again), AsFields(settled));
  }

  lemma RecordMergeAt(a: Option<Json>, b: Option<Json>, k: string)
    requires RecordOrAbsent(a) && RecordOrAbsent(b)
    ensures RecordOrAbsent(MergeOption(a, b))
    ensures Get(AsFields(MergeOption(a, b)), k) == MergeOption(Get(AsFields(a), k), Get(AsFields(b), k))
  {
  }

  lemma SameFields(f: Fields, g: Fields)
    requires forall k :: Get(f, k) == Get(g, k)
    ensures f == g
  {
    forall k
      ensures k in f <==> k in g
      ensures k in f ==> f[k] == g[k]
    {
      assert Get(f, k) == Get(g, k);
    }
  }

  lemma {:induction false} FieldsAbsorb(a: Fields, b: Fields)
    ensures MergeFields(MergeFields(a, b), b) == MergeFields(a, b)
  {
    MergeAbsorbs(Obj(a), Obj(b));
  }

  /** What a built record holds under each key. */
  lemma BuiltAt(existing: Json, payload: Json, patch: Fields, k: string)
    ensures
      var current, incoming := AsFields(Some(existing)), AsFields(Some(payload));
      var managed := Managed(PartsOf(current, incoming, patch));
      Get(Build(existing, payload, patch), k) ==
        if k in managed then Some(managed[k]) else MergeOption(Get(current, k), Get(incoming, k))
  {
    MergeAt(AsFields(Some(existing)), AsFields(Some(payload)), k);
  }

  lemma ManagedAt(p: Parts, k: string)
    ensures k in {"metadata", "commandResults", "results", "evidence", "verdicts", "transport", "schemaVersion"} ==>
      k in Managed(p)
    ensures k in ROOT_KEYS ==> Get(Managed(p), k) == Get(p.metadata, k)
    ensures k == "meshDevices" ==> k !in Managed(p)
  {
  }

  lemma ManagedValues(p: Parts)
    ensures
      {"metadata", "commandResults", "results", "evidence", "verdicts", "transport", "schemaVersion"} <= Managed(p).Keys
    ensures Managed(p)["metadata"] == Obj(p.metadata) && Managed(p)["commandResults"] == Arr(p.results)
    ensures Managed(p)["evidence"] == Arr(p.evidence) && Managed(p)["verdicts"] == Arr(p.verdicts)
    ensures Managed(p)["transport"] == Obj(p.transport) && Managed(p)["schemaVersion"] == p.schemaVersion
  {
  }

  /** A legacy key reaches the metadata from either side. */
  lemma LegacyReachesMetadata(current: Fields, incoming: Fields, k: string)
    ensures Get(Metadata(current, incoming), k) ==
            OrElse(Get(AsFields(Get(current, "metadata")), k), Get(LegacyMetadata(current), k),
                   Get(AsFields(Get(incoming, "metadata")), k), Get(LegacyMetadata(incoming), k))
  {
    MergeAt(AsFields(Get(current, "metadata")), LegacyMetadata(current), k);
    MergeAt(AsFields(Get(incoming, "metadata")), LegacyMetadata(incoming), k);
    MergeAt(OwnMetadata(current), OwnMetadata(incoming), k);
  }

  /** The record built once, seen as the stored record of a second delivery. */
  lemma StoredAt(existing: Json, payload: Json, patch: Fields, k: string)
    ensures
      var current, incoming := AsFields(Some(existing)), AsFields(Some(payload));
      var p := PartsOf(current, incoming, patch);
      var stored := Build(existing, payload, patch);
      && AsFields(Get(stored, "metadata")) == p.metadata
      && AsFields(Get(stored, "transport")) == p.transport
      && (k in ROOT_KEYS ==> Get(LegacyMetadata(stored), k) == Get(p.metadata, k))
      && (k == "meshDevices" ==>
        Get(LegacyMetadata(stored), k)
        == MergeOption(Get(LegacyMetadata(current), k), Get(LegacyMetadata(incoming), k)))
      && (k !in LEGACY_KEYS ==> Get(LegacyMetadata(stored), k).None?)
  {
    var current, incoming := AsFields(Some(existing)), AsFields(Some(payload));
    var p := PartsOf(current, incoming, patch);
    BuiltAt(existing, payload, patch, "metadata");
    BuiltAt(existing, payload, patch, "transport");
    BuiltAt(existing, payload, patch, k);
    ManagedAt(p, k);
    ManagedValues(p);
    if k in ROOT_KEYS { LegacyReachesMetadata(current, incoming, k); }
  }

  /** Redelivery leaves the metadata as it was. */
  lemma MetadataSettles(existing: Json, payload: Json, patch: Fields)
    ensures
      var current, incoming := AsFields(Some(existing)), AsFields(Some(payload));
      Metadata(Build(existing, payload, patch), incoming) == Metadata(current, incoming)
  {
    var current, incoming := AsFields(Some(existing)), AsFields(Some(payload));
    var stored := Build(existing, payload, patch);
    var once, twice := Metadata(current, incoming), Metadata(stored, incoming);
    forall k
      ensures Get(twice, k) == Get(once, k)
    {
      StoredAt(existing, payload, patch, k);
      LegacyReachesMetadata(current, incoming, k);
      LegacyReachesMetadata(stored, incoming, k);
      var a, b := Get(AsFields(Get(current, "metadata")), k), Get(LegacyMetadata(current), k);
      var d, e := Get(AsFields(Get(incoming, "metadata")), k), Get(LegacyMetadata(incoming), k);
      if k == "meshDevices" {
        LegacySettles(a, b, d, e);
      } else {
        OptionAbsorbs(Get(once, k), Get(once, k));
        OptionAbsorbs(MergeOption(a, b), MergeOption(d, e));
      }
    }
    SameFields(twice, once);
  }

  lemma PartsSettle(existing: Json, payload: Json, patch: Fields)
    ensures
      var current, incoming := AsFields(Some(existing)), AsFields(Some(payload));
      PartsOf(Build(existing, payload, patch), incoming, patch) == PartsOf(current, incoming, patch)
  {
    var current, incoming := AsFields(Some(existing)), AsFields(Some(payload));
    var stored := Build(existing, payload, patch);
    var p := PartsOf(current, incoming, patch);
    MetadataSettles(existing, payload, patch);
    StoredAt(existing, payload, patch, "transport");
    FieldsAbsorb(AsFields(Get(current, "transport")), MergeFields(AsFields(Get(incoming, "transport")), patch));
    ManagedValues(p);
    BuiltAt(existing, payload, patch, "commandResults");
    BuiltAt(existing, payload, patch, "evidence");
    BuiltAt(existing, payload, patch, "verdicts");
    BuiltAt(existing, payload, patch, "schemaVersion");
  }

  /** Delivering the same results again changes nothing, whatever was stored before. */
  lemma RedeliveryIsHarmless(existing: Json, payload: Json, patch: Fields)
    ensures Build(Obj(Build(existing, payload, patch)), payload, patch) == Build(existing, payload, patch)
  {
    var current, incoming := AsFields(Some(existing)), AsFields(Some(payload));
    var once := Build(existing, payload, patch);
    var twice := Build(Obj(once), payload, patch);
    PartsSettle(existing, payload, patch);
    forall k
      ensures Get(twice, k) == Get(once, k)
    {
      BuiltAt(existing, payload, patch, k);
      BuiltAt(Obj(once), payload, patch, k);
      OptionAbsorbs(Get(current, k), Get(incoming, k));
    }
    SameFields(twice, once);
  }

  // ---------- Deliveries one after the other ----------

  datatype Delivery = Delivery(payload: Json, patch: Fields)

  function Deliver(stored: Json, deliveries: seq<Delivery>): Json {
    if deliveries == [] then stored
    else
      var last := |deliveries| - 1;
      Obj(Build(Deliver(stored, deliveries[..last]), deliveries[last].payload, deliveries[last].patch))
  }

  /** The last nonempty result list among the deliveries, or the stored one. */
  function LatestResults(stored: Json, deliveries: seq<Delivery>): seq<Json> {
    if deliveries == [] then CommandResults(AsFields(Some(stored)))
    else
      var last := |deliveries| - 1;
      var incoming := CommandResults(AsFields(Some(deliveries[last].payload)));
      if incoming != [] then incoming else LatestResults(stored, deliveries[..last])
  }

  lemma BuiltManaged(existing: Json, payload: Json, patch: Fields, k: string)
    ensures
      var managed := Managed(PartsOf(AsFields(Some(existing)), AsFields(Some(payload)), patch));
      k in managed ==> Get(Build(existing, payload, patch), k) == Some(managed[k])
  {
  }

  /** Both result fields hold what arrived, unless that is empty. */
  lemma BuiltResults(existing: Json, payload: Json, patch: Fields)
    ensures
      var record := Build(existing, payload, patch);
      var results := Newer(CommandResults(AsFields(Some(payload))), CommandResults(AsFields(Some(existing))));
      Get(record, "commandResults") == Some(Arr(results)) && Get(record, "results") == Some(Arr(results))
  {
    BuiltManaged(existing, payload, patch, "commandResults");
    BuiltManaged(existing, payload, patch, "results");
    ManagedResults(PartsOf(AsFields(Some(existing)), AsFields(Some(payload)), patch));
  }

  lemma ManagedResults(p: Parts)
    ensures Get(Managed(p), "commandResults") == Get(Managed(p), "results") == Some(Arr(p.results))
  {
  }

  /** Then both result fields hold the last nonempty list that arrived: an empty list never erases one. */
  lemma {:induction false} ResultsFollowDeliveries(stored: Json, deliveries: seq<Delivery>)
    ensures CommandResults(AsFields(Some(Deliver(stored, deliveries)))) == LatestResults(stored, deliveries)
    ensures deliveries != [] ==>
      var record := AsFields(Some(Deliver(stored, deliveries)));
      && Get(record, "commandResults") == Some(Arr(LatestResults(stored, deliveries)))
      && Get(record, "results") == Get(record, "commandResults")
  {
    if deliveries != [] {
      var last := |deliveries| - 1;
      ResultsFollowDeliveries(stored, deliveries[..last]);
      var before, d := Deliver(stored, deliveries[..last]), deliveries[last];
      BuiltResults(before, d.payload, d.patch);
    }
  }
}
