/**
 The structured record of a test run, field by field: what each managed field holds after a delivery, in terms of the
 fields of what was stored and of what arrived, and what it holds after any number of deliveries.
 */
module ResultsRecord {
  import opened Wrappers
  import opened JsonValue
  import opened ResultsJson

  // ---------- Lists ----------

  /** The list under the key, if it is one and not empty. */
  predicate Lists(f: Fields, k: string, items: seq<Json>) {
    k in f && f[k] == Arr(items) && items != []
  }

  predicate HoldsList(f: Fields, k: string) {
    k in f && f[k].Arr?
  }

  /** The first of the three spellings under which a list is found, empty or not. */
  lemma ResultSpellings(f: Fields)
    ensures HoldsList(f, "commandResults") ==> f["commandResults"] == Arr(CommandResults(f))
    ensures !HoldsList(f, "commandResults") && HoldsList(f, "results") ==> f["results"] == Arr(CommandResults(f))
    ensures !HoldsList(f, "commandResults") && !HoldsList(f, "results") && HoldsList(f, "command_results") ==>
      f["command_results"] == Arr(CommandResults(f))
    ensures !HoldsList(f, "commandResults") && !HoldsList(f, "results") && !HoldsList(f, "command_results") ==>
      CommandResults(f) == []
  {
  }

  /** A nonempty list that arrives replaces the stored one; otherwise the stored list stays, or an empty one. */
  lemma ListKept(current: Fields, incoming: Fields, patch: Fields, k: string, items: seq<Json>)
    requires k in {"evidence", "verdicts"}
    ensures
      var record := Build(Obj(current), Obj(incoming), patch);
      k in record && record[k].Arr?
    ensures
      var record := Build(Obj(current), Obj(incoming), patch);
      Lists(record, k, items) <==>
        Lists(incoming, k, items) || (Lists(current, k, items) && forall xs :: !Lists(incoming, k, xs))
  {
    var p := PartsOf(current, incoming, patch);
    ManagedValues(p);
    BuiltManaged(Obj(current), Obj(incoming), patch, k);
    ArrivesOrNot(incoming, k);
  }

  lemma ArrivesOrNot(f: Fields, k: string)
    ensures (forall xs :: !Lists(f, k, xs)) <==> Items(f, k).GetOr([]) == []
  {
    if Items(f, k).GetOr([]) != [] { assert Lists(f, k, f[k].items); }
  }

  /** The last nonempty list under the key among the deliveries, or the stored one. */
  function LatestList(stored: Json, deliveries: seq<Delivery>, k: string): seq<Json> {
    if deliveries == [] then
      if stored.Obj? && HoldsList(stored.fields, k) then stored.fields[k].items else []
    else
      var last := |deliveries| - 1;
      var payload := deliveries[last].payload;
      if payload.Obj? && HoldsList(payload.fields, k) && payload.fields[k].items != [] then payload.fields[k].items
      else LatestList(stored, deliveries[..last], k)
  }

  /** Evidence and verdicts follow the deliveries as the results do: an empty list never erases one. */
  lemma {:induction false} ListsFollowDeliveries(stored: Json, deliveries: seq<Delivery>, k: string)
    requires k in {"evidence", "verdicts"}
    ensures Items(AsFields(Some(Deliver(stored, deliveries))), k).GetOr([]) == LatestList(stored, deliveries, k)
    ensures deliveries != [] ==>
      Deliver(stored, deliveries).Obj?
      && Get(Deliver(stored, deliveries).fields, k) == Some(Arr(LatestList(stored, deliveries, k)))
  {
    if deliveries != [] {
      var last := |deliveries| - 1;
      ListsFollowDeliveries(stored, deliveries[..last], k);
      var before, d := Deliver(stored, deliveries[..last]), deliveries[last];
      BuiltManaged(before, d.payload, d.patch, k);
      ManagedValues(PartsOf(AsFields(Some(before)), AsFields(Some(d.payload)), d.patch));
    }
  }

  // ---------- Transport and schema version ----------

  function Inside(f: Fields, k: string): Fields {
    if k in f && f[k].Obj? then f[k].fields else map[]
  }

  /** A transport flag: what the handler says, or else what the payload says, or else what was stored. */
  lemma TransportFlag(current: Fields, incoming: Fields, patch: Fields, flag: string)
    ensures
      var record := Build(Obj(current), Obj(incoming), patch);
      "transport" in record && record["transport"].Obj?
    ensures
      var transport := Inside(Build(Obj(current), Obj(incoming), patch), "transport");
      && (flag in patch && !patch[flag].Obj? ==> Get(transport, flag) == Some(patch[flag]))
      && (flag !in patch && flag in Inside(incoming, "transport") && !Inside(incoming, "transport")[flag].Obj? ==>
            Get(transport, flag) == Some(Inside(incoming, "transport")[flag]))
      && (flag !in patch && flag !in Inside(incoming, "transport") ==>
            Get(transport, flag) == Get(Inside(current, "transport"), flag))
  {
    BuiltManaged(Obj(current), Obj(incoming), patch, "transport");
    ManagedValues(PartsOf(current, incoming, patch));
    var arriving := Inside(incoming, "transport");
    MergeAt(Inside(current, "transport"), MergeFields(arriving, patch), flag);
    MergeAt(arriving, patch, flag);
  }

  /** The schema version is a number: the one that arrives, or else the stored one, or else 2. */
  lemma SchemaVersionKept(current: Fields, incoming: Fields, patch: Fields)
    ensures Get(Build(Obj(current), Obj(incoming), patch), "schemaVersion") == Some(
      if "schemaVersion" in incoming && incoming["schemaVersion"].Num? then incoming["schemaVersion"]
      else if "schemaVersion" in current && current["schemaVersion"].Num? then current["schemaVersion"]
      else Num("2"))
  {
    BuiltManaged(Obj(current), Obj(incoming), patch, "schemaVersion");
    ManagedValues(PartsOf(current, incoming, patch));
  }

  // ---------- Metadata and everything else ----------

  lemma MetadataBuilt(current: Fields, incoming: Fields, patch: Fields)
    ensures Get(Build(Obj(current), Obj(incoming), patch), "metadata") == Some(Obj(Metadata(current, incoming)))
  {
    BuiltManaged(Obj(current), Obj(incoming), patch, "metadata");
    ManagedValues(PartsOf(current, incoming, patch));
  }

  lemma LegacyAt(f: Fields, k: string)
    ensures Get(LegacyMetadata(f), k) ==
      if k in {"topologyMetadata", "deviceToDeviceMetadata", "honeypotExclusions", "meshDevices"} then Get(f, k)
      else None
  {
  }

  lemma InsideIsFields(f: Fields, k: string)
    ensures Inside(f, k) == AsFields(Get(f, k))
  {
  }

  /**
   A metadata key is merged from the stored metadata, the stored root if it is one of the four legacy keys, the
   metadata that arrives, and the root that arrives, later values winning.
   */
  lemma MetadataKey(current: Fields, incoming: Fields, patch: Fields, k: string)
    ensures
      var record := Build(Obj(current), Obj(incoming), patch);
      "metadata" in record && record["metadata"].Obj?
    ensures
      var legacy := k in {"topologyMetadata", "deviceToDeviceMetadata", "honeypotExclusions", "meshDevices"};
      Get(Inside(Build(Obj(current), Obj(incoming), patch), "metadata"), k) ==
        OrElse(Get(Inside(current, "metadata"), k), if legacy then Get(current, k) else None,
               Get(Inside(incoming, "metadata"), k), if legacy then Get(incoming, k) else None)
  {
    MetadataBuilt(current, incoming, patch);
    LegacyReachesMetadata(current, incoming, k);
    LegacyAt(current, k);
    LegacyAt(incoming, k);
    InsideIsFields(current, "metadata");
    InsideIsFields(incoming, "metadata");
    InsideIsFields(Build(Obj(current), Obj(incoming), patch), "metadata");
  }

  /** Three of the legacy keys are shown at the root as the metadata has them; a key nothing manages is merged. */
  lemma RootKey(current: Fields, incoming: Fields, patch: Fields, k: string)
    requires k !in {"metadata", "commandResults", "results", "evidence", "verdicts", "transport", "schemaVersion"}
    ensures
      var record := Build(Obj(current), Obj(incoming), patch);
      var metadata := Inside(record, "metadata");
      Get(record, k) ==
        if k in {"topologyMetadata", "deviceToDeviceMetadata", "honeypotExclusions"} && k in metadata
        then Get(metadata, k) else MergeOption(Get(current, k), Get(incoming, k))
  {
    MetadataBuilt(current, incoming, patch);
    InsideIsFields(Build(Obj(current), Obj(incoming), patch), "metadata");
    BuiltAt(Obj(current), Obj(incoming), patch, k);
    SurfacedAt(PartsOf(current, incoming, patch), k);
  }

  lemma SurfacedAt(p: Parts, k: string)
    requires k !in {"metadata", "commandResults", "results", "evidence", "verdicts", "transport", "schemaVersion"}
    ensures Get(Managed(p), k) ==
      if k in {"topologyMetadata", "deviceToDeviceMetadata", "honeypotExclusions"} then Get(p.metadata, k) else None
  {
  }

  /** Merged values: a value that is not a record replaces, records are merged, an absent one changes nothing. */
  lemma MergedValue(base: Option<Json>, patch: Option<Json>, k: string)
    ensures patch.None? ==> MergeOption(base, patch) == base
    ensures patch.Some? && (base.None? || !base.value.Obj? || !patch.value.Obj?) ==> MergeOption(base, patch) == patch
    ensures base.Some? && base.value.Obj? && patch.Some? && patch.value.Obj? ==>
      var merged := MergeOption(base, patch);
      && merged.Some? && merged.value.Obj?
      && Get(merged.value.fields, k) == MergeOption(Get(base.value.fields, k), Get(patch.value.fields, k))
  {
  }

  /** Anything that is not a record counts as an empty one, stored or arriving. */
  lemma OtherValuesAreEmpty(existing: Json, payload: Json, patch: Fields)
    ensures
      var current := if existing.Obj? then existing.fields else map[];
      var incoming := if payload.Obj? then payload.fields else map[];
      Build(existing, payload, patch) == Build(Obj(current), Obj(incoming), patch)
  {
  }
}
