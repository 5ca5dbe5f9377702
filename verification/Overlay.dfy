// A provider's model list: caller models, the bundled catalog, and the discovery overlay.
module Overlay {
  import opened Prelude

  // The metadata beside the id is carried along, never looked at.
  datatype Model = Model(id: string, provider: string, name: string, contextWindow: nat, maxTokens: nat)

  // One entry of a fetched catalog.
  datatype CatalogEntry = CatalogEntry(id: string, deprecated: bool, name: string, contextWindow: nat, maxTokens: nat)

  // What is persisted between processes.
  datatype Snapshot = Snapshot(models: seq<Model>, probedIds: seq<string>, deprecatedIds: seq<string>)

  // The overlay's three layers.
  datatype Layers = Layers(deprecatedIds: seq<string>, refreshed: seq<Model>, probed: seq<Model>)

  const EMPTY: Layers := Layers([], [], [])

  const INDIVIDUAL_PLAN := "qwen-token-plan-individual"

  const INDIVIDUAL_MODELS: seq<string> := [
    "deepseek-v4-flash-0731", "deepseek-v4-pro", "deepseek-v4-pro-0813", "glm-5.2", "qwen3.6-flash",
    "qwen3.7-max", "qwen3.7-plus", "qwen3.8-flash", "qwen3.8-max"]

  predicate Allowed(source: string, id: string) {
    source != INDIVIDUAL_PLAN || id in INDIVIDUAL_MODELS
  }

  // ---------------------------------------------------------------- merging

  predicate HasId(models: seq<Model>, id: string) {
    exists k :: 0 <= k < |models| && models[k].id == id
  }

  // The index of the first model with this id, or the length.
  function IndexOf(models: seq<Model>, id: string): (i: nat)
    ensures i <= |models|
    ensures i < |models| ==> models[i].id == id
    ensures forall k :: 0 <= k < i ==> models[k].id != id
    ensures i < |models| <==> HasId(models, id)
  {
    if models == [] then 0
    else if models[0].id == id then 0
    else
      assert forall k :: 0 <= k < |models[1..]| ==> models[1..][k] == models[k + 1];
      1 + IndexOf(models[1..], id)
  }

  // Replace the first model with the same id, or append.
  function Overridden(models: seq<Model>, m: Model): seq<Model> {
    var i := IndexOf(models, m.id);
    if i < |models| then models[i := m] else models + [m]
  }

  function OverrideAll(models: seq<Model>, more: seq<Model>): seq<Model>
    decreases |more|
  {
    if more == [] then models else Overridden(OverrideAll(models, more[..|more| - 1]), more[|more| - 1])
  }

  // Append unless the id is known.
  function Appended(models: seq<Model>, m: Model): seq<Model> {
    if HasId(models, m.id) then models else models + [m]
  }

  function AppendAll(models: seq<Model>, more: seq<Model>): seq<Model>
    decreases |more|
  {
    if more == [] then models else Appended(AppendAll(models, more[..|more| - 1]), more[|more| - 1])
  }

  predicate Served(layers: Layers, source: string, m: Model) {
    m.id !in layers.deprecatedIds && Allowed(source, m.id)
  }

  function Retained(models: seq<Model>, layers: Layers, source: string): seq<Model> {
    if models == [] then []
    else
      var before := Retained(models[..|models| - 1], layers, source);
      if Served(layers, source, models[|models| - 1]) then before + [models[|models| - 1]] else before
  }

  function Baseline(own: seq<Model>, catalog: seq<Model>): seq<Model> {
    AppendAll(own, catalog)
  }

  // Everything known, before retired and disallowed models are dropped.
  function Known(own: seq<Model>, catalog: seq<Model>, layers: Layers): seq<Model> {
    AppendAll(OverrideAll(Baseline(own, catalog), layers.refreshed), layers.probed)
  }

  function ModelList(own: seq<Model>, catalog: seq<Model>, layers: Layers, source: string): seq<Model> {
    Retained(Known(own, catalog, layers), layers, source)
  }

  // ---------------------------------------------------------------- catalog refresh

  // The entries a catalog contributes, after the allowlist.
  function Parsed(entries: seq<CatalogEntry>, source: string): seq<CatalogEntry> {
    if entries == [] then []
    else
      var before := Parsed(entries[..|entries| - 1], source);
      if Allowed(source, entries[|entries| - 1].id) then before + [entries[|entries| - 1]] else before
  }

  // The models of the entries that are not deprecated, stamped with the provider.
  function Active(parsed: seq<CatalogEntry>, provider: string): seq<Model> {
    if parsed == [] then []
    else
      var before, e := Active(parsed[..|parsed| - 1], provider), parsed[|parsed| - 1];
      if e.deprecated then before else before + [Model(e.id, provider, e.name, e.contextWindow, e.maxTokens)]
  }

  function Without(ids: seq<string>, id: string): seq<string> {
    if ids == [] then []
    else
      var before := Without(ids[..|ids| - 1], id);
      if ids[|ids| - 1] == id then before else before + [ids[|ids| - 1]]
  }

  function Marked(ids: seq<string>, e: CatalogEntry): seq<string> {
    Without(ids, e.id) + (if e.deprecated then [e.id] else [])
  }

  function MarkAll(ids: seq<string>, parsed: seq<CatalogEntry>): seq<string>
    decreases |parsed|
  {
    if parsed == [] then ids else Marked(MarkAll(ids, parsed[..|parsed| - 1]), parsed[|parsed| - 1])
  }

  function Refreshed(layers: Layers, entries: seq<CatalogEntry>, source: string, provider: string): Layers {
    var parsed := Parsed(entries, source);
    layers.(deprecatedIds := MarkAll(layers.deprecatedIds, parsed), refreshed := Active(parsed, provider))
  }

  // ---------------------------------------------------------------- snapshot and restore

  // The probed ids a snapshot records: those that surface from the probe layer.
  function ProbedIds(probed: seq<Model>, own: seq<Model>, catalog: seq<Model>, layers: Layers,
                     source: string): seq<string>
    decreases |probed|
  {
    if probed == [] then []
    else
      var before, m := ProbedIds(probed[..|probed| - 1], own, catalog, layers, source), probed[|probed| - 1];
      if !Served(layers, source, m) || HasId(own, m.id) || HasId(catalog, m.id) || HasId(layers.refreshed, m.id)
      then before else before + [m.id]
  }

  function Snapshotted(own: seq<Model>, catalog: seq<Model>, layers: Layers, source: string): Snapshot {
    Snapshot(ModelList(own, catalog, layers, source), ProbedIds(layers.probed, own, catalog, layers, source),
             layers.deprecatedIds)
  }

  function OfProvider(models: seq<Model>, provider: string, ids: seq<string>, probed: bool): seq<Model> {
    if models == [] then []
    else
      var before, m := OfProvider(models[..|models| - 1], provider, ids, probed), models[|models| - 1];
      if m.provider == provider && (m.id in ids) == probed then before + [m] else before
  }

  function Restored(layers: Layers, entry: Snapshot, provider: string): Layers {
    if layers.refreshed != [] || layers.probed != [] || layers.deprecatedIds != [] then layers
    else
      Layers(entry.deprecatedIds,
             OfProvider(entry.models, provider, entry.probedIds, false),
             OfProvider(entry.models, provider, entry.probedIds, true))
  }

  // ---------------------------------------------------------------- the provider

  datatype RefreshOutcome = Success | Failed | Skipped

  class Provider {
    const id: string
    const own: seq<Model>
    const catalog: seq<Model>
    const modelsDevId: Option<string>
    // The locked overlay.
    var deprecatedModelIds: seq<string>
    var refreshed: seq<Model>
    var probed: seq<Model>

    constructor (id: string, own: seq<Model>, catalog: seq<Model>, modelsDevId: Option<string>)
      ensures View() == EMPTY
      ensures this.id == id && this.own == own && this.catalog == catalog && this.modelsDevId == modelsDevId
    {
      this.id, this.own, this.catalog, this.modelsDevId := id, own, catalog, modelsDevId;
      deprecatedModelIds, refreshed, probed := [], [], [];
    }

    function View(): Layers
      reads this
    {
      Layers(deprecatedModelIds, refreshed, probed)
    }

    function Source(): string {
      modelsDevId.GetOr("")
    }

    method Models() returns (merged: seq<Model>)
      ensures merged == ModelList(own, catalog, View(), Source())
    {
      merged := own;
      for i := 0 to |catalog|
        invariant merged == AppendAll(own, catalog[..i])
      {
        assert catalog[..i + 1][..i] == catalog[..i];
        if !HasId(merged, catalog[i].id) {
          merged := merged + [catalog[i]];
        }
      }
      assert catalog[..|catalog|] == catalog;
      for i := 0 to |refreshed|
        invariant merged == OverrideAll(Baseline(own, catalog), refreshed[..i])
      {
        assert refreshed[..i + 1][..i] == refreshed[..i];
        var at := IndexOf(merged, refreshed[i].id);
        if at < |merged| {
          merged := merged[at := refreshed[i]];
        } else {
          merged := merged + [refreshed[i]];
        }
      }
      assert refreshed[..|refreshed|] == refreshed;
      ghost var overridden := merged;
      for i := 0 to |probed|
        invariant merged == AppendAll(overridden, probed[..i])
      {
        assert probed[..i + 1][..i] == probed[..i];
        if !HasId(merged, probed[i].id) {
          merged := merged + [probed[i]];
        }
      }
      assert probed[..|probed|] == probed;
      merged := RetainServed(merged);
    }

    method RetainServed(models: seq<Model>) returns (kept: seq<Model>)
      ensures kept == Retained(models, View(), Source())
    {
      kept := [];
      for i := 0 to |models|
        invariant kept == Retained(models[..i], View(), Source())
      {
        assert models[..i + 1][..i] == models[..i];
        if models[i].id !in deprecatedModelIds && Allowed(Source(), models[i].id) {
          kept := kept + [models[i]];
        }
      }
      assert models[..|models|] == models;
    }

    // `entries` is the provider's part of a fetched catalog, `None` when it has none.
    method ApplyModelsDev(entries: Option<seq<CatalogEntry>>) returns (outcome: RefreshOutcome)
      modifies this
      ensures modelsDevId.None? ==> outcome == Skipped && View() == old(View())
      ensures modelsDevId.Some? && entries.None? ==> outcome == Failed && View() == old(View())
      ensures modelsDevId.Some? && entries.Some? ==>
              outcome == Success && View() == Refreshed(old(View()), entries.value, modelsDevId.value, id)
    {
      if modelsDevId.None? {
        return Skipped;
      }
      if entries.None? {
        return Failed;
      }
      var parsed := Parsed(entries.value, modelsDevId.value);
      for i := 0 to |parsed|
        invariant deprecatedModelIds == MarkAll(old(deprecatedModelIds), parsed[..i])
        invariant refreshed == old(refreshed) && probed == old(probed)
      {
        assert parsed[..i + 1][..i] == parsed[..i];
        deprecatedModelIds := Without(deprecatedModelIds, parsed[i].id);
        if parsed[i].deprecated {
          deprecatedModelIds := deprecatedModelIds + [parsed[i].id];
        }
      }
      assert parsed[..|parsed|] == parsed;
      refreshed := Active(parsed, id);
      outcome := Success;
    }

    // A probe that succeeded replaces the probed layer.
    method InstallProbed(listed: seq<Model>)
      modifies this
      ensures View() == old(View()).(probed := listed)
    {
      probed := listed;
    }

    method RestoreOverlay(entry: Snapshot)
      modifies this
      ensures View() == Restored(old(View()), entry, id)
    {
      if refreshed != [] || probed != [] || deprecatedModelIds != [] {
        return;
      }
      deprecatedModelIds := entry.deprecatedIds;
      refreshed := OfProvider(entry.models, id, entry.probedIds, false);
      probed := OfProvider(entry.models, id, entry.probedIds, true);
    }

    method OverlaySnapshot() returns (entry: Snapshot)
      ensures entry == Snapshotted(own, catalog, View(), Source())
    {
      var probedIds: seq<string> := [];
      for i := 0 to |probed|
        invariant probedIds == ProbedIds(probed[..i], own, catalog, View(), Source())
      {
        assert probed[..i + 1][..i] == probed[..i];
        var m := probed[i];
        if m.id in deprecatedModelIds || !Allowed(Source(), m.id) {
          continue;
        }
        if HasId(own, m.id) || HasId(catalog, m.id) || HasId(refreshed, m.id) {
          continue;
        }
        probedIds := probedIds + [m.id];
      }
      assert probed[..|probed|] == probed;
      var models := Models();
      entry := Snapshot(models, probedIds, deprecatedModelIds);
    }
  }
}
