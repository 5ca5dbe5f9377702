// Restoring a snapshot gives the same model list; retirement follows the last catalog
// that named the model.
module OverlayTheorems {
  import opened Prelude
  import opened Overlay

  predicate Distinct(models: seq<Model>) {
    forall i, j :: 0 <= i < j < |models| ==> models[i].id != models[j].id
  }

  predicate SameIds(xs: seq<Model>, ys: seq<Model>) {
    |xs| == |ys| && forall i :: 0 <= i < |xs| ==> xs[i].id == ys[i].id
  }

  // Every discovered model is stamped with the provider.
  predicate Stamped(models: seq<Model>, provider: string) {
    forall i :: 0 <= i < |models| ==> models[i].provider == provider
  }

  predicate Disjoint(xs: seq<Model>, ys: seq<Model>) {
    forall i, j :: 0 <= i < |xs| && 0 <= j < |ys| ==> xs[i].id != ys[j].id
  }

  lemma {:induction false} HasIdAppend(xs: seq<Model>, ys: seq<Model>, id: string)
    ensures HasId(xs + ys, id) <==> HasId(xs, id) || HasId(ys, id)
  {
    if HasId(xs, id) {
      var k :| 0 <= k < |xs| && xs[k].id == id;
      assert (xs + ys)[k].id == id;
    }
    if HasId(ys, id) {
      var k :| 0 <= k < |ys| && ys[k].id == id;
      assert (xs + ys)[|xs| + k].id == id;
    }
    if HasId(xs + ys, id) {
      var k :| 0 <= k < |xs + ys| && (xs + ys)[k].id == id;
      if k < |xs| {
        assert xs[k].id == id;
      } else {
        assert ys[k - |xs|].id == id;
      }
    }
  }

  lemma {:induction false} HasIdSame(xs: seq<Model>, ys: seq<Model>, id: string)
    requires SameIds(xs, ys) && HasId(xs, id)
    ensures HasId(ys, id)
  {
    var k :| 0 <= k < |xs| && xs[k].id == id;
    assert ys[k].id == id;
  }

  lemma {:induction false} HasIdSnoc(xs: seq<Model>, m: Model, id: string)
    ensures HasId(xs + [m], id) <==> HasId(xs, id) || m.id == id
  {
    HasIdAppend(xs, [m], id);
    assert [m][0] == m;
  }

  // Where the first model with an id stands depends only on the ids.
  lemma {:induction false} IndexSame(xs: seq<Model>, ys: seq<Model>, id: string)
    requires SameIds(xs, ys)
    ensures IndexOf(xs, id) == IndexOf(ys, id)
  {
    if HasId(xs, id) {
      HasIdSame(xs, ys, id);
    }
    if HasId(ys, id) {
      HasIdSame(ys, xs, id);
    }
  }

  lemma {:induction false} IndexAppend(xs: seq<Model>, ys: seq<Model>, id: string)
    ensures IndexOf(xs + ys, id) == if HasId(xs, id) then IndexOf(xs, id) else |xs| + IndexOf(ys, id)
  {
    var i, j, k := IndexOf(xs + ys, id), IndexOf(xs, id), IndexOf(ys, id);
    HasIdAppend(xs, ys, id);
    if HasId(xs, id) {
      assert (xs + ys)[j].id == id;
      assert i < |xs| ==> xs[i].id == (xs + ys)[i].id;
    } else if HasId(ys, id) {
      assert (xs + ys)[|xs| + k].id == id;
      assert i >= |xs| ==> ys[i - |xs|].id == (xs + ys)[i].id;
    }
  }

  // ---------------------------------------------------------------- overriding

  // The base, entry by entry kept or replaced, then new ids.
  ghost predicate OverrideShape(base: seq<Model>, more: seq<Model>, x: seq<Model>, y: seq<Model>) {
    && OverrideAll(base, more) == x + y && SameIds(x, base)
    && (forall i :: 0 <= i < |x| ==> x[i] == base[i] || (x[i] in more && i == IndexOf(base, base[i].id)))
    && (forall i :: 0 <= i < |y| ==> y[i] in more && !HasId(base, y[i].id))
    && Distinct(y)
  }

  lemma {:induction false} OverrideAllShape(base: seq<Model>, more: seq<Model>) returns (x: seq<Model>, y: seq<Model>)
    ensures OverrideShape(base, more, x, y)
    decreases |more|
  {
    if more == [] {
      x, y := base, [];
    } else {
      var before, m := more[..|more| - 1], more[|more| - 1];
      x, y := OverrideAllShape(base, before);
      assert forall k :: k in before ==> k in more;
      x, y := OverrideOneShape(base, before, m, x, y);
      assert before + [m] == more;
    }
  }

  lemma {:induction false} OverrideOneShape(base: seq<Model>, before: seq<Model>, m: Model, x: seq<Model>,
                                            y: seq<Model>)
    returns (x': seq<Model>, y': seq<Model>)
    requires OverrideShape(base, before, x, y)
    ensures OverrideShape(base, before + [m], x', y')
  {
    assert (before + [m])[..|before|] == before;
    IndexAppend(x, y, m.id);
    IndexSame(x, base, m.id);
    if HasId(x, m.id) {
      x', y' := x[IndexOf(x, m.id) := m], y;
      assert (x + y)[IndexOf(x, m.id) := m] == x' + y';
    } else {
      x' := x;
      y' := OverrideNew(base, before, m, x, y);
    }
  }

  lemma {:induction false} OverrideNew(base: seq<Model>, before: seq<Model>, m: Model, x: seq<Model>, y: seq<Model>)
    returns (y': seq<Model>)
    requires OverrideShape(base, before, x, y) && !HasId(x, m.id) && !HasId(base, m.id)
    ensures OverrideShape(base, before + [m], x, y')
  {
    assert (before + [m])[..|before|] == before;
    IndexAppend(x, y, m.id);
    if HasId(y, m.id) {
      var j := IndexOf(y, m.id);
      y' := y[j := m];
      assert (x + y)[|x| + j := m] == x + y';
    } else {
      y' := y + [m];
      assert (x + y) + [m] == x + y';
      NewIdDistinct(y, m);
    }
  }

  lemma {:induction false} NewIdDistinct(y: seq<Model>, m: Model)
    requires Distinct(y) && !HasId(y, m.id)
    ensures Distinct(y + [m])
  {
    forall i, j | 0 <= i < j < |y + [m]|
      ensures (y + [m])[i].id != (y + [m])[j].id
    {
      if j == |y| {
        assert y[i].id != m.id;
      }
    }
  }

  lemma {:induction false} OverrideAllIds(base: seq<Model>, more: seq<Model>, id: string)
    ensures HasId(OverrideAll(base, more), id) <==> HasId(base, id) || HasId(more, id)
    decreases |more|
  {
    if more != [] {
      var before, m := more[..|more| - 1], more[|more| - 1];
      OverrideAllIds(base, before, id);
      assert before + [m] == more;
      HasIdSnoc(before, m, id);
      OverriddenIds(OverrideAll(base, before), m, id);
    }
  }

  lemma {:induction false} OverriddenIds(models: seq<Model>, m: Model, id: string)
    ensures HasId(Overridden(models, m), id) <==> HasId(models, id) || m.id == id
  {
    var i := IndexOf(models, m.id);
    if i < |models| {
      if HasId(models, id) {
        HasIdSame(models, models[i := m], id);
      }
      if HasId(models[i := m], id) {
        HasIdSame(models[i := m], models, id);
      }
    } else {
      HasIdSnoc(models, m, id);
    }
  }

  // ---------------------------------------------------------------- appending

  ghost predicate AppendShape(base: seq<Model>, more: seq<Model>, z: seq<Model>) {
    && AppendAll(base, more) == base + z && Distinct(z)
    && (forall i :: 0 <= i < |z| ==> z[i] in more && !HasId(base, z[i].id))
    && (forall id :: HasId(more, id) && !HasId(base, id) ==> HasId(z, id))
  }

  lemma {:induction false} AppendAllShape(base: seq<Model>, more: seq<Model>) returns (z: seq<Model>)
    ensures AppendShape(base, more, z)
    decreases |more|
  {
    if more == [] {
      z := [];
      assert base + [] == base;
    } else {
      var before, m := more[..|more| - 1], more[|more| - 1];
      var z0 := AppendAllShape(base, before);
      assert before + [m] == more;
      z := AppendOneShape(base, before, m, z0);
    }
  }

  lemma {:induction false} AppendOneShape(base: seq<Model>, before: seq<Model>, m: Model, z: seq<Model>)
    returns (z': seq<Model>)
    requires AppendShape(base, before, z)
    ensures AppendShape(base, before + [m], z')
  {
    assert (before + [m])[..|before|] == before;
    HasIdAppend(base, z, m.id);
    if HasId(base + z, m.id) {
      z' := z;
    } else {
      z' := z + [m];
      assert (base + z) + [m] == base + z';
      NewIdDistinct(z, m);
    }
    forall id | HasId(before + [m], id) && !HasId(base, id)
      ensures HasId(z', id)
    {
      HasIdSnoc(before, m, id);
      HasIdSnoc(z, m, id);
    }
  }

  lemma {:induction false} AppendAllIds(base: seq<Model>, more: seq<Model>, id: string)
    ensures HasId(AppendAll(base, more), id) <==> HasId(base, id) || HasId(more, id)
    decreases |more|
  {
    if more != [] {
      var before, m := more[..|more| - 1], more[|more| - 1];
      AppendAllIds(base, before, id);
      assert before + [m] == more;
      HasIdSnoc(before, m, id);
      HasIdSnoc(AppendAll(base, before), m, id);
    }
  }

  // Lists whose ids are all new are simply appended.
  lemma {:induction false} AppendNew(base: seq<Model>, more: seq<Model>)
    requires Distinct(more) && Disjoint(base, more)
    ensures AppendAll(base, more) == base + more && OverrideAll(base, more) == base + more
    decreases |more|
  {
    if more == [] {
      assert base + [] == base;
    } else {
      var before, m := more[..|more| - 1], more[|more| - 1];
      AppendNew(base, before);
      assert before + [m] == more;
      HasIdAppend(base, before, m.id);
      assert !HasId(before, m.id);
      assert !HasId(base, m.id);
      assert (base + before) + [m] == base + more;
    }
  }

  // ---------------------------------------------------------------- filters

  lemma {:induction false} RetainedAppend(xs: seq<Model>, ys: seq<Model>, layers: Layers, source: string)
    ensures Retained(xs + ys, layers, source) == Retained(xs, layers, source) + Retained(ys, layers, source)
    decreases |ys|
  {
    if ys == [] {
      assert xs + ys == xs;
    } else {
      assert (xs + ys)[..|xs + ys| - 1] == xs + ys[..|ys| - 1];
      RetainedAppend(xs, ys[..|ys| - 1], layers, source);
    }
  }

  lemma {:induction false} RetainedIds(xs: seq<Model>, layers: Layers, source: string, id: string)
    ensures HasId(Retained(xs, layers, source), id) <==>
            HasId(xs, id) && id !in layers.deprecatedIds && Allowed(source, id)
    decreases |xs|
  {
    if xs != [] {
      var before, m := xs[..|xs| - 1], xs[|xs| - 1];
      RetainedIds(before, layers, source, id);
      assert xs == before + [m];
      HasIdSnoc(before, m, id);
      HasIdSnoc(Retained(before, layers, source), m, id);
    }
  }

  lemma {:induction false} RetainedHas(xs: seq<Model>, layers: Layers, source: string, m: Model)
    ensures m in Retained(xs, layers, source) <==> m in xs && Served(layers, source, m)
    decreases |xs|
  {
    if xs != [] {
      RetainedHas(xs[..|xs| - 1], layers, source, m);
      assert xs == xs[..|xs| - 1] + [xs[|xs| - 1]];
    }
  }

  lemma {:induction false} RetainedFacts(xs: seq<Model>, layers: Layers, source: string)
    ensures var kept := Retained(xs, layers, source);
            && (forall i :: 0 <= i < |kept| ==> kept[i] in xs && Served(layers, source, kept[i]))
            && (forall i :: 0 <= i < |xs| && Served(layers, source, xs[i]) ==> xs[i] in kept)
  {
    var kept := Retained(xs, layers, source);
    forall i | 0 <= i < |kept|
      ensures kept[i] in xs && Served(layers, source, kept[i])
    {
      RetainedHas(xs, layers, source, kept[i]);
    }
    forall i | 0 <= i < |xs| && Served(layers, source, xs[i])
      ensures xs[i] in kept
    {
      RetainedHas(xs, layers, source, xs[i]);
    }
  }

  lemma {:induction false} RetainedDistinct(xs: seq<Model>, layers: Layers, source: string)
    requires Distinct(xs)
    ensures Distinct(Retained(xs, layers, source))
    decreases |xs|
  {
    if xs != [] {
      var before, m := xs[..|xs| - 1], xs[|xs| - 1];
      assert Distinct(before) && !HasId(before, m.id);
      RetainedDistinct(before, layers, source);
      RetainedIds(before, layers, source, m.id);
      if Served(layers, source, m) {
        NewIdDistinct(Retained(before, layers, source), m);
      }
    }
  }

  lemma {:induction false} RetainedTwice(xs: seq<Model>, layers: Layers, source: string)
    requires forall i :: 0 <= i < |xs| ==> Served(layers, source, xs[i])
    ensures Retained(xs, layers, source) == xs
    decreases |xs|
  {
    if xs != [] {
      RetainedTwice(xs[..|xs| - 1], layers, source);
      assert xs == xs[..|xs| - 1] + [xs[|xs| - 1]];
    }
  }

  // Two lists with the same ids that agree wherever they are served are retained alike.
  lemma {:induction false} RetainedSame(xs: seq<Model>, ys: seq<Model>, layers: Layers, source: string)
    requires SameIds(xs, ys)
    requires forall i :: 0 <= i < |xs| && Served(layers, source, xs[i]) ==> xs[i] == ys[i]
    ensures Retained(xs, layers, source) == Retained(ys, layers, source)
    decreases |xs|
  {
    if xs != [] {
      var n := |xs| - 1;
      assert forall i :: 0 <= i < n ==> xs[..n][i] == xs[i] && ys[..n][i] == ys[i];
      RetainedSame(xs[..n], ys[..n], layers, source);
      assert xs[n].id == ys[n].id;
    }
  }

  lemma {:induction false} OfProviderAppend(xs: seq<Model>, ys: seq<Model>, provider: string, ids: seq<string>,
                                            probed: bool)
    ensures OfProvider(xs + ys, provider, ids, probed) ==
            OfProvider(xs, provider, ids, probed) + OfProvider(ys, provider, ids, probed)
    decreases |ys|
  {
    if ys == [] {
      assert xs + ys == xs;
    } else {
      assert (xs + ys)[..|xs + ys| - 1] == xs + ys[..|ys| - 1];
      OfProviderAppend(xs, ys[..|ys| - 1], provider, ids, probed);
    }
  }

  // All of a list, where its ids are all probed or all not.
  lemma {:induction false} OfProviderAll(xs: seq<Model>, provider: string, ids: seq<string>, probed: bool)
    requires Stamped(xs, provider) && forall i :: 0 <= i < |xs| ==> (xs[i].id in ids) == probed
    ensures OfProvider(xs, provider, ids, probed) == xs
    decreases |xs|
  {
    if xs != [] {
      OfProviderAll(xs[..|xs| - 1], provider, ids, probed);
      assert xs == xs[..|xs| - 1] + [xs[|xs| - 1]];
    }
  }

  lemma {:induction false} OfProviderNone(xs: seq<Model>, provider: string, ids: seq<string>, probed: bool)
    requires forall i :: 0 <= i < |xs| ==> (xs[i].id in ids) != probed
    ensures OfProvider(xs, provider, ids, probed) == []
    decreases |xs|
  {
    if xs != [] {
      OfProviderNone(xs[..|xs| - 1], provider, ids, probed);
    }
  }

  // ---------------------------------------------------------------- first and last

  // The first model listed under an id.
  function FirstOf(models: seq<Model>, id: string): Option<Model> {
    if IndexOf(models, id) < |models| then Some(models[IndexOf(models, id)]) else None
  }

  // The last one that is stamped with the provider.
  function LastStamped(models: seq<Model>, provider: string, id: string): Option<Model> {
    if models == [] then None
    else if models[|models| - 1].id == id && models[|models| - 1].provider == provider then Some(models[|models| - 1])
    else LastStamped(models[..|models| - 1], provider, id)
  }

  // Under every id, the last model stamped with the provider, if there is one, is the
  // first model listed.
  ghost predicate FirstIsLast(models: seq<Model>, provider: string) {
    forall id :: LastStamped(models, provider, id).Some? ==> LastStamped(models, provider, id) == FirstOf(models, id)
  }

  lemma {:induction false} LastStampedIs(models: seq<Model>, provider: string, id: string)
    ensures var last := LastStamped(models, provider, id);
            && (last.Some? ==>
                  last.value in models && last.value.id == id && last.value.provider == provider && HasId(models, id))
            && (last.None? ==> forall i :: 0 <= i < |models| && models[i].provider == provider ==> models[i].id != id)
    decreases |models|
  {
    if models != [] {
      var before, m := models[..|models| - 1], models[|models| - 1];
      LastStampedIs(before, provider, id);
      assert models == before + [m];
      HasIdSnoc(before, m, id);
    }
  }

  lemma {:induction false} StampedHasLast(models: seq<Model>, provider: string, m: Model)
    requires m in models && m.provider == provider
    ensures LastStamped(models, provider, m.id).Some?
  {
    LastStampedIs(models, provider, m.id);
  }

  lemma {:induction false} LastStampedAppend(xs: seq<Model>, ys: seq<Model>, provider: string, id: string)
    ensures LastStamped(xs + ys, provider, id) ==
            if LastStamped(ys, provider, id).Some? then LastStamped(ys, provider, id) else LastStamped(xs, provider, id)
    decreases |ys|
  {
    if ys == [] {
      assert xs + ys == xs;
    } else {
      assert (xs + ys)[..|xs + ys| - 1] == xs + ys[..|ys| - 1];
      LastStampedAppend(xs, ys[..|ys| - 1], provider, id);
    }
  }

  lemma {:induction false} DistinctFirstIsLast(models: seq<Model>, provider: string)
    requires Distinct(models)
    ensures FirstIsLast(models, provider)
  {
    forall id | LastStamped(models, provider, id).Some?
      ensures LastStamped(models, provider, id) == FirstOf(models, id)
    {
      LastStampedIs(models, provider, id);
      var k :| 0 <= k < |models| && models[k] == LastStamped(models, provider, id).value;
      assert HasId(models, id);
    }
  }

  lemma {:induction false} JoinFirstIsLast(xs: seq<Model>, ys: seq<Model>, provider: string)
    requires Disjoint(xs, ys)
    ensures FirstIsLast(xs + ys, provider) <==> FirstIsLast(xs, provider) && FirstIsLast(ys, provider)
  {
    forall id
      ensures LastStamped(xs, provider, id).Some? ==>
                LastStamped(xs + ys, provider, id) == LastStamped(xs, provider, id) &&
                FirstOf(xs + ys, id) == FirstOf(xs, id)
      ensures LastStamped(ys, provider, id).Some? ==>
                LastStamped(xs + ys, provider, id) == LastStamped(ys, provider, id) &&
                FirstOf(xs + ys, id) == FirstOf(ys, id)
      ensures LastStamped(xs + ys, provider, id).Some? ==>
                LastStamped(xs, provider, id).Some? || LastStamped(ys, provider, id).Some?
    {
      FirstAndLastOfJoin(xs, ys, provider, id);
    }
  }

  lemma {:induction false} FirstAndLastOfJoin(xs: seq<Model>, ys: seq<Model>, provider: string, id: string)
    requires Disjoint(xs, ys)
    ensures LastStamped(xs, provider, id).Some? ==>
              LastStamped(xs + ys, provider, id) == LastStamped(xs, provider, id) &&
              FirstOf(xs + ys, id) == FirstOf(xs, id)
    ensures LastStamped(ys, provider, id).Some? ==>
              LastStamped(xs + ys, provider, id) == LastStamped(ys, provider, id) &&
              FirstOf(xs + ys, id) == FirstOf(ys, id)
    ensures LastStamped(xs + ys, provider, id).Some? ==>
              LastStamped(xs, provider, id).Some? || LastStamped(ys, provider, id).Some?
  {
    LastStampedAppend(xs, ys, provider, id);
    LastStampedIs(xs, provider, id);
    LastStampedIs(ys, provider, id);
    IndexAppend(xs, ys, id);
    if LastStamped(xs, provider, id).Some? {
      var k :| 0 <= k < |xs| && xs[k] == LastStamped(xs, provider, id).value;
      assert HasId(xs, id);
      assert !HasId(ys, id);
    } else if LastStamped(ys, provider, id).Some? {
      var k :| 0 <= k < |ys| && ys[k] == LastStamped(ys, provider, id).value;
      assert HasId(ys, id);
      assert !HasId(xs, id);
    }
  }

  // Where every model is stamped, as the builder stamps the caller's: under each id the
  // first and the last model listed agree.
  lemma {:induction false} FirstIsLastOfStamped(models: seq<Model>, provider: string)
    requires Stamped(models, provider)
    ensures FirstIsLast(models, provider) <==>
            forall k :: 0 <= k < |models| && !HasId(models[k + 1..], models[k].id) ==>
              models[k] == models[IndexOf(models, models[k].id)]
  {
    forall k | 0 <= k < |models| && !HasId(models[k + 1..], models[k].id)
      ensures LastStamped(models, provider, models[k].id) == Some(models[k])
      ensures IndexOf(models, models[k].id) < |models|
    {
      LastOfPrefix(models, provider, k);
    }
    if forall k :: 0 <= k < |models| && !HasId(models[k + 1..], models[k].id) ==>
         models[k] == models[IndexOf(models, models[k].id)] {
      forall id | LastStamped(models, provider, id).Some?
        ensures LastStamped(models, provider, id) == FirstOf(models, id)
      {
        var k := LastPlace(models, provider, id);
      }
    }
  }

  lemma {:induction false} LastOfPrefix(models: seq<Model>, provider: string, k: nat)
    requires k < |models| && models[k].provider == provider && !HasId(models[k + 1..], models[k].id)
    ensures LastStamped(models, provider, models[k].id) == Some(models[k]) && HasId(models, models[k].id)
  {
    var id := models[k].id;
    assert models == models[..k + 1] + models[k + 1..];
    LastStampedAppend(models[..k + 1], models[k + 1..], provider, id);
    LastStampedIs(models[k + 1..], provider, id);
  }

  lemma {:induction false} LastPlace(models: seq<Model>, provider: string, id: string) returns (k: nat)
    requires Stamped(models, provider) && LastStamped(models, provider, id).Some?
    ensures k < |models| && models[k].id == id && Some(models[k]) == LastStamped(models, provider, id)
    ensures !HasId(models[k + 1..], id)
    decreases |models|
  {
    k := |models| - 1;
    if models[k].id != id {
      var before := models[..|models| - 1];
      k := LastPlace(before, provider, id);
      assert models[k + 1..] == before[k + 1..] + [models[|models| - 1]];
      HasIdSnoc(before[k + 1..], models[|models| - 1], id);
    }
  }

  // Filtering by provider keeps what is last under an id, and by service what is first.
  lemma {:induction false} LastOfProvider(xs: seq<Model>, provider: string, ids: seq<string>, id: string)
    requires forall i :: 0 <= i < |xs| ==> xs[i].id !in ids
    ensures LastStamped(OfProvider(xs, provider, ids, false), provider, id) == LastStamped(xs, provider, id)
    decreases |xs|
  {
    if xs != [] {
      var before, m := xs[..|xs| - 1], xs[|xs| - 1];
      LastOfProvider(before, provider, ids, id);
      if m.provider == provider {
        var f := OfProvider(before, provider, ids, false);
        assert (f + [m])[..|f|] == f;
      }
    }
  }

  lemma {:induction false} FirstRetained(xs: seq<Model>, layers: Layers, source: string, id: string)
    ensures FirstOf(Retained(xs, layers, source), id) ==
            if id !in layers.deprecatedIds && Allowed(source, id) then FirstOf(xs, id) else None
    decreases |xs|
  {
    if xs != [] {
      var before, m := xs[..|xs| - 1], xs[|xs| - 1];
      FirstRetained(before, layers, source, id);
      assert xs == before + [m];
      FirstSnoc(before, m, id);
      FirstSnoc(Retained(before, layers, source), m, id);
    }
  }

  lemma {:induction false} FirstSnoc(xs: seq<Model>, m: Model, id: string)
    ensures FirstOf(xs + [m], id) == if FirstOf(xs, id).Some? then FirstOf(xs, id) else if m.id == id then Some(m)
            else None
  {
    IndexAppend(xs, [m], id);
    HasIdSnoc([], m, id);
    assert [] + [m] == [m];
  }

  // ---------------------------------------------------------------- restoring the base

  // Overriding with models of known ids replaces the first model of each id, by the last.
  lemma {:induction false} Patched(base: seq<Model>, f: seq<Model>, provider: string)
    requires Stamped(f, provider) && forall k :: 0 <= k < |f| ==> HasId(base, f[k].id)
    ensures var t := OverrideAll(base, f);
            && SameIds(t, base)
            && forall i :: 0 <= i < |base| ==>
                 t[i] == if i == IndexOf(base, base[i].id) then LastStamped(f, provider, base[i].id).GetOr(base[i])
                 else base[i]
    decreases |f|
  {
    if f != [] {
      var before, m := f[..|f| - 1], f[|f| - 1];
      assert forall k :: 0 <= k < |before| ==> before[k] == f[k];
      Patched(base, before, provider);
      IndexSame(OverrideAll(base, before), base, m.id);
    }
  }

  // The probed ids of a snapshot are those of the models that surface from the probe layer.
  lemma {:induction false} ProbedIdsAre(probed: seq<Model>, own: seq<Model>, catalog: seq<Model>, layers: Layers,
                                        source: string, id: string)
    ensures id in ProbedIds(probed, own, catalog, layers, source) <==>
            HasId(probed, id) && id !in layers.deprecatedIds && Allowed(source, id)
            && !HasId(own, id) && !HasId(catalog, id) && !HasId(layers.refreshed, id)
    decreases |probed|
  {
    if probed != [] {
      var before, m := probed[..|probed| - 1], probed[|probed| - 1];
      ProbedIdsAre(before, own, catalog, layers, source, id);
      assert probed == before + [m];
      HasIdSnoc(before, m, id);
    }
  }

  // The three parts of what is known: the base as overridden, the refresh's own models,
  // and the probe's.
  ghost predicate Parts(own: seq<Model>, catalog: seq<Model>, layers: Layers, x: seq<Model>, y: seq<Model>,
                        z: seq<Model>) {
    && Known(own, catalog, layers) == (x + y) + z
    && OverrideShape(Baseline(own, catalog), layers.refreshed, x, y)
    && AppendShape(x + y, layers.probed, z)
  }

  lemma {:induction false} KnownParts(own: seq<Model>, catalog: seq<Model>, layers: Layers)
    returns (x: seq<Model>, y: seq<Model>, z: seq<Model>)
    ensures Parts(own, catalog, layers, x, y, z)
  {
    x, y := OverrideAllShape(Baseline(own, catalog), layers.refreshed);
    z := AppendAllShape(x + y, layers.probed);
  }

  lemma {:induction false} BaselineDistinct(own: seq<Model>, catalog: seq<Model>)
    requires Distinct(own)
    ensures Distinct(Baseline(own, catalog))
  {
    var z := AppendAllShape(own, catalog);
    assert Disjoint(own, z);
    JoinDistinct(own, z);
  }

  lemma {:induction false} JoinDistinct(xs: seq<Model>, ys: seq<Model>)
    requires Distinct(xs) && Distinct(ys) && Disjoint(xs, ys)
    ensures Distinct(xs + ys)
  {
  }

  // The probed ids are exactly the ids of the served models of the third part.
  lemma {:induction false} ProbedIdsOfParts(own: seq<Model>, catalog: seq<Model>, layers: Layers, source: string,
                                            x: seq<Model>, y: seq<Model>, z: seq<Model>, id: string)
    requires Parts(own, catalog, layers, x, y, z)
    ensures id in ProbedIds(layers.probed, own, catalog, layers, source) <==>
            HasId(z, id) && id !in layers.deprecatedIds && Allowed(source, id)
  {
    ProbedIdsAre(layers.probed, own, catalog, layers, source, id);
    AppendAllIds(own, catalog, id);
    OverrideAllIds(Baseline(own, catalog), layers.refreshed, id);
    if HasId(z, id) {
      var k :| 0 <= k < |z| && z[k].id == id;
      var p :| 0 <= p < |layers.probed| && layers.probed[p] == z[k];
      assert layers.probed[p].id == id;
    }
  }

  // What the snapshot restores of each part.
  ghost predicate RestoredParts(provider: string, ids: seq<string>, kx: seq<Model>, ky: seq<Model>, kz: seq<Model>) {
    && Stamped(ky, provider) && Stamped(kz, provider)
    && (forall i :: 0 <= i < |kx| ==> kx[i].id !in ids)
    && (forall i :: 0 <= i < |ky| ==> ky[i].id !in ids)
    && (forall i :: 0 <= i < |kz| ==> kz[i].id in ids)
  }

  lemma {:induction false} RestoredLayers(provider: string, ids: seq<string>, kx: seq<Model>, ky: seq<Model>,
                                          kz: seq<Model>)
    requires RestoredParts(provider, ids, kx, ky, kz)
    ensures OfProvider((kx + ky) + kz, provider, ids, false) == OfProvider(kx, provider, ids, false) + ky
    ensures OfProvider((kx + ky) + kz, provider, ids, true) == kz
  {
    OfProviderAppend(kx + ky, kz, provider, ids, false);
    OfProviderAppend(kx, ky, provider, ids, false);
    OfProviderAppend(kx + ky, kz, provider, ids, true);
    OfProviderAppend(kx, ky, provider, ids, true);
    OfProviderAll(ky, provider, ids, false);
    OfProviderNone(kz, provider, ids, false);
    OfProviderNone(kx, provider, ids, true);
    OfProviderNone(ky, provider, ids, true);
    OfProviderAll(kz, provider, ids, true);
    var fx := OfProvider(kx, provider, ids, false);
    assert (fx + ky) + [] == fx + ky;
    assert ([] + []) + kz == kz;
  }

  // The base of a restored list: overridden by what the snapshot holds of it.
  ghost predicate Rebuilt(base: seq<Model>, x: seq<Model>, t: seq<Model>, layers: Layers, source: string,
                          provider: string) {
    && SameIds(x, base) && SameIds(t, base)
    && (forall i :: 0 <= i < |x| ==> x[i] == base[i] || (x[i].provider == provider && i == IndexOf(base, base[i].id)))
    && (forall i :: 0 <= i < |base| ==>
         t[i] == if i == IndexOf(base, base[i].id)
                 then LastStamped(Retained(x, layers, source), provider, base[i].id).GetOr(base[i])
                 else base[i])
  }

  lemma {:induction false} BaseRebuilt(base: seq<Model>, x: seq<Model>, provider: string, ids: seq<string>,
                                       layers: Layers, source: string)
    requires SameIds(x, base)
    requires forall i :: 0 <= i < |x| ==>
               x[i] == base[i] || (x[i].provider == provider && i == IndexOf(base, base[i].id))
    requires var kx := Retained(x, layers, source); forall i :: 0 <= i < |kx| ==> kx[i].id !in ids
    ensures var f := OfProvider(Retained(x, layers, source), provider, ids, false);
            Rebuilt(base, x, OverrideAll(base, f), layers, source, provider)
  {
    var kx := Retained(x, layers, source);
    var f := OfProvider(kx, provider, ids, false);
    KnownIds(base, x, provider, ids, layers, source);
    Patched(base, f, provider);
    forall i | 0 <= i < |base|
      ensures LastStamped(f, provider, base[i].id) == LastStamped(kx, provider, base[i].id)
    {
      LastOfProvider(kx, provider, ids, base[i].id);
    }
  }

  lemma {:induction false} KnownIds(base: seq<Model>, x: seq<Model>, provider: string, ids: seq<string>, layers: Layers,
                                    source: string)
    requires SameIds(x, base)
    ensures var f := OfProvider(Retained(x, layers, source), provider, ids, false);
            Stamped(f, provider) && forall k :: 0 <= k < |f| ==> HasId(base, f[k].id)
  {
    var kx := Retained(x, layers, source);
    var f := OfProvider(kx, provider, ids, false);
    forall k | 0 <= k < |f|
      ensures f[k].provider == provider && HasId(base, f[k].id)
    {
      OfProviderHas(kx, provider, ids, f[k]);
      RetainedHas(x, layers, source, f[k]);
      var i :| 0 <= i < |x| && x[i] == f[k];
      assert base[i].id == f[k].id;
    }
  }

  lemma {:induction false} OfProviderHas(xs: seq<Model>, provider: string, ids: seq<string>, m: Model)
    requires m in OfProvider(xs, provider, ids, false)
    ensures m in xs && m.provider == provider
    decreases |xs|
  {
    var before, last := xs[..|xs| - 1], xs[|xs| - 1];
    if m in OfProvider(before, provider, ids, false) {
      OfProviderHas(before, provider, ids, m);
    }
    assert xs == before + [last];
  }

  // The base is served as before exactly when under each id the first is the last.
  lemma {:induction false} BaseRestored(base: seq<Model>, x: seq<Model>, t: seq<Model>, layers: Layers, source: string,
                                        provider: string)
    requires Rebuilt(base, x, t, layers, source, provider)
    ensures Retained(t, layers, source) == Retained(x, layers, source) <==>
            FirstIsLast(Retained(x, layers, source), provider)
  {
    var kx := Retained(x, layers, source);
    if FirstIsLast(kx, provider) {
      forall i | 0 <= i < |x| && Served(layers, source, x[i])
        ensures t[i] == x[i]
      {
        ServedStays(base, x, t, layers, source, provider, i);
      }
      RetainedSame(x, t, layers, source);
    } else {
      var id :| LastStamped(kx, provider, id).Some? && LastStamped(kx, provider, id) != FirstOf(kx, id);
      ServedChanges(base, x, t, layers, source, provider, id);
    }
  }

  lemma {:induction false} ServedStays(base: seq<Model>, x: seq<Model>, t: seq<Model>, layers: Layers, source: string,
                                       provider: string, i: nat)
    requires Rebuilt(base, x, t, layers, source, provider) && FirstIsLast(Retained(x, layers, source), provider)
    requires i < |x| && Served(layers, source, x[i])
    ensures t[i] == x[i]
  {
    var kx, id := Retained(x, layers, source), base[i].id;
    if i == IndexOf(base, id) {
      IndexSame(x, base, id);
      FirstRetained(x, layers, source, id);
      RetainedFacts(x, layers, source);
      if x[i].provider == provider {
        StampedHasLast(kx, provider, x[i]);
      }
    }
  }

  lemma {:induction false} ServedChanges(base: seq<Model>, x: seq<Model>, t: seq<Model>, layers: Layers, source: string,
                                         provider: string, id: string)
    requires Rebuilt(base, x, t, layers, source, provider)
    requires var kx := Retained(x, layers, source);
             LastStamped(kx, provider, id).Some? && LastStamped(kx, provider, id) != FirstOf(kx, id)
    ensures Retained(t, layers, source) != Retained(x, layers, source)
  {
    var kx := Retained(x, layers, source);
    LastStampedIs(kx, provider, id);
    RetainedFacts(x, layers, source);
    var m := LastStamped(kx, provider, id).value;
    var k :| 0 <= k < |x| && x[k] == m;
    assert HasId(x, id);
    IndexSame(x, base, id);
    IndexSame(t, base, id);
    FirstRetained(x, layers, source, id);
    FirstRetained(t, layers, source, id);
    var i := IndexOf(base, id);
    assert t[i] == m;
  }

  // A list in three parts, restored: the first by overriding, the others by appending.
  lemma {:induction false} PartsRestored(base: seq<Model>, f: seq<Model>, ky: seq<Model>, kz: seq<Model>)
    requires var t := OverrideAll(base, f);
             SameIds(t, base) && Distinct(ky) && Distinct(kz) && Disjoint(base, ky) && Disjoint(base, kz) &&
             Disjoint(ky, kz)
    ensures AppendAll(OverrideAll(base, f + ky), kz) == (OverrideAll(base, f) + ky) + kz
  {
    var t := OverrideAll(base, f);
    OverrideInTwo(base, f, ky);
    assert Disjoint(t, ky);
    AppendNew(t, ky);
    assert Disjoint(t + ky, kz);
    AppendNew(t + ky, kz);
  }

  lemma {:induction false} OverrideInTwo(base: seq<Model>, xs: seq<Model>, ys: seq<Model>)
    ensures OverrideAll(base, xs + ys) == OverrideAll(OverrideAll(base, xs), ys)
    decreases |ys|
  {
    if ys == [] {
      assert xs + ys == xs;
    } else {
      assert (xs + ys)[..|xs + ys| - 1] == xs + ys[..|ys| - 1];
      OverrideInTwo(base, xs, ys[..|ys| - 1]);
    }
  }

  // What is served depends only on the tombstones.
  lemma {:induction false} SameTombstones(xs: seq<Model>, a: Layers, b: Layers, source: string)
    requires a.deprecatedIds == b.deprecatedIds
    ensures Retained(xs, a, source) == Retained(xs, b, source)
    decreases |xs|
  {
    if xs != [] {
      SameTombstones(xs[..|xs| - 1], a, b, source);
    }
  }

  // The served models of the three parts, and what their ids tell apart.
  lemma {:induction false} ServedParts(own: seq<Model>, catalog: seq<Model>, layers: Layers, source: string,
                                       provider: string, x: seq<Model>, y: seq<Model>, z: seq<Model>)
    requires Parts(own, catalog, layers, x, y, z) && Stamped(layers.refreshed, provider) &&
             Stamped(layers.probed, provider)
    ensures var ids := ProbedIds(layers.probed, own, catalog, layers, source);
            var kx, ky, kz := Retained(x, layers, source), Retained(y, layers, source), Retained(z, layers, source);
            && ModelList(own, catalog, layers, source) == (kx + ky) + kz
            && RestoredParts(provider, ids, kx, ky, kz)
            && Distinct(ky) && Distinct(kz)
            && Disjoint(Baseline(own, catalog), ky) && Disjoint(Baseline(own, catalog), kz) && Disjoint(ky, kz)
  {
    var ids := ProbedIds(layers.probed, own, catalog, layers, source);
    var kx, ky, kz := Retained(x, layers, source), Retained(y, layers, source), Retained(z, layers, source);
    RetainedAppend(x + y, z, layers, source);
    RetainedAppend(x, y, layers, source);
    RetainedFacts(x, layers, source);
    RetainedFacts(y, layers, source);
    RetainedFacts(z, layers, source);
    RetainedDistinct(y, layers, source);
    RetainedDistinct(z, layers, source);
    forall i | 0 <= i < |kx|
      ensures kx[i].id !in ids
    {
      FirstPartsAreNotProbed(own, catalog, layers, source, x, y, z, kx[i], kx[i] in x);
    }
    forall i | 0 <= i < |ky|
      ensures ky[i].id !in ids
    {
      FirstPartsAreNotProbed(own, catalog, layers, source, x, y, z, ky[i], false);
    }
    forall i | 0 <= i < |kz|
      ensures kz[i].id in ids && !HasId(x + y, kz[i].id)
    {
      ProbedIdsOfParts(own, catalog, layers, source, x, y, z, kz[i].id);
      var k :| 0 <= k < |z| && z[k] == kz[i];
      assert z[k].id == kz[i].id;
    }
    PartsDisjoint(Baseline(own, catalog), x, y, ky, kz);
  }

  lemma {:induction false} FirstPartsAreNotProbed(own: seq<Model>, catalog: seq<Model>, layers: Layers, source: string,
                                                  x: seq<Model>, y: seq<Model>, z: seq<Model>, m: Model, first: bool)
    requires Parts(own, catalog, layers, x, y, z) && (if first then m in x else m in y)
    ensures m.id !in ProbedIds(layers.probed, own, catalog, layers, source)
  {
    ProbedIdsOfParts(own, catalog, layers, source, x, y, z, m.id);
    HasIdAppend(x, y, m.id);
    if first {
      var k :| 0 <= k < |x| && x[k] == m;
      assert x[k].id == m.id;
    } else {
      var k :| 0 <= k < |y| && y[k] == m;
      assert y[k].id == m.id;
    }
  }

  lemma {:induction false} PartsDisjoint(base: seq<Model>, x: seq<Model>, y: seq<Model>, ky: seq<Model>, kz: seq<Model>)
    requires SameIds(x, base) && (forall i :: 0 <= i < |y| ==> !HasId(base, y[i].id))
    requires (forall i :: 0 <= i < |ky| ==> ky[i] in y) && (forall i :: 0 <= i < |kz| ==> !HasId(x + y, kz[i].id))
    ensures Disjoint(base, ky) && Disjoint(base, kz) && Disjoint(ky, kz)
  {
    forall i, j | 0 <= i < |base| && 0 <= j < |ky|
      ensures base[i].id != ky[j].id
    {
      assert ky[j] in y;
    }
    forall i, j | 0 <= i < |base| && 0 <= j < |kz|
      ensures base[i].id != kz[j].id
    {
      HasIdAppend(x, y, kz[j].id);
      assert x[i].id == base[i].id;
    }
    forall i, j | 0 <= i < |ky| && 0 <= j < |kz|
      ensures ky[i].id != kz[j].id
    {
      HasIdAppend(x, y, kz[j].id);
      assert ky[i] in y;
    }
  }

  // Restoring a snapshot into a fresh provider with the same baseline gives the same
  // models in the same order if and only if, under every id, the last model listed that is
  // stamped with the provider is the first one listed.
  lemma {:induction false} RestoreKeepsModels(own: seq<Model>, catalog: seq<Model>, layers: Layers, source: string,
                                              provider: string)
    requires Stamped(layers.refreshed, provider) && Stamped(layers.probed, provider)
    ensures var listed := ModelList(own, catalog, layers, source);
            var restored := Restored(EMPTY, Snapshotted(own, catalog, layers, source), provider);
            ModelList(own, catalog, restored, source) == listed <==> FirstIsLast(listed, provider)
  {
    var x, y, z := KnownParts(own, catalog, layers);
    RestoredParted(own, catalog, layers, source, provider, x, y, z);
    var base, ids := Baseline(own, catalog), ProbedIds(layers.probed, own, catalog, layers, source);
    var kx, ky, kz := Retained(x, layers, source), Retained(y, layers, source), Retained(z, layers, source);
    var t := OverrideAll(base, OfProvider(kx, provider, ids, false));
    var kt := Retained(t, layers, source);
    BaseRestored(base, x, t, layers, source, provider);
    SamePrefix(kt, kx, ky, kz);
  }

  // What is listed, and what is listed after restoring, part by part.
  lemma {:induction false} RestoredParted(own: seq<Model>, catalog: seq<Model>, layers: Layers, source: string,
                                          provider: string, x: seq<Model>, y: seq<Model>, z: seq<Model>)
    requires Parts(own, catalog, layers, x, y, z) && Stamped(layers.refreshed, provider) &&
             Stamped(layers.probed, provider)
    ensures var base, ids := Baseline(own, catalog), ProbedIds(layers.probed, own, catalog, layers, source);
            var kx, ky, kz := Retained(x, layers, source), Retained(y, layers, source), Retained(z, layers, source);
            var t := OverrideAll(base, OfProvider(kx, provider, ids, false));
            && Rebuilt(base, x, t, layers, source, provider)
            && ModelList(own, catalog, layers, source) == (kx + ky) + kz
            && ModelList(own, catalog, Restored(EMPTY, Snapshotted(own, catalog, layers, source), provider), source)
               == (Retained(t, layers, source) + ky) + kz
            && (FirstIsLast((kx + ky) + kz, provider) <==> FirstIsLast(kx, provider))
  {
    var base, ids := Baseline(own, catalog), ProbedIds(layers.probed, own, catalog, layers, source);
    var kx, ky, kz := Retained(x, layers, source), Retained(y, layers, source), Retained(z, layers, source);
    ServedParts(own, catalog, layers, source, provider, x, y, z);
    RestoredLayers(provider, ids, kx, ky, kz);
    OverriddenStamped(base, layers, provider, x, y);
    BaseRebuilt(base, x, provider, ids, layers, source);
    PartsFirstIsLast(base, x, ky, kz, layers, source, provider);
    RetainedFacts(y, layers, source);
    RetainedFacts(z, layers, source);
    RestoredList(own, catalog, layers, source, provider, OfProvider(kx, provider, ids, false), ky, kz);
  }

  lemma {:induction false} SamePrefix(xs: seq<Model>, ys: seq<Model>, us: seq<Model>, vs: seq<Model>)
    ensures (xs + us) + vs == (ys + us) + vs <==> xs == ys
  {
    if (xs + us) + vs == (ys + us) + vs {
      assert |xs| == |ys|;
      assert xs == ((xs + us) + vs)[..|xs|] && ys == ((ys + us) + vs)[..|ys|];
    }
  }

  lemma {:induction false} OverriddenStamped(base: seq<Model>, layers: Layers, provider: string, x: seq<Model>,
                                             y: seq<Model>)
    requires OverrideShape(base, layers.refreshed, x, y) && Stamped(layers.refreshed, provider)
    ensures forall i :: 0 <= i < |x| ==>
              x[i] == base[i] || (x[i].provider == provider && i == IndexOf(base, base[i].id))
  {
  }

  // The appended parts have new and distinct ids, so only the base matters.
  lemma {:induction false} PartsFirstIsLast(base: seq<Model>, x: seq<Model>, ky: seq<Model>, kz: seq<Model>,
                                            layers: Layers, source: string, provider: string)
    requires SameIds(x, base) && Distinct(ky) && Distinct(kz)
    requires Disjoint(base, ky) && Disjoint(base, kz) && Disjoint(ky, kz)
    ensures var kx := Retained(x, layers, source);
            FirstIsLast((kx + ky) + kz, provider) <==> FirstIsLast(kx, provider)
  {
    var kx := Retained(x, layers, source);
    forall i | 0 <= i < |kx|
      ensures exists k :: 0 <= k < |base| && base[k].id == kx[i].id
    {
      RetainedHas(x, layers, source, kx[i]);
      var k :| 0 <= k < |x| && x[k] == kx[i];
      assert base[k].id == kx[i].id;
    }
    assert Disjoint(kx, ky) && Disjoint(kx, kz);
    DistinctFirstIsLast(ky, provider);
    DistinctFirstIsLast(kz, provider);
    JoinFirstIsLast(kx, ky, provider);
    JoinFirstIsLast(kx + ky, kz, provider);
  }

  // The restored list, part by part.
  lemma {:induction false} RestoredList(own: seq<Model>, catalog: seq<Model>, layers: Layers, source: string,
                                        provider: string, f: seq<Model>, ky: seq<Model>, kz: seq<Model>)
    requires Restored(EMPTY, Snapshotted(own, catalog, layers, source), provider) ==
             Layers(layers.deprecatedIds, f + ky, kz)
    requires var base := Baseline(own, catalog);
             && SameIds(OverrideAll(base, f), base) && Distinct(ky) && Distinct(kz)
             && Disjoint(base, ky) && Disjoint(base, kz) && Disjoint(ky, kz)
    requires forall i :: 0 <= i < |ky| ==> Served(layers, source, ky[i])
    requires forall i :: 0 <= i < |kz| ==> Served(layers, source, kz[i])
    ensures ModelList(own, catalog, Restored(EMPTY, Snapshotted(own, catalog, layers, source), provider), source) ==
            (Retained(OverrideAll(Baseline(own, catalog), f), layers, source) + ky) + kz
  {
    var base := Baseline(own, catalog);
    var restored := Layers(layers.deprecatedIds, f + ky, kz);
    var t := OverrideAll(base, f);
    PartsRestored(base, f, ky, kz);
    SameTombstones((t + ky) + kz, restored, layers, source);
    RetainedAppend(t + ky, kz, layers, source);
    RetainedAppend(t, ky, layers, source);
    RetainedTwice(ky, layers, source);
    RetainedTwice(kz, layers, source);
  }

  // In particular where the caller's own models have distinct ids.
  lemma {:induction false} DistinctIdsAreRestored(own: seq<Model>, catalog: seq<Model>, layers: Layers, source: string,
                                                  provider: string)
    requires Distinct(own) && Stamped(layers.refreshed, provider) && Stamped(layers.probed, provider)
    ensures var restored := Restored(EMPTY, Snapshotted(own, catalog, layers, source), provider);
            ModelList(own, catalog, restored, source) == ModelList(own, catalog, layers, source)
  {
    var x, y, z := KnownParts(own, catalog, layers);
    BaselineDistinct(own, catalog);
    ServedParts(own, catalog, layers, source, provider, x, y, z);
    assert Distinct(x);
    RetainedDistinct(x, layers, source);
    DistinctFirstIsLast(Retained(x, layers, source), provider);
    PartsFirstIsLast(Baseline(own, catalog), x, Retained(y, layers, source), Retained(z, layers, source), layers,
                     source, provider);
    RestoreKeepsModels(own, catalog, layers, source, provider);
  }

  // Two models of the caller's own under one id: only the first is overridden, and the
  // restored list overrides it twice.
  lemma {:induction false} RepeatedOwnIdIsNotRestored(a: Model, b: Model, r: Model, provider: string)
    requires a.id == b.id == r.id && a.provider == b.provider == r.provider == provider && r != b
    ensures var own, layers := [a, b], Layers([], [r], []);
            var restored := Restored(EMPTY, Snapshotted(own, [], layers, ""), provider);
            ModelList(own, [], layers, "") == [r, b] && ModelList(own, [], restored, "") == [b, b]
  {
    var own, layers := [a, b], Layers([], [r], []);
    OverrideOnce(own, r);
    assert [r][..0] == [];
    assert own[0 := r] == [r, b];
    KeepTwo(r, b, layers);
    OfTwo(r, b, provider);
    var restored := Restored(EMPTY, Snapshotted(own, [], layers, ""), provider);
    assert restored == Layers([], [r, b], []);
    assert [r, b][..1] == [r];
    OverrideOnce(own, r);
    assert [r, b][0 := b] == [b, b];
    KeepTwo(b, b, restored);
  }

  lemma {:induction false} OverrideOnce(models: seq<Model>, m: Model)
    requires models != [] && models[0].id == m.id
    ensures Overridden(models, m) == models[0 := m] && OverrideAll(models, [m]) == models[0 := m]
  {
    assert [m][..0] == [];
    assert HasId(models, m.id);
  }

  lemma {:induction false} KeepTwo(x: Model, y: Model, layers: Layers)
    requires layers.deprecatedIds == []
    ensures Retained([x, y], layers, "") == [x, y]
  {
    RetainedTwice([x, y], layers, "");
  }

  lemma {:induction false} OfTwo(x: Model, y: Model, provider: string)
    requires x.provider == y.provider == provider
    ensures OfProvider([x, y], provider, [], false) == [x, y] && OfProvider([x, y], provider, [], true) == []
  {
    OfProviderAll([x, y], provider, [], false);
    OfProviderNone([x, y], provider, [], true);
  }

  // ---------------------------------------------------------------- retirement

  // What discovery does to the overlay: a catalog refresh that succeeded, or a probe.
  datatype Discovery = Catalog(entries: seq<CatalogEntry>) | Probe(listed: seq<Model>)

  function Discovered(source: string, provider: string, events: seq<Discovery>): Layers
    decreases |events|
  {
    if events == [] then EMPTY
    else
      var before, e := Discovered(source, provider, events[..|events| - 1]), events[|events| - 1];
      match e
      case Catalog(entries) => Refreshed(before, entries, source, provider)
      case Probe(listed) => before.(probed := listed)
  }

  // Every catalog entry seen, after the allowlist, oldest first.
  function Named(source: string, events: seq<Discovery>): seq<CatalogEntry>
    decreases |events|
  {
    if events == [] then []
    else
      Named(source, events[..|events| - 1]) +
      (if events[|events| - 1].Catalog? then Parsed(events[|events| - 1].entries, source) else [])
  }

  // What the last entry that names `id` says of it.
  function LastMark(entries: seq<CatalogEntry>, id: string): Option<bool> {
    if entries == [] then None
    else if entries[|entries| - 1].id == id then Some(entries[|entries| - 1].deprecated)
    else LastMark(entries[..|entries| - 1], id)
  }

  lemma {:induction false} WithoutIs(ids: seq<string>, gone: string, id: string)
    ensures id in Without(ids, gone) <==> id in ids && id != gone
    decreases |ids|
  {
    if ids != [] {
      WithoutIs(ids[..|ids| - 1], gone, id);
      assert ids == ids[..|ids| - 1] + [ids[|ids| - 1]];
    }
  }

  lemma {:induction false} MarkAllIs(ids: seq<string>, entries: seq<CatalogEntry>, id: string)
    ensures id in MarkAll(ids, entries) <==>
            if LastMark(entries, id).Some? then LastMark(entries, id).value else id in ids
    decreases |entries|
  {
    if entries != [] {
      var before, e := entries[..|entries| - 1], entries[|entries| - 1];
      MarkAllIs(ids, before, id);
      WithoutIs(MarkAll(ids, before), e.id, id);
    }
  }

  lemma {:induction false} LastMarkAppend(xs: seq<CatalogEntry>, ys: seq<CatalogEntry>, id: string)
    ensures LastMark(xs + ys, id) == if LastMark(ys, id).Some? then LastMark(ys, id) else LastMark(xs, id)
    decreases |ys|
  {
    if ys == [] {
      assert xs + ys == xs;
    } else {
      assert (xs + ys)[..|xs + ys| - 1] == xs + ys[..|ys| - 1];
      LastMarkAppend(xs, ys[..|ys| - 1], id);
    }
  }

  // Over any sequence of refreshes and probes, an id is retired exactly when the last
  // catalog entry that named it marked it deprecated.
  lemma {:induction false} RetiredByTheLastCatalog(source: string, provider: string, events: seq<Discovery>, id: string)
    ensures id in Discovered(source, provider, events).deprecatedIds <==>
            LastMark(Named(source, events), id) == Some(true)
    decreases |events|
  {
    if events != [] {
      var before, e := events[..|events| - 1], events[|events| - 1];
      RetiredByTheLastCatalog(source, provider, before, id);
      if e.Catalog? {
        var parsed := Parsed(e.entries, source);
        MarkAllIs(Discovered(source, provider, before).deprecatedIds, parsed, id);
        LastMarkAppend(Named(source, before), parsed, id);
      } else {
        assert Named(source, before) + [] == Named(source, before);
      }
    }
  }

  // An id is served exactly when something knows it, it is allowed, and it is not retired;
  // no probe brings a retired one back.
  lemma {:induction false} ServedExactly(own: seq<Model>, catalog: seq<Model>, source: string, provider: string,
                                         events: seq<Discovery>, id: string)
    ensures var layers := Discovered(source, provider, events);
            HasId(ModelList(own, catalog, layers, source), id) <==>
              && (HasId(own, id) || HasId(catalog, id) || HasId(layers.refreshed, id) || HasId(layers.probed, id))
              && Allowed(source, id) && LastMark(Named(source, events), id) != Some(true)
  {
    var layers := Discovered(source, provider, events);
    RetiredByTheLastCatalog(source, provider, events, id);
    RetainedIds(Known(own, catalog, layers), layers, source, id);
    AppendAllIds(OverrideAll(Baseline(own, catalog), layers.refreshed), layers.probed, id);
    OverrideAllIds(Baseline(own, catalog), layers.refreshed, id);
    AppendAllIds(own, catalog, id);
  }

  lemma {:induction false} ActiveStamped(parsed: seq<CatalogEntry>, provider: string)
    ensures Stamped(Active(parsed, provider), provider)
    decreases |parsed|
  {
    if parsed != [] {
      ActiveStamped(parsed[..|parsed| - 1], provider);
    }
  }

  lemma {:induction false} DiscoveredStamped(source: string, provider: string, events: seq<Discovery>)
    requires forall k :: 0 <= k < |events| && events[k].Probe? ==> Stamped(events[k].listed, provider)
    ensures var layers := Discovered(source, provider, events);
            Stamped(layers.refreshed, provider) && Stamped(layers.probed, provider)
    decreases |events|
  {
    if events != [] {
      DiscoveredStamped(source, provider, events[..|events| - 1]);
      if events[|events| - 1].Catalog? {
        ActiveStamped(Parsed(events[|events| - 1].entries, source), provider);
      }
    }
  }

  // Whatever discovery has found, a snapshot of it restored into a fresh provider with the
  // same baseline lists the same models in the same order under exactly that condition.
  lemma {:induction false} DiscoverySurvivesRestart(own: seq<Model>, catalog: seq<Model>, source: string,
                                                    provider: string, events: seq<Discovery>)
    requires forall k :: 0 <= k < |events| && events[k].Probe? ==> Stamped(events[k].listed, provider)
    ensures var layers := Discovered(source, provider, events);
            var listed := ModelList(own, catalog, layers, source);
            && (ModelList(own, catalog, Restored(EMPTY, Snapshotted(own, catalog, layers, source), provider), source) ==
                listed
                <==> FirstIsLast(listed, provider))
            && (Distinct(own) ==> FirstIsLast(listed, provider))
  {
    DiscoveredStamped(source, provider, events);
    RestoreKeepsModels(own, catalog, Discovered(source, provider, events), source, provider);
    if Distinct(own) {
      DistinctIdsAreRestored(own, catalog, Discovered(source, provider, events), source, provider);
    }
  }

  // The provider itself, over any sequence of discoveries: its overlay is what they leave.
  method Discover(provider: Provider, events: seq<Discovery>)
    requires provider.modelsDevId.Some? && provider.View() == EMPTY
    modifies provider
    ensures provider.View() == Discovered(provider.modelsDevId.value, provider.id, events)
  {
    for i := 0 to |events|
      invariant provider.View() == Discovered(provider.modelsDevId.value, provider.id, events[..i])
    {
      assert events[..i + 1][..i] == events[..i];
      match events[i]
      case Catalog(entries) => var outcome := provider.ApplyModelsDev(Some(entries));
      case Probe(listed) => provider.InstallProbed(listed);
    }
    assert events[..|events|] == events;
  }
}
