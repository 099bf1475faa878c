/**
 * Merging header layers so that a later layer wins whatever the case of its keys. `lower`
 * stands for the lower-casing of a key: what follows holds for any function in its place.
 */
module Headers {
  import opened Wrappers

  type Layer<K, V> = Option<seq<(K, V)>>

  method CiMerge<K(==, !new), V>(layers: seq<Layer<K, V>>, lower: K -> K) returns (out: map<K, V>)
    ensures IsMerge(out, Flat(layers), lower)
  {
    out := map[];
    var lowerToCanonical: map<K, K> := map[];
    ghost var done: seq<(K, V)> := [];
    NothingTracked<K, V>(lower);
    hide Tracks, IsMerge;
    for i := 0 to |layers|
      invariant done == Flat(layers[..i])
      invariant Tracks(out, lowerToCanonical, done, lower)
    {
      assert layers[..i + 1][..i] == layers[..i];
      if layers[i] == None {
        continue;
      }
      var items := layers[i].value;
      for j := 0 to |items|
        invariant done == Flat(layers[..i]) + items[..j]
        invariant Tracks(out, lowerToCanonical, done, lower)
      {
        var (k, v) := items[j];
        var lk := lower(k);
        OneMore(out, lowerToCanonical, done, lower, k, v);
        assert items[..j + 1] == items[..j] + [items[j]];
        if lk in lowerToCanonical && lowerToCanonical[lk] != k {
          out := out - {lowerToCanonical[lk]};
        }
        lowerToCanonical := lowerToCanonical[lk := k];
        out := out[k := v];
        done := done + [items[j]];
      }
      assert items[..|items|] == items;
    }
    assert layers[..|layers|] == layers;
    TrackedIsMerge(out, lowerToCanonical, done, lower);
  }

  /** All entries of the layers, in order. */
  ghost function Flat<K, V>(layers: seq<Layer<K, V>>): seq<(K, V)> {
    if layers == [] then []
    else
      var last := layers[|layers| - 1];
      Flat(layers[..|layers| - 1]) + (if last.Some? then last.value else [])
  }

  /** Is this the last entry whose key is the same but for case? */
  ghost predicate IsLast<K(!new), V>(entries: seq<(K, V)>, i: int, lower: K -> K) {
    0 <= i < |entries| && forall j :: i < j < |entries| ==> lower(entries[j].0) != lower(entries[i].0)
  }

  /** The merge: exactly the last entry of every class of keys equal but for case, as it is spelt there. */
  ghost predicate IsMerge<K(!new), V>(out: map<K, V>, entries: seq<(K, V)>, lower: K -> K) {
    && (forall i :: IsLast(entries, i, lower) ==> entries[i].0 in out && out[entries[i].0] == entries[i].1)
    && (forall k :: k in out ==> exists i :: IsLast(entries, i, lower) && entries[i].0 == k)
  }

  ghost predicate Tracks<K(!new), V>(out: map<K, V>, canonical: map<K, K>, entries: seq<(K, V)>, lower: K -> K) {
    && (forall lk :: lk in canonical ==> canonical[lk] in out && lower(canonical[lk]) == lk)
    && (forall k :: k in out ==> lower(k) in canonical && canonical[lower(k)] == k)
    && (forall k :: k in out ==> exists i :: IsLast(entries, i, lower) && entries[i] == (k, out[k]))
    && (forall i :: 0 <= i < |entries| ==> lower(entries[i].0) in canonical)
  }

  lemma NothingTracked<K(!new), V>(lower: K -> K)
    ensures Tracks<K, V>(map[], map[], [], lower)
  {
  }

  lemma OneMore<K(!new), V>(out: map<K, V>, canonical: map<K, K>, entries: seq<(K, V)>, lower: K -> K, k: K, v: V)
    requires Tracks(out, canonical, entries, lower)
    ensures
      var lk := lower(k);
      var kept := if lk in canonical && canonical[lk] != k then out - {canonical[lk]} else out;
      Tracks(kept[k := v], canonical[lk := k], entries + [(k, v)], lower)
  {
    var lk, all := lower(k), entries + [(k, v)];
    var kept := if lk in canonical && canonical[lk] != k then out - {canonical[lk]} else out;
    var now := kept[k := v];
    assert IsLast(all, |entries|, lower) && all[|entries|] == (k, now[k]);
    forall other | other in now && other != k
      ensures exists i :: IsLast(all, i, lower) && all[i] == (other, now[other])
    {
      var i :| IsLast(entries, i, lower) && entries[i] == (other, out[other]);
      assert IsLast(all, i, lower) && all[i] == entries[i];
    }
  }

  lemma TrackedIsMerge<K(!new), V>(out: map<K, V>, canonical: map<K, K>, entries: seq<(K, V)>, lower: K -> K)
    requires Tracks(out, canonical, entries, lower)
    ensures IsMerge(out, entries, lower)
  {
    forall i | IsLast(entries, i, lower)
      ensures entries[i].0 in out && out[entries[i].0] == entries[i].1
    {
      var k := canonical[lower(entries[i].0)];
      var j :| IsLast(entries, j, lower) && entries[j] == (k, out[k]);
      assert i == j;
    }
  }

  lemma {:induction false} LastExists<K(!new), V>(entries: seq<(K, V)>, i: nat, lower: K -> K) returns (j: nat)
    requires i < |entries|
    ensures IsLast(entries, j, lower) && lower(entries[j].0) == lower(entries[i].0)
    decreases |entries| - i
  {
    if k :| i < k < |entries| && lower(entries[k].0) == lower(entries[i].0) {
      j := LastExists(entries, k, lower);
    } else {
      j := i;
    }
  }

  ghost predicate Spelt<K(!new), V>(out: map<K, V>, key: K, lower: K -> K) {
    exists k :: k in out && lower(k) == lower(key)
  }

  /** No two keys are equal but for case, and no key of any layer is lost. */
  lemma OneSpellingEach<K(!new), V>(out: map<K, V>, entries: seq<(K, V)>, lower: K -> K)
    requires IsMerge(out, entries, lower)
    ensures forall a, b :: a in out && b in out && lower(a) == lower(b) ==> a == b
    ensures forall i :: 0 <= i < |entries| ==> Spelt(out, entries[i].0, lower)
  {
    forall a, b | a in out && b in out && lower(a) == lower(b)
      ensures a == b
    {
      var i :| IsLast(entries, i, lower) && entries[i].0 == a;
      var j :| IsLast(entries, j, lower) && entries[j].0 == b;
      assert i == j;
    }
    forall i | 0 <= i < |entries|
      ensures Spelt(out, entries[i].0, lower)
    {
      var j := LastExists(entries, i, lower);
      assert entries[j].0 in out;
    }
  }

  /** The layers determine the merge. */
  lemma OneMerge<K(!new), V>(a: map<K, V>, b: map<K, V>, entries: seq<(K, V)>, lower: K -> K)
    requires IsMerge(a, entries, lower) && IsMerge(b, entries, lower)
    ensures a == b
  {
    forall k
      ensures k in a <==> k in b
      ensures k in a && k in b ==> a[k] == b[k]
    {
    }
  }

  /** Does the layer list exactly the items of the map, no two keys alike but for case? */
  ghost predicate Lists<K(!new), V>(layer: seq<(K, V)>, items: map<K, V>, lower: K -> K) {
    && (forall i :: 0 <= i < |layer| ==> layer[i].0 in items && layer[i].1 == items[layer[i].0])
    && (forall k :: k in items ==> exists i :: 0 <= i < |layer| && layer[i].0 == k)
    && (forall i, j :: 0 <= i < j < |layer| ==> lower(layer[i].0) != lower(layer[j].0))
  }

  /**
   * The signed headers are put over the merge by a plain dict update. That is the same as
   * merging them in as the last layer exactly when no key differs from one of them in case only.
   */
  lemma PlainUpdateIff<K(!new), V>(base: map<K, V>, entries: seq<(K, V)>, signed: map<K, V>, layer: seq<(K, V)>, lower: K -> K)
    requires IsMerge(base, entries, lower) && Lists(layer, signed, lower)
    ensures IsMerge(base + signed, entries + layer, lower) <==>
      (forall a, b :: a in base && b in signed && lower(a) == lower(b) ==> a == b)
  {
    var all := entries + layer;
    if IsMerge(base + signed, all, lower) {
      OneSpellingEach(base + signed, all, lower);
    }
    if forall a, b :: a in base && b in signed && lower(a) == lower(b) ==> a == b {
      LastOfUpdate(base, entries, signed, layer, lower);
    }
  }

  /**
   * A layer of the caller's, and the configured one, is refused when any key lower-cases to
   * a reserved one. `reserved` stands for the prefix test.
   */
  predicate Leaks<K, V>(layer: Layer<K, V>, lower: K -> K, reserved: K -> bool) {
    layer.Some? && exists i :: 0 <= i < |layer.value| && reserved(lower(layer.value[i].0))
  }

  /** No key of any layer is reserved. */
  ghost predicate NoneReserved<K, V>(layers: seq<Layer<K, V>>, lower: K -> K, reserved: K -> bool) {
    forall l <- layers :: !Leaks(l, lower, reserved)
  }

  lemma {:induction false} FlatUnreserved<K(!new), V>(layers: seq<Layer<K, V>>, lower: K -> K, reserved: K -> bool)
    requires NoneReserved(layers, lower, reserved)
    ensures forall i :: 0 <= i < |Flat(layers)| ==> !reserved(lower(Flat(layers)[i].0))
    decreases |layers|
  {
    if layers != [] {
      var last := layers[|layers| - 1];
      FlatUnreserved(layers[..|layers| - 1], lower, reserved);
      assert last in layers;
      assert !Leaks(last, lower, reserved);
    }
  }

  /**
   * For a request that got past the checks, the plain update is always the full merge: the
   * signed keys are all reserved, and no key of the configured, the caller's or the body
   * helper's layer is.
   */
  lemma {:induction false} SignedUpdateIsMerge<K(!new), V>(layers: seq<Layer<K, V>>, base: map<K, V>, signed: map<K, V>, layer: seq<(K, V)>, lower: K -> K, reserved: K -> bool)
    requires IsMerge(base, Flat(layers), lower) && Lists(layer, signed, lower)
    requires NoneReserved(layers, lower, reserved)
    requires forall k :: k in signed ==> reserved(lower(k))
    ensures IsMerge(base + signed, Flat(layers + [Some(layer)]), lower)
    ensures forall k :: k in signed ==> k !in base && (base + signed)[k] == signed[k]
  {
    FlatUnreserved(layers, lower, reserved);
    assert (layers + [Some(layer)])[..|layers|] == layers;
    forall k | k in base
      ensures !reserved(lower(k))
    {
      var i :| IsLast(Flat(layers), i, lower) && Flat(layers)[i].0 == k;
    }
    PlainUpdateIff(base, Flat(layers), signed, layer, lower);
  }

  lemma LastOfUpdate<K(!new), V>(base: map<K, V>, entries: seq<(K, V)>, signed: map<K, V>, layer: seq<(K, V)>, lower: K -> K)
    requires IsMerge(base, entries, lower) && Lists(layer, signed, lower)
    requires forall a, b :: a in base && b in signed && lower(a) == lower(b) ==> a == b
    ensures IsMerge(base + signed, entries + layer, lower)
  {
    var all := entries + layer;
    forall i | IsLast(all, i, lower)
      ensures all[i].0 in base + signed && (base + signed)[all[i].0] == all[i].1
    {
      if i < |entries| {
        LaterStay(entries, layer, i, lower);
      }
    }
    forall k | k in base + signed
      ensures exists i :: IsLast(all, i, lower) && all[i].0 == k
    {
      if k in signed {
        var i :| 0 <= i < |layer| && layer[i].0 == k;
        assert IsLast(all, |entries| + i, lower) && all[|entries| + i] == layer[i];
      } else {
        var i :| IsLast(entries, i, lower) && entries[i].0 == k;
        assert IsLast(all, i, lower) && all[i] == entries[i];
      }
    }
  }

  /** An early entry that is the last of its class overall is the last in its own part, and no later key is alike. */
  lemma LaterStay<K(!new), V>(entries: seq<(K, V)>, layer: seq<(K, V)>, i: int, lower: K -> K)
    requires i < |entries| && IsLast(entries + layer, i, lower)
    ensures IsLast(entries, i, lower)
    ensures forall j :: 0 <= j < |layer| ==> lower(layer[j].0) != lower(entries[i].0)
  {
    var all := entries + layer;
    forall j | i < j < |entries|
      ensures lower(entries[j].0) != lower(entries[i].0)
    {
      assert all[j] == entries[j];
    }
    forall j | 0 <= j < |layer|
      ensures lower(layer[j].0) != lower(entries[i].0)
    {
      assert all[|entries| + j] == layer[j];
    }
  }
}
