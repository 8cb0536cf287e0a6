/**
 * `normalize_importer_names`: every importer name is normalised, and the
 * distinct normalised names are walked in first-seen order.  The first name
 * becomes a canonical name; each later name joins the best-scoring canonical
 * name when that score reaches the threshold, and otherwise becomes a
 * canonical name itself.  The similarity scorer (rapidfuzz
 * `fuzz.token_sort_ratio`) is a parameter.
 */
module Clustering {
  import opened Sequences
  import Text

  /** A similarity score on rapidfuzz's 0..100 scale. */
  type Score = s: real | 0.0 <= s <= 100.0

  /** The default `similarity_threshold`, the one the script uses. */
  const SIMILARITY_THRESHOLD: real := 90.0

  /** The canonical names, in the order they were added, and the name -> canonical map. */
  datatype Clusters = Clusters(canonical: seq<string>, mapping: map<string, string>)

  /**
   * rapidfuzz `process.extractOne(name, choices, scorer=sim)`: the position of
   * the best-scoring choice, the first one when several share the best score.
   */
  function BestMatch(name: string, choices: seq<string>, sim: (string, string) -> Score): (k: nat)
    requires choices != []
    ensures k < |choices|
    ensures forall j :: 0 <= j < |choices| ==> sim(name, choices[j]) <= sim(name, choices[k])
    ensures forall j :: 0 <= j < k ==> sim(name, choices[j]) < sim(name, choices[k])
    decreases |choices|
  {
    if |choices| == 1 then 0
    else
      var init := choices[..|choices| - 1];
      var k := BestMatch(name, init, sim);
      assert init[k] == choices[k];
      assert forall j :: 0 <= j < |init| ==> init[j] == choices[j];
      if sim(name, choices[k]) < sim(name, choices[|choices| - 1]) then |choices| - 1 else k
  }

  /** One iteration of the loop over the distinct names (main.py:35-46). */
  function Step(c: Clusters, name: string, sim: (string, string) -> Score, threshold: real): Clusters
  {
    if c.canonical == [] then Clusters([name], c.mapping[name := name])
    else
      var best := c.canonical[BestMatch(name, c.canonical, sim)];
      if sim(name, best) >= threshold then Clusters(c.canonical, c.mapping[name := best])
      else Clusters(c.canonical + [name], c.mapping[name := name])
  }

  /** The state after walking `names` from the first to the last. */
  function Cluster(names: seq<string>, sim: (string, string) -> Score, threshold: real): Clusters
    decreases |names|
  {
    if names == [] then Clusters([], map[])
    else Step(Cluster(names[..|names| - 1], sim, threshold), names[|names| - 1], sim, threshold)
  }

  /**
   * main.py:28-48.  Returns the `Normalized_Importer` column and the clusters
   * built from its distinct values.  (The script discards the map and returns
   * only the frame; the model hands the map back so that it can be stated.)
   */
  method NormalizeImporterNames(importers: seq<string>, sim: (string, string) -> Score, threshold: real)
    returns (normalized: seq<string>, canonical: seq<string>, mapping: map<string, string>)
    ensures |normalized| == |importers|
    ensures forall i :: 0 <= i < |importers| ==> normalized[i] == Text.Normalize(importers[i])
    ensures Clusters(canonical, mapping) == Cluster(Distinct(normalized), sim, threshold)
    ensures forall n :: n in mapping <==> n in normalized
    ensures forall c :: c in canonical ==> c in mapping && mapping[c] == c
    ensures forall n :: n in mapping ==> mapping[n] in canonical
    ensures NoDups(canonical)
  {
    normalized := seq(|importers|, i requires 0 <= i < |importers| => Text.Normalize(importers[i]));
    canonical, mapping := ClusterNames(Distinct(normalized), sim, threshold);
    ClusterOfColumn(normalized, sim, threshold);
  }

  /** The loop of main.py:35-46 over the distinct names, from the first to the last. */
  method ClusterNames(names: seq<string>, sim: (string, string) -> Score, threshold: real)
    returns (canonical: seq<string>, mapping: map<string, string>)
    ensures Clusters(canonical, mapping) == Cluster(names, sim, threshold)
  {
    canonical, mapping := [], map[];
    for i := 0 to |names|
      invariant Clusters(canonical, mapping) == Cluster(names[..i], sim, threshold)
    {
      var name := names[i];
      assert names[..i + 1][..i] == names[..i];
      if canonical == [] {
        canonical := canonical + [name];
        mapping := mapping[name := name];
        continue;
      }
      var k := BestMatch(name, canonical, sim);
      if sim(name, canonical[k]) >= threshold {
        mapping := mapping[name := canonical[k]];
      } else {
        canonical := canonical + [name];
        mapping := mapping[name := name];
      }
    }
    assert names[..|names|] == names;
  }

  /** Clustering the distinct values of a column gives every value of the column an entry, and only those. */
  lemma ClusterOfColumn(column: seq<string>, sim: (string, string) -> Score, threshold: real)
    ensures var c := Cluster(Distinct(column), sim, threshold);
      && (forall n :: n in c.mapping <==> n in column)
      && (forall x :: x in c.canonical ==> x in c.mapping && c.mapping[x] == x)
      && (forall n :: n in c.mapping ==> c.mapping[n] in c.canonical)
      && NoDups(c.canonical)
  {
    ClusterProperties(Distinct(column), sim, threshold);
  }

  // ----- what the clustering guarantees ----------------------------------------

  /** The names of `ds` that the map sends to themselves, in the order of `ds`. */
  function SelfMapped(ds: seq<string>, m: map<string, string>): seq<string>
    decreases |ds|
  {
    if ds == [] then []
    else
      var last := ds[|ds| - 1];
      SelfMapped(ds[..|ds| - 1], m) + (if last in m && m[last] == last then [last] else [])
  }

  lemma {:induction false} SelfMappedAgree(ds: seq<string>, m: map<string, string>, m': map<string, string>)
    requires forall x :: x in ds ==> (x in m <==> x in m') && (x in m ==> m[x] == m'[x])
    ensures SelfMapped(ds, m) == SelfMapped(ds, m')
    decreases |ds|
  {
    if ds != [] {
      assert forall x :: x in ds[..|ds| - 1] ==> x in ds;
      SelfMappedAgree(ds[..|ds| - 1], m, m');
    }
  }

  /** Every name walked has a map entry, and nothing else has. */
  ghost predicate KeysAre(c: Clusters, ds: seq<string>)
  {
    forall x :: x in c.mapping <==> x in ds
  }

  /** Every canonical name maps to itself. */
  ghost predicate CanonicalFixed(c: Clusters)
  {
    forall x :: x in c.canonical ==> x in c.mapping && c.mapping[x] == x
  }

  /** Every map value is a canonical name. */
  ghost predicate ValuesCanonical(c: Clusters)
  {
    forall x :: x in c.mapping ==> c.mapping[x] in c.canonical
  }

  /** Each canonical name scored below the threshold against every canonical name added before it. */
  ghost predicate Separated(c: Clusters, sim: (string, string) -> Score, threshold: real)
  {
    forall i, j :: 0 <= i < j < |c.canonical| ==> sim(c.canonical[j], c.canonical[i]) < threshold
  }

  /** Each name mapped elsewhere scored at least the threshold against its canonical name. */
  ghost predicate Joined(c: Clusters, sim: (string, string) -> Score, threshold: real)
  {
    forall x :: x in c.mapping && c.mapping[x] != x ==> sim(x, c.mapping[x]) >= threshold
  }

  ghost predicate Invariant(c: Clusters, ds: seq<string>, sim: (string, string) -> Score, threshold: real)
  {
    && KeysAre(c, ds)
    && NoDups(c.canonical)
    && CanonicalFixed(c)
    && ValuesCanonical(c)
    && c.canonical == SelfMapped(ds, c.mapping)
    && (ds != [] ==> c.canonical != [] && c.canonical[0] == ds[0])
    && Separated(c, sim, threshold)
    && Joined(c, sim, threshold)
  }

  /** The canonical names come from the walked names. */
  lemma {:induction false} SelfMappedIn(ds: seq<string>, m: map<string, string>)
    ensures forall x :: x in SelfMapped(ds, m) ==> x in ds
    decreases |ds|
  {
    if ds != [] {
      SelfMappedIn(ds[..|ds| - 1], m);
      assert forall x :: x in ds[..|ds| - 1] ==> x in ds;
    }
  }

  /** A name joining a canonical name keeps the invariant. */
  lemma StepJoinKeeps(c: Clusters, init: seq<string>, name: string, best: string,
                      sim: (string, string) -> Score, threshold: real)
    requires Invariant(c, init, sim, threshold) && name !in init && init != []
    requires best in c.canonical && sim(name, best) >= threshold
    ensures Invariant(Clusters(c.canonical, c.mapping[name := best]), init + [name], sim, threshold)
  {
    var ds := init + [name];
    var m' := c.mapping[name := best];
    SelfMappedIn(init, c.mapping);
    assert best != name;
    assert ds[..|ds| - 1] == init;
    SelfMappedAgree(init, c.mapping, m');
    assert ds[0] == init[0];
  }

  /** A name becoming canonical keeps the map's keys and values. */
  lemma StepNewEntries(c: Clusters, init: seq<string>, name: string,
                       sim: (string, string) -> Score, threshold: real)
    requires Invariant(c, init, sim, threshold) && name !in init
    ensures var c', ds := Clusters(c.canonical + [name], c.mapping[name := name]), init + [name];
      KeysAre(c', ds) && NoDups(c'.canonical) && CanonicalFixed(c') && ValuesCanonical(c')
  {
    SelfMappedIn(init, c.mapping);
    assert name !in c.canonical;
  }

  /** A name becoming canonical is appended to the canonical names, which stay the self-mapped names in order. */
  lemma StepNewOrder(c: Clusters, init: seq<string>, name: string,
                     sim: (string, string) -> Score, threshold: real)
    requires Invariant(c, init, sim, threshold) && name !in init
    ensures var c', ds := Clusters(c.canonical + [name], c.mapping[name := name]), init + [name];
      c'.canonical == SelfMapped(ds, c'.mapping) && c'.canonical[0] == ds[0]
  {
    var ds := init + [name];
    var m' := c.mapping[name := name];
    assert ds[..|ds| - 1] == init;
    SelfMappedAgree(init, c.mapping, m');
    if init == [] {
      assert c.canonical == [];
    } else {
      assert ds[0] == init[0];
    }
  }

  /** A name becoming canonical keeps the scores' guarantees, given it scored below the threshold against every canonical name. */
  lemma StepNewScores(c: Clusters, init: seq<string>, name: string,
                      sim: (string, string) -> Score, threshold: real)
    requires Invariant(c, init, sim, threshold) && name !in init
    requires forall i :: 0 <= i < |c.canonical| ==> sim(name, c.canonical[i]) < threshold
    ensures var c' := Clusters(c.canonical + [name], c.mapping[name := name]);
      Separated(c', sim, threshold) && Joined(c', sim, threshold)
  {
    var c' := Clusters(c.canonical + [name], c.mapping[name := name]);
    forall i, j | 0 <= i < j < |c'.canonical|
      ensures sim(c'.canonical[j], c'.canonical[i]) < threshold
    {
      if j < |c.canonical| {
        assert c'.canonical[j] == c.canonical[j] && c'.canonical[i] == c.canonical[i];
      }
    }
  }

  /** A name becoming canonical keeps the invariant, given it scored below the threshold against every canonical name. */
  lemma StepNewKeeps(c: Clusters, init: seq<string>, name: string,
                     sim: (string, string) -> Score, threshold: real)
    requires Invariant(c, init, sim, threshold) && name !in init
    requires forall i :: 0 <= i < |c.canonical| ==> sim(name, c.canonical[i]) < threshold
    ensures Invariant(Clusters(c.canonical + [name], c.mapping[name := name]), init + [name], sim, threshold)
  {
    StepNewEntries(c, init, name, sim, threshold);
    StepNewOrder(c, init, name, sim, threshold);
    StepNewScores(c, init, name, sim, threshold);
  }

  lemma StepKeeps(c: Clusters, init: seq<string>, name: string, sim: (string, string) -> Score, threshold: real)
    requires Invariant(c, init, sim, threshold) && name !in init
    ensures Invariant(Step(c, name, sim, threshold), init + [name], sim, threshold)
  {
    if c.canonical == [] {
      StepNewKeeps(c, init, name, sim, threshold);
    } else {
      var best := c.canonical[BestMatch(name, c.canonical, sim)];
      if sim(name, best) >= threshold {
        StepJoinKeeps(c, init, name, best, sim, threshold);
      } else {
        StepNewKeeps(c, init, name, sim, threshold);
      }
    }
  }

  /**
   * After walking a list of distinct names:
   * every name has a map entry and nothing else has; the canonical names have
   * no duplicates, are exactly the names that map to themselves, in
   * first-seen order, and the first name is the first canonical name; every
   * map value is canonical; each canonical name scored below the threshold
   * against every canonical name added before it; and each name that joined
   * another scored at least the threshold against it.
   */
  lemma {:induction false} ClusterProperties(ds: seq<string>, sim: (string, string) -> Score, threshold: real)
    requires NoDups(ds)
    ensures var c := Cluster(ds, sim, threshold);
      && (forall x :: x in c.mapping <==> x in ds)
      && NoDups(c.canonical)
      && (forall x :: x in c.canonical ==> x in c.mapping && c.mapping[x] == x)
      && (forall x :: x in c.mapping ==> c.mapping[x] in c.canonical)
      && c.canonical == SelfMapped(ds, c.mapping)
      && (ds != [] ==> c.canonical != [] && c.canonical[0] == ds[0])
      && (forall i, j :: 0 <= i < j < |c.canonical| ==> sim(c.canonical[j], c.canonical[i]) < threshold)
      && (forall x :: x in c.mapping && c.mapping[x] != x ==> sim(x, c.mapping[x]) >= threshold)
    decreases |ds|
  {
    ClusterInvariant(ds, sim, threshold);
  }

  lemma {:induction false} ClusterInvariant(ds: seq<string>, sim: (string, string) -> Score, threshold: real)
    requires NoDups(ds)
    ensures Invariant(Cluster(ds, sim, threshold), ds, sim, threshold)
    decreases |ds|
  {
    if ds != [] {
      var init, name := ds[..|ds| - 1], ds[|ds| - 1];
      assert ds == init + [name];
      assert NoDups(init);
      ClusterInvariant(init, sim, threshold);
      StepKeeps(Cluster(init, sim, threshold), init, name, sim, threshold);
    }
  }

  /** One step only appends to the canonical names and adds an entry for the new name. */
  lemma StepExtends(c: Clusters, name: string, sim: (string, string) -> Score, threshold: real)
    requires name !in c.mapping
    ensures var c' := Step(c, name, sim, threshold);
      && |c.canonical| <= |c'.canonical|
      && c.canonical == c'.canonical[..|c.canonical|]
      && (forall x :: x in c.mapping ==> x in c'.mapping && c'.mapping[x] == c.mapping[x])
  {
    var c' := Step(c, name, sim, threshold);
    assert c'.canonical == c.canonical || c'.canonical == c.canonical + [name];
  }

  /** Walking a longer list only adds: earlier canonical names and map entries stay. */
  lemma {:induction false} ClusterPrefix(ds: seq<string>, i: nat, sim: (string, string) -> Score, threshold: real)
    requires NoDups(ds) && i <= |ds|
    ensures var before, after := Cluster(ds[..i], sim, threshold), Cluster(ds, sim, threshold);
      && |before.canonical| <= |after.canonical|
      && before.canonical == after.canonical[..|before.canonical|]
      && (forall x :: x in before.mapping ==> x in after.mapping && after.mapping[x] == before.mapping[x])
    decreases |ds| - i
  {
    if i < |ds| {
      var init, name := ds[..|ds| - 1], ds[|ds| - 1];
      assert ds == init + [name];
      assert NoDups(init);
      assert init[..i] == ds[..i];
      ClusterPrefix(init, i, sim, threshold);
      var c := Cluster(init, sim, threshold);
      assert name !in c.mapping by {
        ClusterInvariant(init, sim, threshold);
      }
      StepExtends(c, name, sim, threshold);
      var before, after := Cluster(ds[..i], sim, threshold), Cluster(ds, sim, threshold);
      assert ds[..|ds| - 1] == init;
      assert after == Step(c, name, sim, threshold);
      assert c.canonical[..|before.canonical|] == after.canonical[..|before.canonical|];
    } else {
      assert ds[..i] == ds;
    }
  }

  /**
   * One step on a non-empty state: the name joins the best match when that
   * score reaches the threshold and otherwise maps to itself; and the best
   * score is below the threshold exactly when every canonical name's is.
   */
  lemma StepDecision(c: Clusters, init: seq<string>, name: string, sim: (string, string) -> Score, threshold: real)
    requires Invariant(c, init, sim, threshold) && name !in init && init != []
    ensures c.canonical != []
    ensures var best, c' := c.canonical[BestMatch(name, c.canonical, sim)], Step(c, name, sim, threshold);
      && name in c'.mapping
      && (sim(name, best) >= threshold ==> c'.mapping[name] == best && best != name)
      && (sim(name, best) < threshold ==> c'.mapping[name] == name)
      && (sim(name, best) < threshold <==> forall x :: x in c.canonical ==> sim(name, x) < threshold)
  {
    var best := c.canonical[BestMatch(name, c.canonical, sim)];
    SelfMappedIn(init, c.mapping);
    assert best in init;
  }

  /**
   * The decision for the name at position `i > 0`: with the canonical names
   * built so far, it joins the best match when that score reaches the
   * threshold, and otherwise becomes canonical and maps to itself; so it
   * becomes canonical exactly when it scored below the threshold against
   * every canonical name before it.
   */
  lemma ClusterDecision(ds: seq<string>, i: nat, sim: (string, string) -> Score, threshold: real)
    requires NoDups(ds) && 0 < i < |ds|
    ensures var before, after := Cluster(ds[..i], sim, threshold), Cluster(ds, sim, threshold);
      && before.canonical != []
      && ds[i] in after.mapping
      && var best := before.canonical[BestMatch(ds[i], before.canonical, sim)];
      && (sim(ds[i], best) >= threshold ==> after.mapping[ds[i]] == best && ds[i] !in after.canonical)
      && (sim(ds[i], best) < threshold ==> after.mapping[ds[i]] == ds[i] && ds[i] in after.canonical)
      && (ds[i] in after.canonical <==> forall c :: c in before.canonical ==> sim(ds[i], c) < threshold)
  {
    var pre := ds[..i];
    assert NoDups(pre);
    assert pre[0] == ds[0];
    assert ds[i] !in pre;
    ClusterInvariant(pre, sim, threshold);
    ClusterInvariant(ds, sim, threshold);
    assert ds[..i + 1][..i] == pre;
    ClusterPrefix(ds, i + 1, sim, threshold);
    var before := Cluster(pre, sim, threshold);
    var after := Cluster(ds, sim, threshold);
    assert Cluster(ds[..i + 1], sim, threshold) == Step(before, ds[i], sim, threshold);
    StepDecision(before, pre, ds[i], sim, threshold);
    assert ds[i] in after.canonical <==> after.mapping[ds[i]] == ds[i];
  }
}
