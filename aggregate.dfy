/**
 * The four grouped reductions of main.py:95-119 over the derived rows:
 * the distinct products of each container, the weight of each
 * (container, description) pair, the shipment cost of each container and
 * the value per importer. Sums skip missing amounts; the groups of a
 * single text key come in ascending order.
 */
module Aggregate {
  import opened Wrappers
  import opened Sequences
  import opened Cells
  import opened Derive

  function ContainerOf(r: Row): string
  {
    r.container
  }

  function ImporterOf(r: Row): string
  {
    r.importer
  }

  /** `Weight (kgs)`, a copy of the parsed `Quantity`. */
  function WeightOf(r: Row): Option<int>
  {
    r.weight
  }

  /** `Value (USD)`; `Shipment Cost` is a copy of it (main.py:93). */
  function ValueOf(r: Row): Option<int>
  {
    r.value
  }

  // ----- products per container (main.py:95-104) ---------------------------------

  /** The present descriptions of the rows in container `c`, in row order. */
  function DescriptionsIn(rows: seq<Row>, c: string): seq<Cell>
    decreases |rows|
  {
    if rows == [] then []
    else
      var r := rows[|rows| - 1];
      DescriptionsIn(rows[..|rows| - 1], c) + (if r.container == c && r.description.Some? then [r.description.value] else [])
  }

  lemma {:induction false} DescriptionsInAre(rows: seq<Row>, c: string)
    ensures forall x :: x in DescriptionsIn(rows, c) <==>
              exists i :: 0 <= i < |rows| && rows[i].container == c && rows[i].description == Some(x)
    decreases |rows|
  {
    if rows != [] {
      var init := rows[..|rows| - 1];
      DescriptionsInAre(init, c);
      assert forall i :: 0 <= i < |init| ==> init[i] == rows[i];
    }
  }

  /** `list(x.dropna().unique())` for the group of container `c`. */
  function ProductsOf(rows: seq<Row>, c: string): seq<Cell>
  {
    Distinct(DescriptionsIn(rows, c))
  }

  /**
   * The products list of a container holds each description of its rows
   * once, no missing one, in the order of first occurrence.
   */
  lemma ProductsOfAre(rows: seq<Row>, c: string)
    ensures NoDups(ProductsOf(rows, c))
    ensures forall x :: x in ProductsOf(rows, c) <==>
              exists i :: 0 <= i < |rows| && rows[i].container == c && rows[i].description == Some(x)
    ensures forall i, j :: 0 <= i < j < |ProductsOf(rows, c)| ==>
              IndexOf(DescriptionsIn(rows, c), ProductsOf(rows, c)[i]) < IndexOf(DescriptionsIn(rows, c), ProductsOf(rows, c)[j])
  {
    DescriptionsInAre(rows, c);
    DistinctFirstSeen(DescriptionsIn(rows, c));
  }

  /** One row of the "Products per Container" sheet. */
  datatype ProductsRow = ProductsRow(container: string, count: nat, products: seq<Cell>)

  function ProductsRowOf(rows: seq<Row>, c: string): ProductsRow
  {
    var ps := ProductsOf(rows, c);
    ProductsRow(c, |ps|, ps)
  }

  /** The distinct container names in ascending order: the groups of `groupby('Container Name')`. */
  function Containers(rows: seq<Row>): seq<string>
  {
    SortedUnique(Map(rows, ContainerOf))
  }

  /** The products sheet has a row for container `c`. */
  predicate HasContainer(t: seq<ProductsRow>, c: string)
  {
    exists k :: 0 <= k < |t| && t[k].container == c
  }

  function ProductsPerContainer(rows: seq<Row>): seq<ProductsRow>
  {
    Map(Containers(rows), c => ProductsRowOf(rows, c))
  }

  /**
   * Exactly one sheet row per distinct container, in ascending order, and
   * the count column is the length of the products list.
   */
  lemma ProductsPerContainerRows(rows: seq<Row>)
    ensures StrictlySorted(Map(ProductsPerContainer(rows), (p: ProductsRow) => p.container))
    ensures forall c :: HasContainer(ProductsPerContainer(rows), c) <==> exists i :: 0 <= i < |rows| && rows[i].container == c
    ensures forall k :: 0 <= k < |ProductsPerContainer(rows)| ==>
              && ProductsPerContainer(rows)[k].products == ProductsOf(rows, ProductsPerContainer(rows)[k].container)
              && ProductsPerContainer(rows)[k].count == |ProductsPerContainer(rows)[k].products|
  {
    var cs := Containers(rows);
    var t := ProductsPerContainer(rows);
    assert Map(t, (p: ProductsRow) => p.container) == cs;
    forall c | exists i :: 0 <= i < |rows| && rows[i].container == c
      ensures HasContainer(t, c)
    {
      var i :| 0 <= i < |rows| && rows[i].container == c;
      assert Map(rows, ContainerOf)[i] == c;
      assert c in cs;
      var k :| 0 <= k < |cs| && cs[k] == c;
      assert t[k].container == c;
    }
    forall c | HasContainer(t, c)
      ensures exists i :: 0 <= i < |rows| && rows[i].container == c
    {
      var k :| 0 <= k < |t| && t[k].container == c;
      assert cs[k] in Map(rows, ContainerOf);
    }
  }

  // ----- weight per product (main.py:106-109) ------------------------------------

  predicate HasDescription(r: Row)
  {
    r.description.Some?
  }

  /** The group key of `groupby(['Container Name', 'Description'])`. */
  function PairOf(r: Row): (string, Option<Cell>)
  {
    (r.container, r.description)
  }

  /** The (container, description) groups, in order of first occurrence; a missing description forms none. */
  function WeightKeys(rows: seq<Row>): seq<(string, Option<Cell>)>
  {
    Distinct(Map(Select(rows, HasDescription), PairOf))
  }

  lemma WeightKeysAre(rows: seq<Row>)
    ensures NoDups(WeightKeys(rows))
    ensures forall k :: k in WeightKeys(rows) <==> exists i :: 0 <= i < |rows| && rows[i].description.Some? && PairOf(rows[i]) == k
  {
    var d := Select(rows, HasDescription);
    var m := Map(d, PairOf);
    forall k | k in m
      ensures exists i :: 0 <= i < |rows| && rows[i].description.Some? && PairOf(rows[i]) == k
    {
      var j :| 0 <= j < |m| && m[j] == k;
      assert d[j] in rows;
    }
    forall i | 0 <= i < |rows| && rows[i].description.Some?
      ensures PairOf(rows[i]) in m
    {
      assert rows[i] in d;
      var j :| 0 <= j < |d| && d[j] == rows[i];
      assert m[j] == PairOf(rows[i]);
    }
  }

  lemma WeightKeysDescribed(rows: seq<Row>)
    ensures forall j :: 0 <= j < |WeightKeys(rows)| ==> WeightKeys(rows)[j].1.Some?
  {
    WeightKeysAre(rows);
    var keys := WeightKeys(rows);
    forall j | 0 <= j < |keys|
      ensures keys[j].1.Some?
    {
      assert keys[j] in keys;
    }
  }

  /** One row of the "Weight per Product" sheet. */
  datatype WeightRow = WeightRow(container: string, description: Cell, weight: int)

  function WeightRows(g: seq<((string, Option<Cell>), int)>): (t: seq<WeightRow>)
    requires forall k :: 0 <= k < |g| ==> g[k].0.1.Some?
    ensures |t| == |g|
    ensures forall k :: 0 <= k < |g| ==> t[k] == WeightRow(g[k].0.0, g[k].0.1.value, g[k].1)
    decreases |g|
  {
    if g == [] then []
    else
      var e := g[|g| - 1];
      WeightRows(g[..|g| - 1]) + [WeightRow(e.0.0, e.0.1.value, e.1)]
  }

  function WeightPerProduct(rows: seq<Row>): seq<WeightRow>
  {
    WeightKeysDescribed(rows);
    WeightRows(GroupSum(WeightKeys(rows), rows, PairOf, WeightOf))
  }

  /** The summed weight of the sheet rows of container `c`. */
  function ContainerWeight(t: seq<WeightRow>, c: string): int
    decreases |t|
  {
    if t == [] then 0
    else
      var w := t[|t| - 1];
      ContainerWeight(t[..|t| - 1], c) + (if w.container == c then w.weight else 0)
  }

  /** The present weights of the rows of container `c` that have a description. */
  function DescribedWeight(rows: seq<Row>, c: string): int
    decreases |rows|
  {
    if rows == [] then 0
    else
      var r := rows[|rows| - 1];
      DescribedWeight(rows[..|rows| - 1], c) + (if r.container == c && r.description.Some? then Val(r.weight) else 0)
  }

  lemma {:induction false} ContainerWeightWhere(g: seq<((string, Option<Cell>), int)>, c: string,
                                                sel: ((string, Option<Cell>)) -> bool)
    requires forall k :: 0 <= k < |g| ==> g[k].0.1.Some?
    requires forall k :: sel(k) == (k.0 == c && k.1.Some?)
    ensures ContainerWeight(WeightRows(g), c) == SumWhere(g, sel)
    decreases |g|
  {
    if g != [] {
      var init := g[..|g| - 1];
      ContainerWeightWhere(init, c, sel);
      var t := WeightRows(g);
      assert t[..|t| - 1] == WeightRows(init);
    }
  }

  lemma {:induction false} DescribedWeightSelected(rows: seq<Row>, c: string, sel: ((string, Option<Cell>)) -> bool)
    requires forall k :: sel(k) == (k.0 == c && k.1.Some?)
    ensures DescribedWeight(rows, c) == SelectedTotal(rows, PairOf, sel, WeightOf)
    decreases |rows|
  {
    if rows != [] {
      DescribedWeightSelected(rows[..|rows| - 1], c, sel);
    }
  }

  /**
   * The weights listed for one container add up to that container's weight
   * over its rows with a description: no row is counted twice, and only
   * the rows without a description are left out.
   */
  lemma WeightPerContainer(rows: seq<Row>, c: string)
    ensures ContainerWeight(WeightPerProduct(rows), c) == DescribedWeight(rows, c)
  {
    var keys := WeightKeys(rows);
    WeightKeysAre(rows);
    WeightKeysDescribed(rows);
    var g := GroupSum(keys, rows, PairOf, WeightOf);
    var sel := (k: (string, Option<Cell>)) => k.0 == c && k.1.Some?;
    ContainerWeightWhere(g, c, sel);
    GroupSumWhere(keys, rows, PairOf, sel, WeightOf);
    forall x | x in rows && sel(PairOf(x))
      ensures PairOf(x) in keys
    {
      var i :| 0 <= i < |rows| && rows[i] == x;
      assert rows[i].description.Some? && PairOf(rows[i]) == PairOf(x);
    }
    Partition(keys, rows, PairOf, sel, WeightOf);
    DescribedWeightSelected(rows, c, sel);
  }

  /** The weight sheet has a row for the pair (`c`, `d`). */
  predicate HasPair(t: seq<WeightRow>, c: string, d: Cell)
  {
    exists k :: 0 <= k < |t| && t[k].container == c && t[k].description == d
  }

  /** One sheet row per (container, description) pair that occurs with a description, each once. */
  lemma WeightPerProductRows(rows: seq<Row>)
    ensures forall c, d :: HasPair(WeightPerProduct(rows), c, d)
                           <==> exists i :: 0 <= i < |rows| && rows[i].container == c && rows[i].description == Some(d)
    ensures forall k, l :: 0 <= k < l < |WeightPerProduct(rows)| ==>
              (WeightPerProduct(rows)[k].container, WeightPerProduct(rows)[k].description)
              != (WeightPerProduct(rows)[l].container, WeightPerProduct(rows)[l].description)
  {
    var keys := WeightKeys(rows);
    WeightKeysAre(rows);
    WeightKeysDescribed(rows);
    var t := WeightPerProduct(rows);
    assert forall k :: 0 <= k < |t| ==> keys[k] == (t[k].container, Some(t[k].description));
    forall c, d | exists i :: 0 <= i < |rows| && rows[i].container == c && rows[i].description == Some(d)
      ensures HasPair(t, c, d)
    {
      var i :| 0 <= i < |rows| && rows[i].container == c && rows[i].description == Some(d);
      assert PairOf(rows[i]) in keys;
      var k :| 0 <= k < |keys| && keys[k] == (c, Some(d));
      assert t[k].container == c && t[k].description == d;
    }
    forall c, d | HasPair(t, c, d)
      ensures exists i :: 0 <= i < |rows| && rows[i].container == c && rows[i].description == Some(d)
    {
      var k :| 0 <= k < |t| && t[k].container == c && t[k].description == d;
      assert keys[k] in keys;
    }
  }

  // ----- shipment cost per container and value per importer (main.py:111-119) -----

  /** `groupby('Container Name')['Shipment Cost'].sum()`. */
  function ShipmentCost(rows: seq<Row>): seq<(string, int)>
  {
    GroupSum(Containers(rows), rows, ContainerOf, ValueOf)
  }

  /** The distinct importer keys in ascending order. */
  function Importers(rows: seq<Row>): seq<string>
  {
    SortedUnique(Map(rows, ImporterOf))
  }

  /** `groupby('Importer')['Value (USD)'].sum()`: keyed on the importer itself, not on its canonical name. */
  function ValuePerImporter(rows: seq<Row>): seq<(string, int)>
  {
    GroupSum(Importers(rows), rows, ImporterOf, ValueOf)
  }

  /** Every row's key is among the sorted distinct keys, and only those keys are. */
  lemma SortedKeysCover(rows: seq<Row>, key: Row -> string)
    ensures forall x :: x in rows ==> key(x) in SortedUnique(Map(rows, key))
    ensures forall k :: k in SortedUnique(Map(rows, key)) <==> exists i :: 0 <= i < |rows| && key(rows[i]) == k
  {
    var m := Map(rows, key);
    forall x | x in rows
      ensures key(x) in m
    {
      var i :| 0 <= i < |rows| && rows[i] == x;
      assert m[i] == key(x);
    }
    forall k | k in m
      ensures exists i :: 0 <= i < |rows| && key(rows[i]) == k
    {
      var i :| 0 <= i < |m| && m[i] == k;
    }
  }

  /** Grouping on a text key: one row per distinct key, ascending. */
  lemma GroupedByTextKeys(rows: seq<Row>, key: Row -> string)
    ensures StrictlySorted(KeysOf(GroupSum(SortedUnique(Map(rows, key)), rows, key, ValueOf)))
    ensures forall k :: Listed(GroupSum(SortedUnique(Map(rows, key)), rows, key, ValueOf), k)
                        <==> exists i :: 0 <= i < |rows| && key(rows[i]) == k
  {
    var ks := SortedUnique(Map(rows, key));
    var g := GroupSum(ks, rows, key, ValueOf);
    GroupSumKeys(ks, rows, key, ValueOf);
    assert KeysOf(g) == ks;
    SortedKeysCover(rows, key);
    forall k
      ensures Listed(g, k) <==> exists i :: 0 <= i < |rows| && key(rows[i]) == k
    {
      assert Listed(g, k) <==> k in ks;
    }
  }

  /** Grouping on a text key: the group totals add up to the total of all rows. */
  lemma GroupedByTextTotal(rows: seq<Row>, key: Row -> string)
    ensures SumAll(GroupSum(SortedUnique(Map(rows, key)), rows, key, ValueOf)) == Total(rows, ValueOf)
  {
    SortedKeysCover(rows, key);
    GroupSumTotal(SortedUnique(Map(rows, key)), rows, key, ValueOf);
  }

  /**
   * The shipment-cost sheet: one row per distinct container, ascending; each
   * total is the sum of the container's present costs, and the totals add up
   * to the sum of all present costs.
   */
  lemma ShipmentCostRows(rows: seq<Row>)
    ensures StrictlySorted(KeysOf(ShipmentCost(rows)))
    ensures forall c :: Listed(ShipmentCost(rows), c) <==> exists i :: 0 <= i < |rows| && rows[i].container == c
    ensures forall e :: e in ShipmentCost(rows) ==> e.1 == KeyedTotal(rows, ContainerOf, e.0, ValueOf)
    ensures SumAll(ShipmentCost(rows)) == Total(rows, ValueOf)
  {
    GroupedByTextKeys(rows, ContainerOf);
    GroupedByTextTotal(rows, ContainerOf);
  }

  /**
   * The value-per-importer sheet: one row per distinct importer key,
   * ascending; each total is the sum of that importer's present values, and
   * the totals add up to the sum of all present values.
   */
  lemma ValuePerImporterRows(rows: seq<Row>)
    ensures StrictlySorted(KeysOf(ValuePerImporter(rows)))
    ensures forall m :: Listed(ValuePerImporter(rows), m) <==> exists i :: 0 <= i < |rows| && rows[i].importer == m
    ensures forall e :: e in ValuePerImporter(rows) ==> e.1 == KeyedTotal(rows, ImporterOf, e.0, ValueOf)
    ensures SumAll(ValuePerImporter(rows)) == Total(rows, ValueOf)
  {
    GroupedByTextKeys(rows, ImporterOf);
    GroupedByTextTotal(rows, ImporterOf);
  }
}
