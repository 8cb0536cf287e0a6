/**
 * Sequence helpers shared by the model: first-seen de-duplication (pandas
 * `unique()`), filtering, NaN-skipping totals and the partition of a total
 * by group key (pandas `groupby(...).sum()`), and the code-point ordering of
 * strings that pandas uses to sort group keys.
 */
module Sequences {
  import opened Wrappers

  /** No element occurs twice. */
  predicate NoDups<T(==)>(s: seq<T>)
  {
    forall i, j :: 0 <= i < j < |s| ==> s[i] != s[j]
  }

  /** The distinct elements of `s`, in the order of their first occurrence. */
  function Distinct<T(==,!new)>(s: seq<T>): (d: seq<T>)
    ensures NoDups(d)
    ensures forall x :: x in d <==> x in s
    ensures |d| <= |s|
    decreases |s|
  {
    if s == [] then []
    else
      var init, last := s[..|s| - 1], s[|s| - 1];
      assert s == init + [last];
      var d := Distinct(init);
      if last in d then d else d + [last]
  }

  /** The position of the first occurrence of `x` in `s`. */
  function IndexOf<T(==)>(s: seq<T>, x: T): (i: nat)
    requires x in s
    ensures i < |s| && s[i] == x && x !in s[..i]
  {
    if s[0] == x then 0
    else
      var i := IndexOf(s[1..], x);
      assert s[..i + 1] == [s[0]] + s[1..][..i];
      i + 1
  }

  lemma IndexOfUnique<T>(s: seq<T>, x: T, k: nat)
    requires k < |s| && s[k] == x && x !in s[..k]
    ensures IndexOf(s, x) == k
  {
  }

  lemma IndexOfPrefix<T>(s: seq<T>, t: seq<T>, x: T)
    requires x in s
    ensures IndexOf(s + t, x) == IndexOf(s, x)
  {
    var i := IndexOf(s, x);
    assert (s + t)[..i] == s[..i];
    IndexOfUnique(s + t, x, i);
  }

  /** `Distinct` keeps first-seen order: an element listed earlier first occurs earlier. */
  lemma {:induction false} DistinctFirstSeen<T(!new)>(s: seq<T>)
    ensures forall i, j :: 0 <= i < j < |Distinct(s)| ==>
              IndexOf(s, Distinct(s)[i]) < IndexOf(s, Distinct(s)[j])
  {
    if s != [] {
      var init, last := s[..|s| - 1], s[|s| - 1];
      assert s == init + [last];
      DistinctFirstSeen(init);
      forall x | x in init
        ensures IndexOf(s, x) == IndexOf(init, x) < |init|
      {
        IndexOfPrefix(init, [last], x);
      }
      if last !in init {
        IndexOfUnique(s, last, |s| - 1);
      }
    }
  }

  /** The elements of `s` that satisfy `keep`, in order. */
  function Select<T(!new)>(s: seq<T>, keep: T -> bool): (r: seq<T>)
    ensures forall x :: x in r <==> x in s && keep(x)
    ensures |r| <= |s|
    decreases |s|
  {
    if s == [] then []
    else
      var init, last := s[..|s| - 1], s[|s| - 1];
      assert s == init + [last];
      Select(init, keep) + (if keep(last) then [last] else [])
  }

  /** Filtering a list without duplicates keeps it without duplicates and keeps its order. */
  lemma {:induction false} SelectKeepsOrder<T(!new)>(s: seq<T>, keep: T -> bool)
    requires NoDups(s)
    ensures NoDups(Select(s, keep))
    ensures forall i, j :: 0 <= i < j < |Select(s, keep)| ==>
              IndexOf(s, Select(s, keep)[i]) < IndexOf(s, Select(s, keep)[j])
    decreases |s|
  {
    if s != [] {
      var init, last := s[..|s| - 1], s[|s| - 1];
      assert s == init + [last];
      assert NoDups(init);
      SelectKeepsOrder(init, keep);
      forall x | x in init
        ensures IndexOf(s, x) == IndexOf(init, x) < |init|
      {
        IndexOfPrefix(init, [last], x);
      }
      IndexOfUnique(s, last, |s| - 1);
    }
  }

  /** `f` applied to every element, in order. */
  function Map<A, B>(s: seq<A>, f: A -> B): (r: seq<B>)
    ensures |r| == |s| && forall i :: 0 <= i < |s| ==> r[i] == f(s[i])
  {
    seq(|s|, i requires 0 <= i < |s| => f(s[i]))
  }

  lemma MapAppend<A, B>(a: seq<A>, b: seq<A>, f: A -> B)
    ensures Map(a + b, f) == Map(a, f) + Map(b, f)
  {
  }

  // ----- totals that skip missing values -----------------------------------

  /** What an optional amount adds to a sum: pandas' `sum` skips NaN. */
  function Val(o: Option<int>): int
  {
    o.GetOr(0)
  }

  /** The sum of the present amounts of `s`. */
  function Total<T>(s: seq<T>, amt: T -> Option<int>): int
    decreases |s|
  {
    if s == [] then 0 else Total(s[..|s| - 1], amt) + Val(amt(s[|s| - 1]))
  }

  /** The sum of the present amounts of the elements of `s` whose key is `k`. */
  function KeyedTotal<T, K(==)>(s: seq<T>, key: T -> K, k: K, amt: T -> Option<int>): int
    decreases |s|
  {
    if s == [] then 0
    else
      var last := s[|s| - 1];
      KeyedTotal(s[..|s| - 1], key, k, amt) + (if key(last) == k then Val(amt(last)) else 0)
  }

  /** The sum of the present amounts of the elements of `s` whose key satisfies `sel`. */
  function SelectedTotal<T, K>(s: seq<T>, key: T -> K, sel: K -> bool, amt: T -> Option<int>): int
    decreases |s|
  {
    if s == [] then 0
    else
      var last := s[|s| - 1];
      SelectedTotal(s[..|s| - 1], key, sel, amt) + (if sel(key(last)) then Val(amt(last)) else 0)
  }

  /** The per-key totals summed over the keys of `keys` that satisfy `sel`. */
  function KeysTotal<T, K(==)>(keys: seq<K>, s: seq<T>, key: T -> K, sel: K -> bool,
                               amt: T -> Option<int>): int
    decreases |keys|
  {
    if keys == [] then 0
    else
      var k := keys[|keys| - 1];
      KeysTotal(keys[..|keys| - 1], s, key, sel, amt) + (if sel(k) then KeyedTotal(s, key, k, amt) else 0)
  }

  lemma {:induction false} KeysTotalEmpty<T, K>(keys: seq<K>, key: T -> K, sel: K -> bool,
                                                amt: T -> Option<int>)
    ensures KeysTotal(keys, [], key, sel, amt) == 0
  {
    if keys != [] {
      KeysTotalEmpty(keys[..|keys| - 1], key, sel, amt);
    }
  }

  /** Appending one element adds its amount once, under its own key, when that key is listed. */
  lemma {:induction false} KeysTotalSnoc<T, K>(keys: seq<K>, s: seq<T>, x: T, key: T -> K,
                                               sel: K -> bool, amt: T -> Option<int>)
    requires NoDups(keys)
    ensures KeysTotal(keys, s + [x], key, sel, amt)
            == KeysTotal(keys, s, key, sel, amt) + (if key(x) in keys && sel(key(x)) then Val(amt(x)) else 0)
  {
    if keys != [] {
      var ks, k := keys[..|keys| - 1], keys[|keys| - 1];
      assert keys == ks + [k];
      assert NoDups(ks);
      KeysTotalSnoc(ks, s, x, key, sel, amt);
      assert (s + [x])[..|s + [x]| - 1] == s;
      assert k !in ks;
    }
  }

  /**
   * Partition of a total by group key: when the keys are listed once each
   * and every selected key of an element is listed, the per-key totals of
   * the selected keys add up to the total of the elements whose key is
   * selected.
   */
  lemma {:induction false} Partition<T, K>(keys: seq<K>, s: seq<T>, key: T -> K,
                                           sel: K -> bool, amt: T -> Option<int>)
    requires NoDups(keys)
    requires forall x :: x in s && sel(key(x)) ==> key(x) in keys
    ensures KeysTotal(keys, s, key, sel, amt) == SelectedTotal(s, key, sel, amt)
  {
    if s == [] {
      KeysTotalEmpty(keys, key, sel, amt);
    } else {
      var init, x := s[..|s| - 1], s[|s| - 1];
      assert s == init + [x];
      Partition(keys, init, key, sel, amt);
      KeysTotalSnoc(keys, init, x, key, sel, amt);
    }
  }

  /** Selecting every key gives the plain total. */
  lemma {:induction false} SelectedTotalAll<T, K>(s: seq<T>, key: T -> K, sel: K -> bool,
                                                  amt: T -> Option<int>)
    requires forall x :: x in s ==> sel(key(x))
    ensures SelectedTotal(s, key, sel, amt) == Total(s, amt)
  {
    if s != [] {
      SelectedTotalAll(s[..|s| - 1], key, sel, amt);
    }
  }

  /** `groupby(key)[amt].sum()` over the given key order: each key paired with its total. */
  function GroupSum<T, K(==)>(keys: seq<K>, s: seq<T>, key: T -> K, amt: T -> Option<int>): (g: seq<(K, int)>)
    ensures |g| == |keys|
    ensures forall i :: 0 <= i < |keys| ==> g[i] == (keys[i], KeyedTotal(s, key, keys[i], amt))
    decreases |keys|
  {
    if keys == [] then []
    else
      var k := keys[|keys| - 1];
      GroupSum(keys[..|keys| - 1], s, key, amt) + [(k, KeyedTotal(s, key, k, amt))]
  }

  /** The grouped result has a row for key `k`. */
  predicate Listed<K(==)>(g: seq<(K, int)>, k: K)
  {
    exists j :: 0 <= j < |g| && g[j].0 == k
  }

  /** The keys of a grouped result, in its order. */
  function KeysOf<K>(g: seq<(K, int)>): (ks: seq<K>)
    ensures |ks| == |g| && forall j :: 0 <= j < |g| ==> ks[j] == g[j].0
  {
    seq(|g|, j requires 0 <= j < |g| => g[j].0)
  }

  /** A grouped result lists its keys, in their order, and no others. */
  lemma GroupSumKeys<T, K>(keys: seq<K>, s: seq<T>, key: T -> K, amt: T -> Option<int>)
    ensures KeysOf(GroupSum(keys, s, key, amt)) == keys
    ensures forall k :: Listed(GroupSum(keys, s, key, amt), k) <==> k in keys
  {
    var g := GroupSum(keys, s, key, amt);
    assert KeysOf(g) == keys;
    forall k | k in keys
      ensures Listed(g, k)
    {
      var j :| 0 <= j < |keys| && keys[j] == k;
      assert g[j].0 == k;
    }
  }

  /** The sum of the totals of a grouped result whose key satisfies `sel`. */
  function SumWhere<K>(g: seq<(K, int)>, sel: K -> bool): int
    decreases |g|
  {
    if g == [] then 0
    else
      var e := g[|g| - 1];
      SumWhere(g[..|g| - 1], sel) + (if sel(e.0) then e.1 else 0)
  }

  /** The sum of all totals of a grouped result. */
  function SumAll<K>(g: seq<(K, int)>): int
    decreases |g|
  {
    if g == [] then 0 else SumAll(g[..|g| - 1]) + g[|g| - 1].1
  }

  function Always<K>(k: K): bool
  {
    true
  }

  lemma {:induction false} GroupSumWhere<T, K>(keys: seq<K>, s: seq<T>, key: T -> K, sel: K -> bool,
                                               amt: T -> Option<int>)
    ensures SumWhere(GroupSum(keys, s, key, amt), sel) == KeysTotal(keys, s, key, sel, amt)
    decreases |keys|
  {
    if keys != [] {
      var ks := keys[..|keys| - 1];
      GroupSumWhere(ks, s, key, sel, amt);
      var g := GroupSum(keys, s, key, amt);
      assert g[..|g| - 1] == GroupSum(ks, s, key, amt);
    }
  }

  lemma {:induction false} SumAllWhere<K>(g: seq<(K, int)>)
    ensures SumAll(g) == SumWhere(g, Always)
    decreases |g|
  {
    if g != [] {
      SumAllWhere(g[..|g| - 1]);
    }
  }

  /**
   * The totals of a grouping over a key list that covers every element, each
   * key once, add up to the total of all elements: nothing is counted twice
   * and nothing is lost.
   */
  lemma GroupSumTotal<T, K>(keys: seq<K>, s: seq<T>, key: T -> K, amt: T -> Option<int>)
    requires NoDups(keys)
    requires forall x :: x in s ==> key(x) in keys
    ensures SumAll(GroupSum(keys, s, key, amt)) == Total(s, amt)
  {
    var g := GroupSum(keys, s, key, amt);
    SumAllWhere(g);
    GroupSumWhere(keys, s, key, Always, amt);
    Partition(keys, s, key, Always, amt);
    SelectedTotalAll(s, key, Always, amt);
  }

  // ----- ordering of strings by code point ----------------------------------

  /** Python's `<` on `str`: lexicographic by code point, a proper prefix first. */
  predicate LexLess(a: string, b: string)
  {
    if a == [] then b != []
    else if b == [] then false
    else if a[0] != b[0] then a[0] < b[0]
    else LexLess(a[1..], b[1..])
  }

  lemma {:induction false} LexLessIrreflexive(a: string)
    ensures !LexLess(a, a)
  {
    if a != [] {
      LexLessIrreflexive(a[1..]);
    }
  }

  lemma {:induction false} LexLessTransitive(a: string, b: string, c: string)
    requires LexLess(a, b) && LexLess(b, c)
    ensures LexLess(a, c)
  {
    if a != [] && a[0] == b[0] && b[0] == c[0] {
      LexLessTransitive(a[1..], b[1..], c[1..]);
    }
  }

  lemma {:induction false} LexLessTotal(a: string, b: string)
    requires a != b
    ensures LexLess(a, b) || LexLess(b, a)
  {
    if a != [] && b != [] && a[0] == b[0] {
      assert a == [a[0]] + a[1..] && b == [b[0]] + b[1..];
      LexLessTotal(a[1..], b[1..]);
    }
  }

  /** `LexLess` is a strict total order on strings. */
  lemma LexLessIsStrictOrder()
    ensures forall a :: !LexLess(a, a)
    ensures forall a, b, c :: LexLess(a, b) && LexLess(b, c) ==> LexLess(a, c)
    ensures forall a, b :: a != b ==> LexLess(a, b) || LexLess(b, a)
  {
    forall a { LexLessIrreflexive(a); }
    forall a, b, c | LexLess(a, b) && LexLess(b, c) { LexLessTransitive(a, b, c); }
    forall a, b | a != b { LexLessTotal(a, b); }
  }

  predicate StrictlySorted(s: seq<string>)
  {
    forall i, j :: 0 <= i < j < |s| ==> LexLess(s[i], s[j])
  }

  /** Inserts `x` into a strictly sorted sequence, unless it is already there. */
  function Insert(x: string, s: seq<string>): (r: seq<string>)
    requires StrictlySorted(s)
    ensures StrictlySorted(r)
    ensures forall y :: y in r <==> y == x || y in s
  {
    LexLessIsStrictOrder();
    if s == [] then [x]
    else if x == s[0] then s
    else if LexLess(x, s[0]) then [x] + s
    else
      assert LexLess(s[0], x);
      var rest := Insert(x, s[1..]);
      assert forall y :: y in rest ==> LexLess(s[0], y);
      [s[0]] + rest
  }

  /** The distinct strings of `s` in ascending order (the key order of a pandas `groupby`). */
  function SortedUnique(s: seq<string>): (r: seq<string>)
    ensures StrictlySorted(r)
    ensures NoDups(r)
    ensures forall y :: y in r <==> y in s
    decreases |s|
  {
    LexLessIsStrictOrder();
    if s == [] then []
    else
      var init, last := s[..|s| - 1], s[|s| - 1];
      assert s == init + [last];
      Insert(last, SortedUnique(init))
  }

  // ----- flattening -----------------------------------------------------------

  /** The sequences of `ss` one after another. */
  function Flatten<T>(ss: seq<seq<T>>): seq<T>
    decreases |ss|
  {
    if ss == [] then [] else Flatten(ss[..|ss| - 1]) + ss[|ss| - 1]
  }

  lemma {:induction false} FlattenAppend<T>(a: seq<seq<T>>, b: seq<seq<T>>)
    ensures Flatten(a + b) == Flatten(a) + Flatten(b)
    decreases |b|
  {
    if b == [] {
      assert a + b == a;
    } else {
      var init, last := b[..|b| - 1], b[|b| - 1];
      assert (a + b)[..|a + b| - 1] == a + init;
      assert (a + b)[|a + b| - 1] == last;
      FlattenAppend(a, init);
    }
  }
}
