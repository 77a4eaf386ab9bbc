/**
 * The "group by category" pattern the charts and the reports page share:
 * `products.reduce((acc, p) => { acc[p.category] = (acc[p.category] || 0) + w(p); return acc }, {})`,
 * then `Object.entries`, then `sort((a, b) => b.value - a.value)` and `slice(0, n)`.
 * The accumulator is a JavaScript object: a map whose keys keep the order
 * in which they were first assigned.
 */
module Tally {
  import opened Inventory

  /** The accumulator object: its keys in insertion order and its values. */
  datatype Tally = Tally(order: seq<string>, amounts: map<string, int>)

  /** One `[name, value]` pair of `Object.entries`. */
  datatype Entry = Entry(name: string, value: int)

  /** Every key listed once, and exactly the keys that carry a value. */
  ghost predicate Wellformed(t: Tally) {
    && (forall i, j :: 0 <= i < j < |t.order| ==> t.order[i] != t.order[j])
    && (forall k :: k in t.order <==> k in t.amounts)
  }

  /** `acc[key] = (acc[key] || 0) + amount`: a new key goes to the end of the order. */
  function Bump(t: Tally, key: string, amount: int): Tally {
    if key in t.amounts then Tally(t.order, t.amounts[key := t.amounts[key] + amount])
    else Tally(t.order + [key], t.amounts[key := amount])
  }

  /** The accumulator after the `reduce` has visited every product, left to right. */
  function Tallied(ps: seq<Product>, w: Weight): Tally
    decreases |ps|
  {
    if ps == [] then Tally([], map[])
    else
      var last := ps[|ps| - 1];
      Bump(Tallied(ps[..|ps| - 1], w), last.category, Weigh(w, last))
  }

  /** The `reduce` itself: one pass that updates the accumulator in place. */
  method Accumulate(ps: seq<Product>, w: Weight) returns (t: Tally)
    ensures t == Tallied(ps, w)
  {
    var order: seq<string> := [];
    var acc: map<string, int> := map[];
    var i := 0;
    while i < |ps|
      invariant 0 <= i <= |ps|
      invariant Tally(order, acc) == Tallied(ps[..i], w)
    {
      var p := ps[i];
      assert ps[..i + 1][..i] == ps[..i];
      if p.category in acc {
        acc := acc[p.category := acc[p.category] + Weigh(w, p)];
      } else {
        order := order + [p.category];
        acc := acc[p.category := Weigh(w, p)];
      }
      i := i + 1;
    }
    assert ps[..i] == ps;
    t := Tally(order, acc);
  }

  /** The total weight of the products of one category. */
  function SumWhere(ps: seq<Product>, key: string, w: Weight): int
    decreases |ps|
  {
    if ps == [] then 0
    else
      var last := ps[|ps| - 1];
      SumWhere(ps[..|ps| - 1], key, w) + (if last.category == key then Weigh(w, last) else 0)
  }

  /** The categories that occur among the products. */
  function Categories(ps: seq<Product>): set<string> {
    set p | p in ps :: p.category
  }

  /**
   * The finished accumulator has one key per category that occurs, each
   * listed once, and holds for each the total weight of that category.
   */
  lemma TalliedCorrect(ps: seq<Product>, w: Weight)
    ensures Wellformed(Tallied(ps, w))
    ensures Tallied(ps, w).amounts.Keys == Categories(ps)
    ensures forall k :: k in Tallied(ps, w).amounts ==> Tallied(ps, w).amounts[k] == SumWhere(ps, k, w)
  {
    TallySumKeys(ps, w);
    TalliedKeys(ps, w);
    TalliedAmounts(ps, w);
  }

  /** Helper: the accumulator's keys are the categories seen. */
  lemma {:induction false} TalliedKeys(ps: seq<Product>, w: Weight)
    ensures Tallied(ps, w).amounts.Keys == Categories(ps)
    decreases |ps|
  {
    if ps != [] {
      var init := ps[..|ps| - 1];
      var last := ps[|ps| - 1];
      TalliedKeys(init, w);
      assert ps == init + [last];
      assert Categories(ps) == Categories(init) + {last.category};
      BumpKeys(Tallied(init, w), last.category, Weigh(w, last));
    }
  }

  /** Helper: one step of the `reduce` adds its key. */
  lemma BumpKeys(t: Tally, key: string, amount: int)
    ensures Bump(t, key, amount).amounts.Keys == t.amounts.Keys + {key}
  {
  }

  /** Helper: each key holds the total weight of its category. */
  lemma {:induction false} TalliedAmounts(ps: seq<Product>, w: Weight)
    ensures forall k :: k in Tallied(ps, w).amounts ==> Tallied(ps, w).amounts[k] == SumWhere(ps, k, w)
    decreases |ps|
  {
    if ps != [] {
      var init := ps[..|ps| - 1];
      var last := ps[|ps| - 1];
      var key, a := last.category, Weigh(w, last);
      TalliedAmounts(init, w);
      TalliedKeys(init, w);
      var t := Tallied(init, w);
      var u := Tallied(ps, w);
      assert u == Bump(t, key, a);
      forall k | k in u.amounts
        ensures u.amounts[k] == SumWhere(ps, k, w)
      {
        assert SumWhere(ps, k, w) == SumWhere(init, k, w) + (if key == k then a else 0);
        if k != key {
          assert u.amounts[k] == t.amounts[k];
        } else if k in t.amounts {
          assert u.amounts[k] == t.amounts[k] + a;
        } else {
          assert u.amounts[k] == a;
          SumWhereMissing(init, k, w);
        }
      }
    }
  }

  /** Helper: a category that never occurs sums to zero. */
  lemma {:induction false} SumWhereMissing(ps: seq<Product>, k: string, w: Weight)
    requires k !in Categories(ps)
    ensures SumWhere(ps, k, w) == 0
    decreases |ps|
  {
    if ps != [] {
      var init := ps[..|ps| - 1];
      assert forall p :: p in init ==> p in ps;
      assert ps[|ps| - 1] in ps;
      SumWhereMissing(init, k, w);
    }
  }

  /** `Object.entries(acc)`: the pairs in key order. */
  function Entries(t: Tally): (es: seq<Entry>)
    requires Wellformed(t)
    ensures |es| == |t.order|
    ensures forall i :: 0 <= i < |es| ==> es[i].name == t.order[i] && es[i].value == t.amounts[t.order[i]]
  {
    EntriesOf(t.order, t.amounts)
  }

  /** The pairs of the listed keys, in the order given. */
  function EntriesOf(order: seq<string>, amounts: map<string, int>): (es: seq<Entry>)
    requires forall k :: k in order ==> k in amounts
    ensures |es| == |order|
    ensures forall i :: 0 <= i < |es| ==> es[i] == Entry(order[i], amounts[order[i]])
  {
    seq(|order|, i requires 0 <= i < |order| => Entry(order[i], amounts[order[i]]))
  }

  // ---------------------------------------------------------------------
  // The entries' values add up to the sum over all products.

  function SumEntries(es: seq<Entry>): int
    decreases |es|
  {
    if es == [] then 0 else SumEntries(es[..|es| - 1]) + es[|es| - 1].value
  }

  function SumKeys(order: seq<string>, amounts: map<string, int>): int
    requires forall k :: k in order ==> k in amounts
    decreases |order|
  {
    if order == [] then 0
    else SumKeys(order[..|order| - 1], amounts) + amounts[order[|order| - 1]]
  }

  lemma {:induction false} SumKeysUpdate(order: seq<string>, amounts: map<string, int>, key: string, amount: int)
    requires forall k :: k in order ==> k in amounts
    requires forall i, j :: 0 <= i < j < |order| ==> order[i] != order[j]
    requires key in amounts
    ensures SumKeys(order, amounts[key := amounts[key] + amount])
         == SumKeys(order, amounts) + (if key in order then amount else 0)
    decreases |order|
  {
    if order != [] {
      var init := order[..|order| - 1];
      assert forall k :: k in init ==> k in order;
      SumKeysUpdate(init, amounts, key, amount);
      if order[|order| - 1] == key {
        forall i | 0 <= i < |init|
          ensures init[i] != key
        {
          assert init[i] == order[i];
        }
      }
    }
  }

  lemma {:induction false} SumKeysFresh(order: seq<string>, amounts: map<string, int>, key: string, amount: int)
    requires forall k :: k in order ==> k in amounts
    requires key !in order
    ensures SumKeys(order, amounts[key := amount]) == SumKeys(order, amounts)
    decreases |order|
  {
    if order != [] {
      var init := order[..|order| - 1];
      assert forall k :: k in init ==> k in order;
      SumKeysFresh(init, amounts, key, amount);
    }
  }

  lemma {:induction false} SumEntriesOfKeys(order: seq<string>, amounts: map<string, int>)
    requires forall k :: k in order ==> k in amounts
    ensures SumEntries(EntriesOf(order, amounts)) == SumKeys(order, amounts)
    decreases |order|
  {
    if order != [] {
      var init := order[..|order| - 1];
      assert forall k :: k in init ==> k in order;
      var es := EntriesOf(order, amounts);
      assert es[..|init|] == EntriesOf(init, amounts);
      SumEntriesOfKeys(init, amounts);
    }
  }

  /**
   * The per-category totals add up to the total over all products: the
   * value chart and the category counts lose nothing (cents are exact).
   */
  lemma {:induction false} TallyPreservesSum(ps: seq<Product>, w: Weight)
    ensures Wellformed(Tallied(ps, w))
    ensures SumEntries(Entries(Tallied(ps, w))) == Sum(ps, w)
    decreases |ps|
  {
    TalliedCorrect(ps, w);
    SumEntriesOfKeys(Tallied(ps, w).order, Tallied(ps, w).amounts);
    TallySumKeys(ps, w);
  }

  /** One step of the `reduce` keeps the accumulator well formed and adds its amount to the total. */
  lemma BumpSumKeys(t: Tally, key: string, amount: int)
    requires Wellformed(t)
    ensures Wellformed(Bump(t, key, amount))
    ensures SumKeys(Bump(t, key, amount).order, Bump(t, key, amount).amounts) == SumKeys(t.order, t.amounts) + amount
  {
    if key in t.amounts {
      BumpExisting(t, key, amount);
    } else {
      BumpFresh(t, key, amount);
    }
  }

  /** Helper: a key seen before keeps its place and gains the amount. */
  lemma BumpExisting(t: Tally, key: string, amount: int)
    requires Wellformed(t) && key in t.amounts
    ensures Wellformed(Bump(t, key, amount))
    ensures SumKeys(Bump(t, key, amount).order, Bump(t, key, amount).amounts) == SumKeys(t.order, t.amounts) + amount
  {
    assert key in t.order;
    assert Bump(t, key, amount) == Tally(t.order, t.amounts[key := t.amounts[key] + amount]);
    SumKeysUpdate(t.order, t.amounts, key, amount);
  }

  /** Helper: a key seen for the first time goes to the end of the order. */
  lemma BumpFresh(t: Tally, key: string, amount: int)
    requires Wellformed(t) && key !in t.amounts
    ensures Wellformed(Bump(t, key, amount))
    ensures SumKeys(Bump(t, key, amount).order, Bump(t, key, amount).amounts) == SumKeys(t.order, t.amounts) + amount
  {
    var order := t.order + [key];
    var amounts := t.amounts[key := amount];
    assert Bump(t, key, amount) == Tally(order, amounts);
    assert order[..|t.order|] == t.order;
    assert key !in t.order;
    forall i, j | 0 <= i < j < |order|
      ensures order[i] != order[j]
    {
      if j == |t.order| {
        assert order[i] == t.order[i] && t.order[i] in t.order;
      } else {
        assert order[i] == t.order[i] && order[j] == t.order[j];
      }
    }
    SumKeysFresh(t.order, t.amounts, key, amount);
    assert SumKeys(order, amounts) == SumKeys(t.order, amounts) + amounts[key];
  }

  lemma {:induction false} TallySumKeys(ps: seq<Product>, w: Weight)
    ensures Wellformed(Tallied(ps, w))
    ensures SumKeys(Tallied(ps, w).order, Tallied(ps, w).amounts) == Sum(ps, w)
    decreases |ps|
  {
    if ps != [] {
      var init := ps[..|ps| - 1];
      var last := ps[|ps| - 1];
      TallySumKeys(init, w);
      BumpSumKeys(Tallied(init, w), last.category, Weigh(w, last));
    }
  }

  // ---------------------------------------------------------------------
  // Array.prototype.sort with `(a, b) => key(b) - key(a)`: a stable sort,
  // largest first; then `slice(0, n)`.

  ghost predicate SortedDesc<T>(xs: seq<T>, key: T -> int) {
    forall i, j :: 0 <= i < j < |xs| ==> key(xs[i]) >= key(xs[j])
  }

  /**
   * Puts `x` before the first element whose key is not larger than its own,
   * so that of two elements with equal keys the earlier one stays first.
   */
  function InsertDesc<T>(x: T, xs: seq<T>, key: T -> int): (r: seq<T>)
    ensures |r| == |xs| + 1
    ensures multiset(r) == multiset(xs) + multiset{x}
    decreases |xs|
  {
    if xs == [] || key(x) >= key(xs[0]) then [x] + xs
    else
      assert xs == [xs[0]] + xs[1..];
      [xs[0]] + InsertDesc(x, xs[1..], key)
  }

  lemma {:induction false} InsertDescSorted<T>(x: T, xs: seq<T>, key: T -> int)
    requires SortedDesc(xs, key)
    ensures SortedDesc(InsertDesc(x, xs, key), key)
    decreases |xs|
  {
    if xs == [] {
    } else if key(x) >= key(xs[0]) {
      assert forall m :: 0 <= m < |xs| ==> key(xs[m]) <= key(x);
      ConsSorted(x, xs, key);
    } else {
      var tail := xs[1..];
      assert forall m :: 0 <= m < |tail| ==> tail[m] == xs[m + 1];
      assert SortedDesc(tail, key);
      InsertDescSorted(x, tail, key);
      assert forall m :: 0 <= m < |tail| ==> key(tail[m]) <= key(xs[0]);
      InsertDescBounded(x, tail, key, key(xs[0]));
      ConsSorted(xs[0], InsertDesc(x, tail, key), key);
    }
  }

  /** Helper: a head at least as large as every element keeps a descending list descending. */
  lemma ConsSorted<T>(h: T, xs: seq<T>, key: T -> int)
    requires SortedDesc(xs, key)
    requires forall m :: 0 <= m < |xs| ==> key(xs[m]) <= key(h)
    ensures SortedDesc([h] + xs, key)
  {
    var r := [h] + xs;
    forall i, j | 0 <= i < j < |r|
      ensures key(r[i]) >= key(r[j])
    {
      assert r[j] == xs[j - 1];
      if i > 0 {
        assert r[i] == xs[i - 1];
      }
    }
  }

  /** Helper: inserting below a bound stays below it. */
  lemma InsertDescBounded<T>(x: T, xs: seq<T>, key: T -> int, bound: int)
    requires key(x) <= bound
    requires forall m :: 0 <= m < |xs| ==> key(xs[m]) <= bound
    ensures forall k :: 0 <= k < |InsertDesc(x, xs, key)| ==> key(InsertDesc(x, xs, key)[k]) <= bound
  {
    var r := InsertDesc(x, xs, key);
    forall k | 0 <= k < |r|
      ensures key(r[k]) <= bound
    {
      assert r[k] in multiset(r);
      if r[k] != x {
        assert r[k] in multiset(xs);
        var m :| 0 <= m < |xs| && xs[m] == r[k];
      }
    }
  }

  /** The comparator sort: a permutation of the input, largest key first. */
  function SortDesc<T>(xs: seq<T>, key: T -> int): (r: seq<T>)
    ensures |r| == |xs|
    ensures multiset(r) == multiset(xs)
    ensures SortedDesc(r, key)
    decreases |xs|
  {
    if xs == [] then []
    else
      assert xs == [xs[0]] + xs[1..];
      var sorted := SortDesc(xs[1..], key);
      InsertDescSorted(xs[0], sorted, key);
      InsertDesc(xs[0], sorted, key)
  }

  /** `xs.slice(0, n)`. */
  function Take<T>(xs: seq<T>, n: nat): (r: seq<T>)
    ensures |r| == if |xs| < n then |xs| else n
    ensures r == xs[..|r|]
  {
    if |xs| < n then xs else xs[..n]
  }

  predicate NoDuplicates<T(==)>(xs: seq<T>) {
    forall i, j :: 0 <= i < j < |xs| ==> xs[i] != xs[j]
  }

  lemma {:induction false} NoDuplicatesCount<T>(xs: seq<T>, x: T)
    requires NoDuplicates(xs)
    ensures multiset(xs)[x] <= 1
    decreases |xs|
  {
    if xs != [] {
      assert xs == [xs[0]] + xs[1..];
      assert xs[0] !in xs[1..] by {
        forall k | 0 <= k < |xs[1..]|
          ensures xs[1..][k] != xs[0]
        {
          assert xs[1..][k] == xs[k + 1];
        }
      }
      NoDuplicatesCount(xs[1..], x);
    }
  }

  lemma {:induction false} CountNoDuplicates<T>(xs: seq<T>)
    requires forall x :: multiset(xs)[x] <= 1
    ensures NoDuplicates(xs)
    decreases |xs|
  {
    if xs != [] {
      assert xs == [xs[0]] + xs[1..];
      assert multiset(xs) == multiset{xs[0]} + multiset(xs[1..]);
      assert forall x :: multiset(xs[1..])[x] <= multiset(xs)[x];
      CountNoDuplicates(xs[1..]);
      assert xs[0] !in multiset(xs[1..]);
      forall i, j | 0 <= i < j < |xs|
        ensures xs[i] != xs[j]
      {
        assert xs[j] == xs[1..][j - 1];
        if i > 0 {
          assert xs[i] == xs[1..][i - 1];
        }
      }
    }
  }

  /** A rearrangement of a list without duplicates has none either. */
  lemma PermutationNoDuplicates<T>(xs: seq<T>, ys: seq<T>)
    requires multiset(xs) == multiset(ys) && NoDuplicates(xs)
    ensures NoDuplicates(ys)
  {
    forall x
      ensures multiset(ys)[x] <= 1
    {
      NoDuplicatesCount(xs, x);
    }
    CountNoDuplicates(ys);
  }

  /** The take of a list without duplicates has none either. */
  lemma TakeNoDuplicates<T>(xs: seq<T>, n: nat)
    requires NoDuplicates(xs)
    ensures NoDuplicates(Take(xs, n))
  {
  }

  /**
   * `xs.sort((a, b) => key(b) - key(a)).slice(0, n)`: as many elements as
   * fit, largest key first, each one of the inputs, none repeated that was
   * not repeated, and no element left out with a larger key than one kept.
   */
  function Top<T(==)>(xs: seq<T>, key: T -> int, n: nat): (r: seq<T>)
    ensures |r| == if |xs| < n then |xs| else n
    ensures SortedDesc(r, key)
    ensures forall i :: 0 <= i < |r| ==> r[i] in xs
    ensures NoDuplicates(xs) ==> NoDuplicates(r)
  {
    SortTakeFacts(xs, key, n);
    Take(SortDesc(xs, key), n)
  }

  /** Helper: a prefix of the sorted list is sorted and holds only elements of the input. */
  lemma SortTakeFacts<T>(xs: seq<T>, key: T -> int, n: nat)
    ensures SortedDesc(Take(SortDesc(xs, key), n), key)
    ensures forall i :: 0 <= i < |Take(SortDesc(xs, key), n)| ==> Take(SortDesc(xs, key), n)[i] in xs
    ensures NoDuplicates(xs) ==> NoDuplicates(Take(SortDesc(xs, key), n))
  {
    var s := SortDesc(xs, key);
    var r := Take(s, n);
    forall i | 0 <= i < |r|
      ensures r[i] in xs
    {
      assert r[i] == s[i];
      assert s[i] in multiset(s);
    }
    forall i, j | 0 <= i < j < |r|
      ensures key(r[i]) >= key(r[j])
    {
      assert r[i] == s[i] && r[j] == s[j];
    }
    SortTakeNoDuplicates(xs, key, n);
  }

  lemma SortTakeNoDuplicates<T>(xs: seq<T>, key: T -> int, n: nat)
    ensures NoDuplicates(xs) ==> NoDuplicates(Take(SortDesc(xs, key), n))
  {
    if NoDuplicates(xs) {
      PermutationNoDuplicates(xs, SortDesc(xs, key));
      TakeNoDuplicates(SortDesc(xs, key), n);
    }
  }

  lemma TopKeepsLargest<T>(xs: seq<T>, key: T -> int, n: nat, x: T, y: T)
    requires x in Top(xs, key, n) && y in xs && y !in Top(xs, key, n)
    ensures key(y) <= key(x)
  {
    var s := SortDesc(xs, key);
    var top := Top(xs, key, n);
    assert top == s[..|top|];
    assert y in multiset(s);
    var i :| 0 <= i < |top| && top[i] == x;
    var j :| 0 <= j < |s| && s[j] == y;
    assert j >= |top|;
  }

  function EntryValue(e: Entry): int {
    e.value
  }

  /** The number of distinct elements of a list without duplicates is its length. */
  lemma {:induction false} NoDuplicatesCardinality<T>(xs: seq<T>)
    requires NoDuplicates(xs)
    ensures |set x | x in xs| == |xs|
    decreases |xs|
  {
    if xs != [] {
      var tail := xs[1..];
      assert NoDuplicates(tail) by {
        forall i, j | 0 <= i < j < |tail|
          ensures tail[i] != tail[j]
        {
          assert tail[i] == xs[i + 1] && tail[j] == xs[j + 1];
        }
      }
      NoDuplicatesCardinality(tail);
      assert xs[0] !in tail by {
        forall k | 0 <= k < |tail|
          ensures tail[k] != xs[0]
        {
          assert tail[k] == xs[k + 1];
        }
      }
      assert (set x | x in xs) == (set x | x in tail) + {xs[0]};
    }
  }

  /**
   * `Object.entries` of the finished accumulator: one entry per category
   * that occurs, none twice, each holding that category's total.
   */
  lemma EntriesOfTally(ps: seq<Product>, w: Weight)
    ensures Wellformed(Tallied(ps, w))
    ensures |Entries(Tallied(ps, w))| == |Categories(ps)|
    ensures forall i :: 0 <= i < |Entries(Tallied(ps, w))| ==>
      Entries(Tallied(ps, w))[i].name in Categories(ps)
      && Entries(Tallied(ps, w))[i].value == SumWhere(ps, Entries(Tallied(ps, w))[i].name, w)
    ensures forall c :: c in Categories(ps) ==> Entry(c, SumWhere(ps, c, w)) in Entries(Tallied(ps, w))
    ensures forall i, j :: 0 <= i < j < |Entries(Tallied(ps, w))| ==>
      Entries(Tallied(ps, w))[i].name != Entries(Tallied(ps, w))[j].name
  {
    TalliedCorrect(ps, w);
    OrderCardinality(ps, w);
    EntryPerCategory(ps, w);
  }

  /** Helper: the accumulator lists as many keys as there are categories. */
  lemma OrderCardinality(ps: seq<Product>, w: Weight)
    ensures |Tallied(ps, w).order| == |Categories(ps)|
  {
    TalliedCorrect(ps, w);
    var t := Tallied(ps, w);
    NoDuplicatesCardinality(t.order);
    assert (set x | x in t.order) == Categories(ps);
  }

  /** Helper: every category that occurs has its entry, with its total. */
  lemma EntryPerCategory(ps: seq<Product>, w: Weight)
    ensures Wellformed(Tallied(ps, w))
    ensures forall c :: c in Categories(ps) ==> Entry(c, SumWhere(ps, c, w)) in Entries(Tallied(ps, w))
  {
    TalliedCorrect(ps, w);
    var t := Tallied(ps, w);
    var es := Entries(t);
    forall c | c in Categories(ps)
      ensures Entry(c, SumWhere(ps, c, w)) in es
    {
      assert c in t.order;
      var i :| 0 <= i < |t.order| && t.order[i] == c;
      assert es[i] == Entry(c, SumWhere(ps, c, w));
    }
  }
}
