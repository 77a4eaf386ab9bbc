/**
 * The product record shared by every screen, the three-way stock status
 * with its priority order, and the sums and selections the screens compute
 * over a product list. Prices are whole cents, so `quantity * price` and the
 * two-decimal renderings of the source are exact.
 */
module Inventory {

  /** A row of the `products` table; `price` in cents. */
  datatype Product = Product(
    id: string,
    name: string,
    category: string,
    quantity: int,
    price: int,
    threshold: int)

  datatype StockStatus = OutOfStock | LowStock | InStock

  /**
   * The stock status rule: an empty shelf first, then at or below the
   * low-stock threshold, otherwise in stock. Each screen that shows a status
   * restates this chain; their models are proved equal to it.
   */
  function Classify(p: Product): (s: StockStatus)
    ensures s == OutOfStock <==> IsOut(p)
    ensures s == LowStock <==> !IsOut(p) && AtOrBelowThreshold(p)
    ensures s == InStock <==> !IsOut(p) && AboveThreshold(p)
  {
    if p.quantity == 0 then OutOfStock
    else if p.quantity <= p.threshold then LowStock
    else InStock
  }

  /** The three looks of a stock badge: red, amber and green. */
  datatype Badge = Destructive | Warning | Success

  // The four selections the screens filter by.

  /** `p.quantity === 0` */
  predicate IsOut(p: Product) {
    p.quantity == 0
  }

  /** `p.quantity <= p.low_stock_threshold`, a selection that includes empty shelves. */
  predicate AtOrBelowThreshold(p: Product) {
    p.quantity <= p.threshold
  }

  /** `p.quantity > 0 && p.quantity <= p.low_stock_threshold`, a selection that excludes them. */
  predicate IsStrictlyLow(p: Product) {
    p.quantity > 0 && p.quantity <= p.threshold
  }

  /** `p.quantity > p.low_stock_threshold` */
  predicate AboveThreshold(p: Product) {
    p.quantity > p.threshold
  }

  /** `p.quantity * Number(p.price)`, in cents. */
  function Value(p: Product): int {
    p.quantity * p.price
  }

  // ---------------------------------------------------------------------
  // Sums

  /** What a `reduce` over the products adds up per product. */
  datatype Weight = Units | Worth | Each

  function Weigh(w: Weight, p: Product): int {
    match w
    case Units => p.quantity
    case Worth => Value(p)
    case Each => 1
  }

  /** `products.reduce((sum, p) => sum + weight(p), 0)`, folded from the left. */
  function Sum(ps: seq<Product>, w: Weight): int
    decreases |ps|
  {
    if ps == [] then 0 else Sum(ps[..|ps| - 1], w) + Weigh(w, ps[|ps| - 1])
  }

  lemma {:induction false} SumOfEach(ps: seq<Product>)
    ensures Sum(ps, Each) == |ps|
    decreases |ps|
  {
    if ps != [] {
      SumOfEach(ps[..|ps| - 1]);
    }
  }

  lemma {:induction false} SumNonNegative(ps: seq<Product>, w: Weight)
    requires forall p :: p in ps ==> Weigh(w, p) >= 0
    ensures Sum(ps, w) >= 0
    decreases |ps|
  {
    if ps != [] {
      assert ps[|ps| - 1] in ps;
      SumNonNegative(ps[..|ps| - 1], w);
    }
  }

  // ---------------------------------------------------------------------
  // Array.prototype.filter

  /** `a` is `b` with some elements left out, the rest in their order. */
  ghost predicate SubsequenceOf<T>(a: seq<T>, b: seq<T>)
    decreases |b|
  {
    a == [] || (b != [] && ((a[0] == b[0] && SubsequenceOf(a[1..], b[1..])) || SubsequenceOf(a, b[1..])))
  }

  /** `xs.filter(keep)`. */
  function Filter<T>(xs: seq<T>, keep: T -> bool): (r: seq<T>)
    ensures |r| <= |xs|
    ensures forall i :: 0 <= i < |r| ==> r[i] in xs && keep(r[i])
    ensures forall i :: 0 <= i < |xs| && keep(xs[i]) ==> xs[i] in r
    ensures SubsequenceOf(r, xs)
    decreases |xs|
  {
    if xs == [] then []
    else if keep(xs[0]) then [xs[0]] + Filter(xs[1..], keep)
    else Filter(xs[1..], keep)
  }

  /**
   * A filter keeps every occurrence of a passing element and none of a
   * failing one.
   */
  lemma {:induction false} FilterMultiset<T>(xs: seq<T>, keep: T -> bool)
    ensures forall x :: multiset(Filter(xs, keep))[x] == if keep(x) then multiset(xs)[x] else 0
    decreases |xs|
  {
    if xs != [] {
      FilterMultiset(xs[1..], keep);
      assert xs == [xs[0]] + xs[1..];
      assert multiset(xs) == multiset{xs[0]} + multiset(xs[1..]);
    }
  }

  /** A filter whose test holds of every element keeps everything. */
  lemma {:induction false} FilterAll<T>(xs: seq<T>, keep: T -> bool)
    requires forall x :: x in xs ==> keep(x)
    ensures Filter(xs, keep) == xs
    decreases |xs|
  {
    if xs != [] {
      FilterAll(xs[1..], keep);
    }
  }

  /** Two tests that agree on every element select the same elements. */
  lemma {:induction false} FilterCongruent<T>(xs: seq<T>, f: T -> bool, g: T -> bool)
    requires forall x :: x in xs ==> f(x) == g(x)
    ensures Filter(xs, f) == Filter(xs, g)
    decreases |xs|
  {
    if xs != [] {
      FilterCongruent(xs[1..], f, g);
    }
  }

  /** Filtering a second time with the same test changes nothing. */
  lemma FilterIdempotent<T>(xs: seq<T>, keep: T -> bool)
    ensures Filter(Filter(xs, keep), keep) == Filter(xs, keep)
  {
    FilterAll(Filter(xs, keep), keep);
  }

  /** A test that holds wherever another does selects at least as many elements. */
  lemma {:induction false} FilterMonotone<T>(xs: seq<T>, f: T -> bool, g: T -> bool)
    requires forall x :: x in xs ==> f(x) ==> g(x)
    ensures |Filter(xs, f)| <= |Filter(xs, g)|
    decreases |xs|
  {
    if xs != [] {
      assert xs[0] in xs;
      assert forall x :: x in xs[1..] ==> x in xs;
      FilterMonotone(xs[1..], f, g);
    }
  }

  /** Two tests that never hold together split a list into disjoint selections whose sizes add up. */
  lemma {:induction false} FilterSplit<T>(xs: seq<T>, f: T -> bool, g: T -> bool)
    requires forall x :: x in xs ==> !(f(x) && g(x))
    ensures |Filter(xs, f)| + |Filter(xs, g)| == |Filter(xs, x => f(x) || g(x))|
    decreases |xs|
  {
    if xs != [] {
      FilterSplit(xs[1..], f, g);
    }
  }

  // ---------------------------------------------------------------------
  // The three statuses split any list with non-negative quantities

  /**
   * On a shelf that is not empty, or on any stocked one, the status rule
   * calls a product low exactly when the "strictly low" filter keeps it;
   * the two differ only on a negative quantity, which the rule calls low
   * and the filter drops.
   */
  lemma ClassifyLowIsStrictlyLow(p: Product)
    ensures p.quantity >= 0 ==> (Classify(p) == LowStock <==> IsStrictlyLow(p))
    ensures p.quantity < 0 && p.quantity <= p.threshold ==> Classify(p) == LowStock && !IsStrictlyLow(p)
  {
  }

  /**
   * With a non-negative quantity and threshold, as the product form
   * requires, every product is in exactly one of the in-stock, low and
   * out-of-stock selections. (A zero quantity under a negative threshold
   * would be both "in stock" and "out of stock".)
   */
  lemma StatusExclusive(p: Product)
    requires p.threshold >= 0 && p.quantity >= 0
    ensures AboveThreshold(p) ==> !IsStrictlyLow(p) && !IsOut(p)
    ensures IsStrictlyLow(p) ==> !IsOut(p)
    ensures AboveThreshold(p) || IsStrictlyLow(p) || IsOut(p)
  {
  }

  /**
   * A negative quantity under a non-negative threshold is in none of the
   * three selections, so the status chart and the summary leave it out.
   */
  lemma NegativeQuantityUnselected(p: Product)
    requires p.threshold >= 0 && p.quantity < 0
    ensures !AboveThreshold(p) && !IsStrictlyLow(p) && !IsOut(p)
  {
  }

  /** So the sizes of the three selections add up to the size of the list. */
  lemma {:induction false} StatusPartition(ps: seq<Product>)
    requires forall p :: p in ps ==> p.threshold >= 0 && p.quantity >= 0
    ensures |Filter(ps, AboveThreshold)| + |Filter(ps, IsStrictlyLow)| + |Filter(ps, IsOut)| == |ps|
    decreases |ps|
  {
    if ps != [] {
      var p := ps[0];
      assert p in ps;
      StatusExclusive(p);
      assert forall q :: q in ps[1..] ==> q in ps;
      StatusPartition(ps[1..]);
    }
  }

  /**
   * Every empty shelf is also in the "at or below threshold" selection,
   * provided thresholds are non-negative as the product form requires.
   */
  lemma OutOfStockWithinThreshold(ps: seq<Product>)
    requires forall p :: p in ps ==> p.threshold >= 0
    ensures forall p :: p in Filter(ps, IsOut) ==> p in Filter(ps, AtOrBelowThreshold)
    ensures |Filter(ps, IsOut)| <= |Filter(ps, AtOrBelowThreshold)|
  {
    forall p | p in Filter(ps, IsOut)
      ensures p in Filter(ps, AtOrBelowThreshold)
    {
      var i :| 0 <= i < |Filter(ps, IsOut)| && Filter(ps, IsOut)[i] == p;
      var j :| 0 <= j < |ps| && ps[j] == p;
    }
    FilterMonotone(ps, IsOut, AtOrBelowThreshold);
  }

  /**
   * With non-negative quantities and thresholds, the "at or below
   * threshold" selection is the strictly-low one plus the empty shelves.
   */
  lemma {:induction false} AtOrBelowThresholdSplits(ps: seq<Product>)
    requires forall p :: p in ps ==> p.threshold >= 0 && p.quantity >= 0
    ensures |Filter(ps, AtOrBelowThreshold)| == |Filter(ps, IsStrictlyLow)| + |Filter(ps, IsOut)|
    decreases |ps|
  {
    if ps != [] {
      assert ps[0] in ps;
      assert forall q :: q in ps[1..] ==> q in ps;
      AtOrBelowThresholdSplits(ps[1..]);
    }
  }
}
