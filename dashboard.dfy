/**
 * `src/components/Dashboard.tsx`: the figures at the top of the dashboard,
 * the low-stock alert, the search over names and categories, and what the
 * product area shows for the user's role.
 */
module Dashboard {
  import opened Wrappers
  import opened Text
  import opened Inventory
  import opened Tally
  import AuthContext

  /** The four figures of the stats cards; `totalValue` in cents. */
  datatype Stats = Stats(totalProducts: int, lowStock: seq<Product>, outOfStock: seq<Product>, totalValue: int)

  /** `lowStockProducts`: at or below the threshold, empty shelves included. */
  function LowStockProducts(ps: seq<Product>): seq<Product> {
    Filter(ps, AtOrBelowThreshold)
  }

  function StatsOf(ps: seq<Product>): (s: Stats)
    ensures s.totalProducts == |ps| && s.totalValue == Sum(ps, Worth)
  {
    Stats(|ps|, LowStockProducts(ps), Filter(ps, IsOut), Sum(ps, Worth))
  }

  /**
   * With non-negative thresholds, every out-of-stock product is also
   * counted as low on stock.
   */
  lemma OutOfStockIsLowStock(ps: seq<Product>)
    requires forall p :: p in ps ==> p.threshold >= 0
    ensures forall p :: p in StatsOf(ps).outOfStock ==> p in StatsOf(ps).lowStock
    ensures |StatsOf(ps).outOfStock| <= |StatsOf(ps).lowStock|
  {
    OutOfStockWithinThreshold(ps);
  }

  /**
   * With non-negative quantities as well, the dashboard's low count is
   * the strictly-low count plus the out-of-stock count.
   */
  lemma LowStockCountSplits(ps: seq<Product>)
    requires forall p :: p in ps ==> p.threshold >= 0 && p.quantity >= 0
    ensures |StatsOf(ps).lowStock| == |Filter(ps, IsStrictlyLow)| + |StatsOf(ps).outOfStock|
  {
    AtOrBelowThresholdSplits(ps);
  }

  /** With non-negative quantities and prices, the total value is not negative. */
  lemma TotalValueNonNegative(ps: seq<Product>)
    requires forall p :: p in ps ==> p.quantity >= 0 && p.price >= 0
    ensures StatsOf(ps).totalValue >= 0
  {
    SumNonNegative(ps, Worth);
  }

  /** `` `$${totalValue.toFixed(2)}` `` */
  function TotalValueText(ps: seq<Product>): (r: string)
    ensures |r| >= 5 && r[0] == '$' && ParseCents(r[1..]) == Some(Sum(ps, Worth))
  {
    FormatCentsRoundTrip(Sum(ps, Worth));
    "$" + FormatCents(Sum(ps, Worth))
  }

  // ---------------------------------------------------------------------
  // The low-stock alert

  /** The card appears when some product is low, and lists the first five. */
  function Alert(ps: seq<Product>): (r: Option<seq<Product>>)
    ensures r.None? <==> forall p :: p in ps ==> !AtOrBelowThreshold(p)
    ensures r.Some? ==> |r.value| == if |LowStockProducts(ps)| < 5 then |LowStockProducts(ps)| else 5
    ensures r.Some? ==> r.value == LowStockProducts(ps)[..|r.value|]
    ensures r.Some? ==> forall i :: 0 <= i < |r.value| ==> AtOrBelowThreshold(r.value[i])
  {
    var low := LowStockProducts(ps);
    if |low| > 0 then Some(Take(low, 5))
    else
      assert forall i :: 0 <= i < |ps| ==> !AtOrBelowThreshold(ps[i]);
      None
  }

  // ---------------------------------------------------------------------
  // Search

  /** `name.toLowerCase().includes(q.toLowerCase()) || category.toLowerCase().includes(q.toLowerCase())` */
  predicate Matches(p: Product, query: string) {
    Contains(Lower(p.name), Lower(query)) || Contains(Lower(p.category), Lower(query))
  }

  /** `filteredProducts` */
  function FilteredProducts(ps: seq<Product>, query: string): (r: seq<Product>)
    ensures SubsequenceOf(r, ps)
    ensures forall p :: p in r <==> p in ps && Matches(p, query)
    ensures forall p :: multiset(r)[p] == if Matches(p, query) then multiset(ps)[p] else 0
  {
    var r := Filter(ps, p => Matches(p, query));
    FilterMultiset(ps, p => Matches(p, query));
    assert forall p :: p in r ==> exists i :: 0 <= i < |r| && r[i] == p;
    assert forall p :: p in ps ==> exists i :: 0 <= i < |ps| && ps[i] == p;
    r
  }

  /** A product matches exactly when the lowered query occurs in its lowered name or category. */
  lemma MatchesIffOccurs(p: Product, query: string)
    ensures Matches(p, query) <==>
      (exists i :: OccursAt(Lower(p.name), Lower(query), i)) || (exists i :: OccursAt(Lower(p.category), Lower(query), i))
  {
    ContainsAt(Lower(p.name), Lower(query));
    ContainsAt(Lower(p.category), Lower(query));
  }

  /** An empty search keeps every product, in order. */
  lemma EmptyQueryKeepsAll(ps: seq<Product>)
    ensures FilteredProducts(ps, "") == ps
  {
    forall p | p in ps
      ensures Matches(p, "")
    {
      assert Lower("") == "";
      ContainsEmpty(Lower(p.name));
    }
    FilterAll(ps, p => Matches(p, ""));
  }

  /** Searching is blind to case: the query and its upper-case form select the same products. */
  lemma SearchIgnoresCase(ps: seq<Product>, query: string)
    ensures FilteredProducts(ps, Upper(query)) == FilteredProducts(ps, query)
    ensures FilteredProducts(ps, Lower(query)) == FilteredProducts(ps, query)
  {
    LowerOfUpper(query);
    LowerOfLower(query);
    FilterCongruent(ps, p => Matches(p, Upper(query)), p => Matches(p, query));
    FilterCongruent(ps, p => Matches(p, Lower(query)), p => Matches(p, query));
  }

  /** Searching the search result again with the same query changes nothing. */
  lemma SearchIdempotent(ps: seq<Product>, query: string)
    ensures FilteredProducts(FilteredProducts(ps, query), query) == FilteredProducts(ps, query)
  {
    FilterIdempotent(ps, p => Matches(p, query));
  }

  // ---------------------------------------------------------------------
  // The product area

  datatype EmptyNotice = NoProductsFound(query: string) | NoProducts

  /** What the product area shows besides the table. */
  datatype ProductArea = ProductArea(
    tableProducts: seq<Product>,
    showAddButton: bool,
    tableIsAdmin: bool,
    notice: Option<EmptyNotice>)

  function Area(ps: seq<Product>, query: string, loading: bool, role: Option<AuthContext.Role>): (r: ProductArea)
    ensures r.showAddButton == r.tableIsAdmin == (role == Some(AuthContext.Admin))
    ensures r.tableProducts == FilteredProducts(ps, query)
    ensures r.notice.Some? <==> !loading && forall p :: p in ps ==> !Matches(p, query)
    ensures r.notice.Some? ==> r.notice.value == (if query == "" then NoProducts else NoProductsFound(query))
  {
    var canModify := AuthContext.PermissionsOf(role).canModify;
    var shown := FilteredProducts(ps, query);
    var notice :=
      if |shown| == 0 && !loading then Some(if query != "" then NoProductsFound(query) else NoProducts)
      else None;
    if shown != [] then assert shown[0] in shown; ProductArea(shown, canModify, canModify, notice)
    else ProductArea(shown, canModify, canModify, notice)
  }
}
