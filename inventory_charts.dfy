/**
 * `src/components/InventoryCharts.tsx`: the three data series the charts
 * draw. Units per category (top eight), products per stock status (empty
 * statuses dropped), and stock value per category (top six, long names
 * shortened). Values are kept in cents, where rounding to two decimals
 * changes nothing.
 */
module InventoryCharts {
  import opened Wrappers
  import opened Locale
  import opened Inventory
  import opened Tally

  function Min(a: int, b: int): int {
    if a < b then a else b
  }

  /** Some entry of `data` is about category `c`. */
  predicate Named(data: seq<Entry>, c: string) {
    exists i :: 0 <= i < |data| && data[i].name == c
  }

  /**
   * `categoryData`: a category's units are the sum of its products'
   * quantities; at most eight categories, largest first, none twice, and
   * every category left out has no more units than any shown.
   */
  ghost predicate TopCategories(ps: seq<Product>, data: seq<Entry>) {
    && |data| == Min(8, |Categories(ps)|)
    && SortedDesc(data, EntryValue)
    && (forall i :: 0 <= i < |data| ==>
          data[i].name in Categories(ps) && data[i].value == SumWhere(ps, data[i].name, Units))
    && (forall i, j :: 0 <= i < j < |data| ==> data[i].name != data[j].name)
    && (forall c :: c in Categories(ps) && !Named(data, c) ==>
          forall i :: 0 <= i < |data| ==> SumWhere(ps, c, Units) <= data[i].value)
  }

  method CategoryData(ps: seq<Product>) returns (data: seq<Entry>)
    ensures TopCategories(ps, data)
  {
    var acc := Accumulate(ps, Units);
    EntriesOfTally(ps, Units);
    var es := Entries(acc);
    data := Top(es, EntryValue, 8);
    TopEntriesTotals(ps, Units, es, 8);
    TopEntriesDistinct(es, 8);
    TopEntriesLargest(ps, Units, es, 8);
  }

  /** Helper: the entries kept are entries of the tally, with their totals. */
  lemma TopEntriesTotals(ps: seq<Product>, w: Weight, es: seq<Entry>, n: nat)
    requires forall i :: 0 <= i < |es| ==> es[i].name in Categories(ps) && es[i].value == SumWhere(ps, es[i].name, w)
    ensures var data := Top(es, EntryValue, n);
      forall i :: 0 <= i < |data| ==> data[i].name in Categories(ps) && data[i].value == SumWhere(ps, data[i].name, w)
  {
    var data := Top(es, EntryValue, n);
    forall i | 0 <= i < |data|
      ensures data[i].name in Categories(ps) && data[i].value == SumWhere(ps, data[i].name, w)
    {
      var k :| 0 <= k < |es| && es[k] == data[i];
    }
  }

  /** Helper: entries with distinct names keep distinct names. */
  lemma TopEntriesDistinct(es: seq<Entry>, n: nat)
    requires forall i, j :: 0 <= i < j < |es| ==> es[i].name != es[j].name
    ensures var data := Top(es, EntryValue, n);
      forall i, j :: 0 <= i < j < |data| ==> data[i].name != data[j].name
  {
    assert NoDuplicates(es);
    var data := Top(es, EntryValue, n);
    forall i, j | 0 <= i < j < |data|
      ensures data[i].name != data[j].name
    {
      var k :| 0 <= k < |es| && es[k] == data[i];
      var l :| 0 <= l < |es| && es[l] == data[j];
    }
  }

  /** Helper: a category left out has no larger total than any kept. */
  lemma TopEntriesLargest(ps: seq<Product>, w: Weight, es: seq<Entry>, n: nat)
    requires forall c :: c in Categories(ps) ==> Entry(c, SumWhere(ps, c, w)) in es
    ensures var data := Top(es, EntryValue, n);
      forall c :: c in Categories(ps) && !Named(data, c) ==>
        forall i :: 0 <= i < |data| ==> SumWhere(ps, c, w) <= data[i].value
  {
    var data := Top(es, EntryValue, n);
    forall c, i | c in Categories(ps) && !Named(data, c) && 0 <= i < |data|
      ensures SumWhere(ps, c, w) <= data[i].value
    {
      var e := Entry(c, SumWhere(ps, c, w));
      assert forall k :: 0 <= k < |data| ==> data[k].name != c;
      assert e !in data;
      TopKeepsLargest(es, EntryValue, n, data[i], e);
    }
  }

  // ---------------------------------------------------------------------
  // Value by category

  /** A bar of the value chart: its label, the full category name and the value in cents. */
  datatype ValueBar = ValueBar(name: string, fullName: string, value: int)

  function BarValue(b: ValueBar): int {
    b.value
  }

  /** `name.length > 12 ? name.substring(0, 12) + "..." : name` */
  function Shorten(name: string): (r: string)
    ensures |name| <= 12 ==> r == name
    ensures |name| > 12 ==> |r| == 15 && r[..12] == name[..12] && r[12..] == "..."
  {
    if |name| > 12 then name[..12] + "..." else name
  }

  function ToBar(e: Entry): ValueBar {
    ValueBar(Shorten(e.name), e.name, e.value)
  }

  predicate Listed(bars: seq<ValueBar>, c: string) {
    exists i :: 0 <= i < |bars| && bars[i].fullName == c
  }

  /**
   * `valueByCategory`: a category's value is the sum of its products'
   * `quantity * price`; at most six bars, largest first, one per category,
   * labelled with the shortened name, and every category left out is worth
   * no more than any shown.
   */
  ghost predicate TopValueBars(ps: seq<Product>, bars: seq<ValueBar>) {
    && |bars| == Min(6, |Categories(ps)|)
    && SortedDesc(bars, BarValue)
    && (forall i :: 0 <= i < |bars| ==>
          && bars[i].fullName in Categories(ps)
          && bars[i].value == SumWhere(ps, bars[i].fullName, Worth)
          && bars[i].name == Shorten(bars[i].fullName))
    && (forall i, j :: 0 <= i < j < |bars| ==> bars[i].fullName != bars[j].fullName)
    && (forall c :: c in Categories(ps) && !Listed(bars, c) ==>
          forall i :: 0 <= i < |bars| ==> SumWhere(ps, c, Worth) <= bars[i].value)
  }

  method ValueByCategory(ps: seq<Product>) returns (bars: seq<ValueBar>)
    ensures TopValueBars(ps, bars)
  {
    var acc := Accumulate(ps, Worth);
    EntriesOfTally(ps, Worth);
    var es := Entries(acc);
    var all := seq(|es|, i requires 0 <= i < |es| => ToBar(es[i]));
    bars := Top(all, BarValue, 6);
    BarsOfEntries(ps, es, all);
    TopBarsTotals(ps, all, 6);
    TopBarsDistinct(all, 6);
    TopBarsLargest(ps, all, 6);
  }

  /** Helper: the bars made from the tally's entries carry its totals, one bar per category. */
  lemma BarsOfEntries(ps: seq<Product>, es: seq<Entry>, all: seq<ValueBar>)
    requires |all| == |es| && forall i :: 0 <= i < |es| ==> all[i] == ToBar(es[i])
    requires forall i :: 0 <= i < |es| ==> es[i].name in Categories(ps) && es[i].value == SumWhere(ps, es[i].name, Worth)
    requires forall c :: c in Categories(ps) ==> Entry(c, SumWhere(ps, c, Worth)) in es
    requires forall i, j :: 0 <= i < j < |es| ==> es[i].name != es[j].name
    ensures forall i :: 0 <= i < |all| ==>
      && all[i].fullName in Categories(ps)
      && all[i].value == SumWhere(ps, all[i].fullName, Worth)
      && all[i].name == Shorten(all[i].fullName)
    ensures forall i, j :: 0 <= i < j < |all| ==> all[i].fullName != all[j].fullName
    ensures forall c :: c in Categories(ps) ==> exists k :: 0 <= k < |all| && all[k].fullName == c
  {
    forall c | c in Categories(ps)
      ensures exists k :: 0 <= k < |all| && all[k].fullName == c
    {
      var k :| 0 <= k < |es| && es[k] == Entry(c, SumWhere(ps, c, Worth));
      assert all[k].fullName == c;
    }
  }

  /** Helper: the bars kept are bars of the tally, with their totals and labels. */
  lemma TopBarsTotals(ps: seq<Product>, all: seq<ValueBar>, n: nat)
    requires forall i :: 0 <= i < |all| ==>
      && all[i].fullName in Categories(ps)
      && all[i].value == SumWhere(ps, all[i].fullName, Worth)
      && all[i].name == Shorten(all[i].fullName)
    ensures var bars := Top(all, BarValue, n);
      forall i :: 0 <= i < |bars| ==>
        && bars[i].fullName in Categories(ps)
        && bars[i].value == SumWhere(ps, bars[i].fullName, Worth)
        && bars[i].name == Shorten(bars[i].fullName)
  {
    var bars := Top(all, BarValue, n);
    forall i | 0 <= i < |bars|
      ensures bars[i].fullName in Categories(ps) && bars[i].value == SumWhere(ps, bars[i].fullName, Worth)
      ensures bars[i].name == Shorten(bars[i].fullName)
    {
      var k :| 0 <= k < |all| && all[k] == bars[i];
    }
  }

  /** Helper: bars for distinct categories stay distinct. */
  lemma TopBarsDistinct(all: seq<ValueBar>, n: nat)
    requires forall i, j :: 0 <= i < j < |all| ==> all[i].fullName != all[j].fullName
    ensures var bars := Top(all, BarValue, n);
      forall i, j :: 0 <= i < j < |bars| ==> bars[i].fullName != bars[j].fullName
  {
    assert NoDuplicates(all);
    var bars := Top(all, BarValue, n);
    forall i, j | 0 <= i < j < |bars|
      ensures bars[i].fullName != bars[j].fullName
    {
      var k :| 0 <= k < |all| && all[k] == bars[i];
      var l :| 0 <= l < |all| && all[l] == bars[j];
    }
  }

  /** Helper: a category left out is worth no more than any kept. */
  lemma TopBarsLargest(ps: seq<Product>, all: seq<ValueBar>, n: nat)
    requires forall i :: 0 <= i < |all| ==> all[i].value == SumWhere(ps, all[i].fullName, Worth)
    requires forall c :: c in Categories(ps) ==> exists k :: 0 <= k < |all| && all[k].fullName == c
    ensures var bars := Top(all, BarValue, n);
      forall c :: c in Categories(ps) && !Listed(bars, c) ==>
        forall i :: 0 <= i < |bars| ==> SumWhere(ps, c, Worth) <= bars[i].value
  {
    var bars := Top(all, BarValue, n);
    forall c, i | c in Categories(ps) && !Listed(bars, c) && 0 <= i < |bars|
      ensures SumWhere(ps, c, Worth) <= bars[i].value
    {
      var k :| 0 <= k < |all| && all[k].fullName == c;
      assert forall m :: 0 <= m < |bars| ==> bars[m].fullName != c;
      assert all[k] !in bars;
      TopKeepsLargest(all, BarValue, n, bars[i], all[k]);
    }
  }

  // ---------------------------------------------------------------------
  // Stock status

  /** A slice of the status pie: its localised name and its number of products. */
  datatype Slice = Slice(name: string, value: int)

  function HasProducts(s: Slice): bool {
    s.value > 0
  }

  /** The three slices before the empty ones are dropped: in stock, low, out. */
  function StatusSlices(ps: seq<Product>, lang: Language): (r: seq<Slice>)
    ensures |r| == 3
    ensures r[0].name == (if lang == Ru then "В наличии" else "In Stock")
    ensures r[1].name == (if lang == Ru then "Мало" else "Low Stock")
    ensures r[2].name == (if lang == Ru then "Нет" else "Out of Stock")
    ensures r[0].value == |Filter(ps, AboveThreshold)|
    ensures r[1].value == |Filter(ps, IsStrictlyLow)|
    ensures r[2].value == |Filter(ps, IsOut)|
  {
    [ Slice(if lang == Ru then "В наличии" else "In Stock", |Filter(ps, AboveThreshold)|),
      Slice(if lang == Ru then "Мало" else "Low Stock", |Filter(ps, IsStrictlyLow)|),
      Slice(if lang == Ru then "Нет" else "Out of Stock", |Filter(ps, IsOut)|) ]
  }

  /** `stockStatusData`: the slices that hold at least one product, in order. */
  function StockStatusData(ps: seq<Product>, lang: Language): (r: seq<Slice>)
    ensures |r| <= 3
    ensures forall i :: 0 <= i < |r| ==> r[i].value > 0 && r[i] in StatusSlices(ps, lang)
    ensures forall i :: 0 <= i < 3 && StatusSlices(ps, lang)[i].value > 0 ==> StatusSlices(ps, lang)[i] in r
  {
    Filter(StatusSlices(ps, lang), HasProducts)
  }

  function SliceTotal(ss: seq<Slice>): int
    decreases |ss|
  {
    if ss == [] then 0 else ss[0].value + SliceTotal(ss[1..])
  }

  /**
   * With non-negative quantities and thresholds, as the product form
   * requires, the slices shown count every product exactly once.
   */
  lemma StockStatusTotal(ps: seq<Product>, lang: Language)
    requires forall p :: p in ps ==> p.threshold >= 0 && p.quantity >= 0
    ensures SliceTotal(StockStatusData(ps, lang)) == |ps|
  {
    var all := StatusSlices(ps, lang);
    assert forall i :: 0 <= i < |all| ==> all[i].value >= 0;
    DroppingEmptyKeepsTotal(all);
    TotalOfThree(all);
    StatusPartition(ps);
    assert SliceTotal(all) == |ps|;
    assert StockStatusData(ps, lang) == Filter(all, HasProducts);
  }

  /**
   * A product with a negative quantity and a non-negative threshold is in
   * no slice: alone, it draws an empty status chart.
   */
  lemma NegativeQuantityNotCharted(p: Product, lang: Language)
    requires p.threshold >= 0 && p.quantity < 0
    ensures StockStatusData([p], lang) == []
  {
    NegativeQuantityUnselected(p);
    assert [p][1..] == [];
    var all := StatusSlices([p], lang);
    assert all[0].value == 0 && all[1].value == 0 && all[2].value == 0;
    assert all[1..][1..][1..] == [];
  }

  /** Helper: the total of three slices. */
  lemma TotalOfThree(ss: seq<Slice>)
    requires |ss| == 3
    ensures SliceTotal(ss) == ss[0].value + ss[1].value + ss[2].value
  {
    var tail := ss[1..];
    var last := ss[2..];
    assert tail[1..] == last && tail[0] == ss[1];
    assert last[1..] == [] && last[0] == ss[2];
    assert SliceTotal(last) == ss[2].value + SliceTotal([]);
    assert SliceTotal(tail) == ss[1].value + SliceTotal(last);
  }

  lemma {:induction false} DroppingEmptyKeepsTotal(ss: seq<Slice>)
    requires forall i :: 0 <= i < |ss| ==> ss[i].value >= 0
    ensures SliceTotal(Filter(ss, HasProducts)) == SliceTotal(ss)
    decreases |ss|
  {
    if ss != [] {
      assert forall i :: 0 <= i < |ss[1..]| ==> ss[1..][i] == ss[i + 1];
      DroppingEmptyKeepsTotal(ss[1..]);
    }
  }

  // ---------------------------------------------------------------------
  // The component

  datatype Charts = Charts(categories: seq<Entry>, status: seq<Slice>, values: seq<ValueBar>)

  /**
   * Nothing is drawn for an empty list; otherwise all three series, the
   * category and value series never empty, and the status series never
   * empty either when quantities and thresholds are non-negative.
   */
  method Render(ps: seq<Product>, lang: Language) returns (r: Option<Charts>)
    ensures r.None? <==> ps == []
    ensures r.Some? ==> r.value.status == StockStatusData(ps, lang)
    ensures r.Some? ==> TopCategories(ps, r.value.categories) && TopValueBars(ps, r.value.values)
    ensures r.Some? ==> 1 <= |r.value.categories| <= 8 && 1 <= |r.value.values| <= 6
    ensures r.Some? && (forall p :: p in ps ==> p.threshold >= 0 && p.quantity >= 0) ==> |r.value.status| >= 1
  {
    var categories := CategoryData(ps);
    var values := ValueByCategory(ps);
    if |ps| == 0 {
      return None;
    }
    assert ps[0].category in Categories(ps);
    var status := StockStatusData(ps, lang);
    if forall p :: p in ps ==> p.threshold >= 0 && p.quantity >= 0 {
      StockStatusTotal(ps, lang);
      assert status != [];
    }
    r := Some(Charts(categories, status, values));
  }
}
