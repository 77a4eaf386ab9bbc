/**
 * `src/pages/Reports.tsx`: the summary figures, the per-category counts,
 * the stock badge of the product list, and the two export buttons. The
 * page calls the comma exporter of `src/utils/csvExport.ts` with a third
 * argument, the language, which that exporter does not take: the exported
 * file is the English comma report whatever the interface language.
 */
module Reports {
  import opened Wrappers
  import opened Text
  import opened Locale
  import opened Inventory
  import opened Tally
  import opened ReportRow
  import CsvExport
  import ExportUtils

  // ---------------------------------------------------------------------
  // Export

  /** `type === 'low-stock' ? products.filter(p => p.quantity <= p.low_stock_threshold) : products` */
  function ExportSet(ps: seq<Product>, kind: ReportType): (r: seq<Product>)
    ensures kind == FullReport ==> r == ps
    ensures kind == LowStockReport ==> forall p :: p in r <==> p in ps && p.quantity <= p.threshold
    ensures kind == LowStockReport ==>
      forall p :: multiset(r)[p] == if p.quantity <= p.threshold then multiset(ps)[p] else 0
    ensures SubsequenceOf(r, ps)
  {
    if kind == LowStockReport then
      var r := Filter(ps, AtOrBelowThreshold);
      FilterMultiset(ps, AtOrBelowThreshold);
      assert forall p :: p in r ==> exists i :: 0 <= i < |r| && r[i] == p;
      assert forall p :: p in ps ==> exists i :: 0 <= i < |ps| && ps[i] == p;
      r
    else
      assert SubsequenceOf(ps, ps) by { SubsequenceReflexive(ps); }
      ps
  }

  lemma {:induction false} SubsequenceReflexive<T>(xs: seq<T>)
    ensures SubsequenceOf(xs, xs)
    decreases |xs|
  {
    if xs != [] {
      SubsequenceReflexive(xs[1..]);
    }
  }

  /** A notification: title, text, and whether it is shown as an error. */
  datatype Toast = Toast(title: string, description: string, destructive: bool)

  datatype ExportOutcome = ExportOutcome(download: Option<Download>, toast: Toast)

  /**
   * `handleExportCSV`: with nothing to export, an error notice and no file;
   * otherwise the English comma report of the export set and a notice
   * with the number of products exported.
   */
  function HandleExportCSV(ps: seq<Product>, kind: ReportType, lang: Language, timestamp: string): (r: ExportOutcome)
    ensures r.download.None? <==> ExportSet(ps, kind) == []
    ensures r.download.None? ==> r.toast.destructive
    ensures r.download.Some? ==> r.download.value == CsvExport.ExportProductsToCSV(ExportSet(ps, kind), kind, timestamp)
    ensures r.download.Some? ==> !r.toast.destructive
  {
    var data := ExportSet(ps, kind);
    if |data| == 0 then ExportOutcome(None, NothingToExport(lang))
    else ExportOutcome(Some(CsvExport.ExportProductsToCSV(data, kind, timestamp)), Exported(|data|, lang))
  }

  /** The error notice for an empty export. */
  function NothingToExport(lang: Language): (t: Toast)
    ensures t.destructive
  {
    Toast(if lang == Ru then "Ошибка" else "Error",
          if lang == Ru then "Нет данных для экспорта." else "No data to export.", true)
  }

  /** The success notice, with the number of products written. */
  function Exported(count: nat, lang: Language): (t: Toast)
    ensures !t.destructive
  {
    Toast(if lang == Ru then "Успешно" else "Success",
          if lang == Ru then IntToString(count) + " товаров экспортировано."
          else IntToString(count) + " products exported.", false)
  }

  /** The file exported does not depend on the interface language. */
  lemma ExportIgnoresLanguage(ps: seq<Product>, kind: ReportType, timestamp: string)
    ensures HandleExportCSV(ps, kind, Ru, timestamp).download == HandleExportCSV(ps, kind, En, timestamp).download
  {
  }

  /**
   * The exported file reads back as the English report of the export set;
   * in a low-stock export every line is at or below its threshold, empty
   * shelves included.
   */
  lemma ExportedLines(ps: seq<Product>, kind: ReportType, lang: Language, timestamp: string)
    requires HandleExportCSV(ps, kind, lang, timestamp).download.Some?
    ensures var text := HandleExportCSV(ps, kind, lang, timestamp).download.value.content;
      ReadDocument(text[1..], CsvExport.Headers, CsvExport.Labels, ',') == Some(DescribedAll(ExportSet(ps, kind)))
    ensures kind == LowStockReport ==> WithinThresholds(DescribedAll(ExportSet(ps, kind)))
  {
    assert ExportSet(ps, kind) != [];
    ExportReadsBack(ps, kind, lang, timestamp);
    if kind == LowStockReport {
      LowStockLinesWithinThreshold(ps, kind);
    }
  }

  /** Helper: the exported file reads back as the English report of the export set. */
  lemma ExportReadsBack(ps: seq<Product>, kind: ReportType, lang: Language, timestamp: string)
    requires ExportSet(ps, kind) != []
    ensures var text := HandleExportCSV(ps, kind, lang, timestamp).download.value.content;
      ReadDocument(text[1..], CsvExport.Headers, CsvExport.Labels, ',') == Some(DescribedAll(ExportSet(ps, kind)))
  {
    var data := ExportSet(ps, kind);
    var file := CsvExport.ExportProductsToCSV(data, kind, timestamp);
    assert HandleExportCSV(ps, kind, lang, timestamp).download == Some(file);
    CsvExport.ExportContent(data, kind, timestamp);
  }

  /** Every line is at or below its threshold. */
  predicate WithinThresholds(lines: seq<ReportLine>) {
    forall i :: 0 <= i < |lines| ==> lines[i].quantity <= lines[i].threshold
  }

  /** Helper: every line of the low-stock export is at or below its threshold. */
  lemma LowStockLinesWithinThreshold(ps: seq<Product>, kind: ReportType)
    requires kind == LowStockReport
    ensures WithinThresholds(DescribedAll(ExportSet(ps, kind)))
  {
    var data := ExportSet(ps, kind);
    forall i | 0 <= i < |data|
      ensures DescribedAll(data)[i].quantity <= DescribedAll(data)[i].threshold
    {
      assert DescribedAll(data)[i] == Described(data[i]);
      assert data[i] in data;
    }
  }

  /** The success notice counts the products written. */
  lemma SuccessCount(ps: seq<Product>, kind: ReportType, timestamp: string)
    requires ExportSet(ps, kind) != []
    ensures HandleExportCSV(ps, kind, En, timestamp).toast.description
         == IntToString(|ExportSet(ps, kind)|) + " products exported."
    ensures ParseInt(IntToString(|ExportSet(ps, kind)|)) == Some(|ExportSet(ps, kind)|)
  {
    IntToStringRoundTrip(|ExportSet(ps, kind)|);
  }

  /**
   * The export the page evidently means when it passes the language: the
   * semicolon report of `src/utils/exportUtils.ts`, in the interface
   * language, under the localised file name; the notices are unchanged.
   */
  function HandleExportLocalized(ps: seq<Product>, kind: ReportType, lang: Language, timestamp: string): (r: ExportOutcome)
    ensures r.download.None? <==> ExportSet(ps, kind) == []
    ensures r.download.Some? ==>
      r.download.value == ExportUtils.ExportToCSV(ExportSet(ps, kind), kind, lang, timestamp)
    ensures r.toast == HandleExportCSV(ps, kind, lang, timestamp).toast
  {
    var data := ExportSet(ps, kind);
    var shown := HandleExportCSV(ps, kind, lang, timestamp);
    if |data| == 0 then shown
    else ExportOutcome(Some(ExportUtils.ExportToCSV(data, kind, lang, timestamp)), shown.toast)
  }

  /**
   * The localised export reads back, with `;` as delimiter, as the
   * headers and status words of the interface language over the export set.
   */
  lemma LocalizedExportReadsBack(ps: seq<Product>, kind: ReportType, lang: Language, timestamp: string)
    requires ExportSet(ps, kind) != []
    ensures var text := HandleExportLocalized(ps, kind, lang, timestamp).download.value.content;
      ReadDocument(text[1..], ExportUtils.Headers(lang), ExportUtils.Labels(lang), ';')
        == Some(DescribedAll(ExportSet(ps, kind)))
  {
    ExportUtils.CsvContentReadsBack(ExportSet(ps, kind), lang);
  }

  /** With something to export, the two languages give two different files. */
  lemma LocalizedExportFollowsLanguage(ps: seq<Product>, kind: ReportType, timestamp: string)
    requires ExportSet(ps, kind) != []
    ensures HandleExportLocalized(ps, kind, Ru, timestamp).download
         != HandleExportLocalized(ps, kind, En, timestamp).download
  {
    var data := ExportSet(ps, kind);
    var ru := ExportUtils.ExportToCSV(data, kind, Ru, timestamp);
    var en := ExportUtils.ExportToCSV(data, kind, En, timestamp);
    assert ru.filename[0] != en.filename[0];
  }

  // ---------------------------------------------------------------------
  // Summary

  /** The figures of the summary cards; `totalValue` in cents. */
  datatype Summary = Summary(
    totalProducts: int,
    lowStock: seq<Product>,
    outOfStock: seq<Product>,
    totalValue: int,
    totalUnits: int)

  function SummaryOf(ps: seq<Product>): (s: Summary)
    ensures s.totalProducts == |ps| && s.totalValue == Sum(ps, Worth) && s.totalUnits == Sum(ps, Units)
  {
    Summary(|ps|, Filter(ps, IsStrictlyLow), Filter(ps, IsOut), Sum(ps, Worth), Sum(ps, Units))
  }

  /**
   * On this page low excludes empty shelves: no product is both low and
   * out of stock, and every low product still has some units.
   */
  lemma LowAndOutDisjoint(ps: seq<Product>)
    ensures forall p :: p in SummaryOf(ps).outOfStock ==> p.quantity == 0
    ensures forall p :: p in SummaryOf(ps).lowStock ==> p.quantity > 0 && p.quantity <= p.threshold
    ensures forall p :: p in SummaryOf(ps).lowStock ==> p !in SummaryOf(ps).outOfStock
  {
    var s := SummaryOf(ps);
    forall p | p in s.outOfStock
      ensures p.quantity == 0
    {
      var j :| 0 <= j < |s.outOfStock| && s.outOfStock[j] == p;
    }
    forall p | p in s.lowStock
      ensures p.quantity > 0 && p.quantity <= p.threshold
    {
      var i :| 0 <= i < |s.lowStock| && s.lowStock[i] == p;
    }
  }

  /** With non-negative quantities, the unit total is not negative. */
  lemma UnitsNonNegative(ps: seq<Product>)
    requires forall p :: p in ps ==> p.quantity >= 0
    ensures SummaryOf(ps).totalUnits >= 0
  {
    SumNonNegative(ps, Units);
  }

  // ---------------------------------------------------------------------
  // Per-category counts

  /**
   * `categoryCounts` with its entries: one per category that occurs, none
   * twice, each at least one, and together they count every product.
   */
  method CategoryCounts(ps: seq<Product>) returns (counts: seq<Entry>)
    ensures |counts| == |Categories(ps)|
    ensures forall i :: 0 <= i < |counts| ==>
      counts[i].name in Categories(ps) && counts[i].value == SumWhere(ps, counts[i].name, Each) && counts[i].value >= 1
    ensures forall i, j :: 0 <= i < j < |counts| ==> counts[i].name != counts[j].name
    ensures SumEntries(counts) == |ps|
  {
    var acc := Accumulate(ps, Each);
    EntriesOfTally(ps, Each);
    TallyPreservesSum(ps, Each);
    SumOfEach(ps);
    counts := Entries(acc);
    forall i | 0 <= i < |counts|
      ensures counts[i].value >= 1
    {
      CategoryCounted(ps, counts[i].name);
    }
  }

  /** A category that occurs counts at least one product. */
  lemma {:induction false} CategoryCounted(ps: seq<Product>, c: string)
    requires c in Categories(ps)
    ensures SumWhere(ps, c, Each) >= 1
    decreases |ps|
  {
    var init := ps[..|ps| - 1];
    var last := ps[|ps| - 1];
    assert ps == init + [last];
    CountNonNegative(init, c);
    if last.category != c {
      var p :| p in ps && p.category == c;
      assert p in init;
      CategoryCounted(init, c);
    }
  }

  lemma {:induction false} CountNonNegative(ps: seq<Product>, c: string)
    ensures SumWhere(ps, c, Each) >= 0
    decreases |ps|
  {
    if ps != [] {
      CountNonNegative(ps[..|ps| - 1], c);
    }
  }

  // ---------------------------------------------------------------------
  // The badge of the product list

  /** `getStockBadge` */
  function StockBadge(p: Product): Badge {
    if p.quantity == 0 then Destructive
    else if p.quantity <= p.threshold then Warning
    else Success
  }

  /** The badge follows the shared stock status rule. */
  lemma StockBadgeFollowsStatus(p: Product)
    ensures StockBadge(p) == Destructive <==> Classify(p) == OutOfStock
    ensures StockBadge(p) == Warning <==> Classify(p) == LowStock
    ensures StockBadge(p) == Success <==> Classify(p) == InStock
  {
  }
}
