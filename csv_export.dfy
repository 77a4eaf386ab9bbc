/**
 * `src/utils/csvExport.ts`: the English, comma-separated product report
 * and the name of the file it is saved under.
 */
module CsvExport {
  import opened Wrappers
  import opened Text
  import opened Inventory
  import opened CsvFormat
  import opened ReportRow

  /** The fixed header row. */
  const Headers: seq<string> :=
    ["Product Name", "Category", "Quantity", "Price (USD)", "Low Stock Threshold", "Status", "Value (USD)"]

  const Labels: StatusLabels := StatusLabels("Out of Stock", "Low Stock", "In Stock")

  /** The status word the report writes for one product. */
  function StatusText(p: Product): (r: string)
    ensures r == "Out of Stock" <==> p.quantity == 0
    ensures r == "Low Stock" <==> p.quantity != 0 && p.quantity <= p.threshold
    ensures r == "In Stock" <==> p.quantity != 0 && p.quantity > p.threshold
  {
    Label(Labels, Classify(p))
  }

  /** `productsToCSV`: the header, then one row per product, joined by `'\n'`. */
  function ProductsToCSV(ps: seq<Product>): string {
    Document(Headers, ps, Labels, ',')
  }

  /**
   * The report reads back, with the comma as delimiter, as the fixed
   * header followed by, for each product in order, its name, category,
   * quantity, price, threshold, status and value `quantity * price`.
   */
  lemma ProductsToCSVReadsBack(ps: seq<Product>)
    ensures ReadDocument(ProductsToCSV(ps), Headers, Labels, ',') == Some(DescribedAll(ps))
  {
    HeadersPlain(',');
    ReportRoundTrip(Headers, ps, Labels, ',');
  }

  lemma HeadersPlain(d: char)
    requires d == ',' || d == ';'
    ensures HeadersSafe(Headers, d) && LabelsSafe(Labels, d) && Distinct(Labels)
  {
    LeadingHeadersPlain(d);
    TrailingHeadersPlain(d);
    LabelWordsPlain(d);
  }

  lemma LeadingHeadersPlain(d: char)
    requires d == ',' || d == ';'
    ensures PlainSafe("Product Name", d) && PlainSafe("Category", d) && PlainSafe("Quantity", d)
  {
  }

  lemma TrailingHeadersPlain(d: char)
    requires d == ',' || d == ';'
    ensures PlainSafe("Price (USD)", d) && PlainSafe("Low Stock Threshold", d)
    ensures PlainSafe("Status", d) && PlainSafe("Value (USD)", d)
  {
  }

  lemma LabelWordsPlain(d: char)
    requires d == ',' || d == ';'
    ensures PlainSafe("Out of Stock", d) && PlainSafe("Low Stock", d) && PlainSafe("In Stock", d)
  {
  }

  /** An empty product list gives the header line alone. */
  lemma EmptyReportIsHeader()
    ensures ProductsToCSV([]) == Join(Headers, ",")
  {
    var records := [HeaderCells(Headers)] + Rows([], Labels);
    assert records == [HeaderCells(Headers)];
    assert EncodeRecords(records, ',') == [EncodeRecord(HeaderCells(Headers), ',')];
    EncodeHeaderCells(Headers);
  }

  /** `inventory-${reportType}-report-${date}.csv`, the date being the day part of an ISO timestamp. */
  function Filename(kind: ReportType, timestamp: string): string {
    "inventory-" + Slug(kind) + "-report-" + Before(timestamp, 'T') + ".csv"
  }

  /** `exportProductsToCSV`: the file that is offered for download. */
  function ExportProductsToCSV(ps: seq<Product>, kind: ReportType, timestamp: string): (r: Download)
    ensures |r.content| > 0 && r.content[0] == BOM && r.content[1..] == ProductsToCSV(ps)
    ensures r.filename == Filename(kind, timestamp)
  {
    Download(Filename(kind, timestamp), [BOM] + ProductsToCSV(ps))
  }

  /** Past the byte-order mark, the downloaded text is the report. */
  lemma ExportContent(ps: seq<Product>, kind: ReportType, timestamp: string)
    ensures ReadDocument(ExportProductsToCSV(ps, kind, timestamp).content[1..], Headers, Labels, ',')
         == Some(DescribedAll(ps))
  {
    assert ExportProductsToCSV(ps, kind, timestamp).content[1..] == ProductsToCSV(ps);
    ProductsToCSVReadsBack(ps);
  }

  /** The two reports of one day have different file names; the date is the timestamp's day part. */
  lemma FilenameParts(kind: ReportType, day: string, time: string)
    requires 'T' !in day
    ensures Filename(kind, day + "T" + time) == "inventory-" + Slug(kind) + "-report-" + day + ".csv"
    ensures Filename(FullReport, day + "T" + time) != Filename(LowStockReport, day + "T" + time)
  {
    BeforeOfJoin(day, 'T', time);
    assert day + "T" + time == day + ['T'] + time;
    assert Filename(FullReport, day + "T" + time)[10] == 'f';
    assert Filename(LowStockReport, day + "T" + time)[10] == 'l';
  }
}
