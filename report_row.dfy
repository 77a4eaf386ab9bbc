/**
 * The seven cells the CSV exporters write for a product: the name and the
 * category quoted, the quantity, the price to two decimals, the low-stock
 * threshold, the status label and the stock value to two decimals. Its
 * partner reads a row back into what it says about the product, and the
 * lemmas show that an exported document reads back as exactly those facts
 * for every product, in order.
 */
module ReportRow {
  import opened Wrappers
  import opened Text
  import opened Inventory
  import opened CsvFormat

  /** `'full' | 'low-stock'`, the two reports the reports page offers. */
  datatype ReportType = FullReport | LowStockReport

  /** The report type as the source spells it. */
  function Slug(kind: ReportType): (r: string)
    ensures |r| > 0 && r[0] == (if kind == FullReport then 'f' else 'l')
  {
    if kind == FullReport then "full" else "low-stock"
  }

  /** The byte-order mark put in front of a downloaded CSV text. */
  const BOM: char := 0xFEFF as char

  /** A file handed to the browser: its name and its text. */
  datatype Download = Download(filename: string, content: string)

  /** The three words a report uses for the stock statuses. */
  datatype StatusLabels = StatusLabels(outOfStock: string, lowStock: string, inStock: string)

  function Label(labels: StatusLabels, s: StockStatus): string {
    match s
    case OutOfStock => labels.outOfStock
    case LowStock => labels.lowStock
    case InStock => labels.inStock
  }

  predicate Distinct(labels: StatusLabels) {
    labels.outOfStock != labels.lowStock && labels.outOfStock != labels.inStock && labels.lowStock != labels.inStock
  }

  /** The status a label names. */
  function ReadStatus(labels: StatusLabels, t: string): (r: Option<StockStatus>)
    ensures r.Some? ==> Label(labels, r.value) == t
    ensures r.None? ==> forall s :: Label(labels, s) != t
  {
    if t == labels.outOfStock then Some(OutOfStock)
    else if t == labels.lowStock then Some(LowStock)
    else if t == labels.inStock then Some(InStock)
    else None
  }

  lemma ReadLabel(labels: StatusLabels, s: StockStatus)
    requires Distinct(labels)
    ensures ReadStatus(labels, Label(labels, s)) == Some(s)
  {
  }

  /** The cells of one product's row. */
  function Cells(p: Product, labels: StatusLabels): (r: seq<Cell>)
    ensures |r| == 7
  {
    [ Quoted(p.name),
      Quoted(p.category),
      Plain(IntToString(p.quantity)),
      Plain(FormatCents(p.price)),
      Plain(IntToString(p.threshold)),
      Plain(Label(labels, Classify(p))),
      Plain(FormatCents(Value(p))) ]
  }

  /** What a row says about a product: everything except its id. */
  datatype ReportLine = ReportLine(
    name: string,
    category: string,
    quantity: int,
    price: int,
    threshold: int,
    status: StockStatus,
    value: int)

  function Described(p: Product): (r: ReportLine)
    ensures r.status == Classify(p) && r.value == p.quantity * p.price
  {
    ReportLine(p.name, p.category, p.quantity, p.price, p.threshold, Classify(p), Value(p))
  }

  /** Reads one row; `None` unless it has the shape the exporter writes. */
  function Read(cells: seq<Cell>, labels: StatusLabels): Option<ReportLine> {
    if |cells| != 7 || !cells[0].Quoted? || !cells[1].Quoted? || !cells[2].Plain? || !cells[3].Plain?
       || !cells[4].Plain? || !cells[5].Plain? || !cells[6].Plain? then None
    else
      match (ParseInt(cells[2].text), ParseCents(cells[3].text), ParseInt(cells[4].text),
             ReadStatus(labels, cells[5].text), ParseCents(cells[6].text))
      case (Some(q), Some(price), Some(thr), Some(status), Some(value)) =>
        Some(ReportLine(cells[0].text, cells[1].text, q, price, thr, status, value))
      case _ => None
  }

  /** A product's row reads back as the product's description. */
  lemma ReadCells(p: Product, labels: StatusLabels)
    requires Distinct(labels)
    ensures Read(Cells(p, labels), labels) == Some(Described(p))
  {
    IntToStringRoundTrip(p.quantity);
    IntToStringRoundTrip(p.threshold);
    FormatCentsRoundTrip(p.price);
    FormatCentsRoundTrip(Value(p));
    ReadLabel(labels, Classify(p));
  }

  predicate LabelsSafe(labels: StatusLabels, d: char) {
    PlainSafe(labels.outOfStock, d) && PlainSafe(labels.lowStock, d) && PlainSafe(labels.inStock, d)
  }

  lemma CellsSafe(p: Product, labels: StatusLabels, d: char)
    requires d == ',' || d == ';'
    requires LabelsSafe(labels, d)
    ensures RecordSafe(Cells(p, labels), d)
  {
    NumeralPlainSafe(IntToString(p.quantity), d);
    NumeralPlainSafe(FormatCents(p.price), d);
    NumeralPlainSafe(IntToString(p.threshold), d);
    NumeralPlainSafe(FormatCents(Value(p)), d);
  }

  // ---------------------------------------------------------------------
  // A whole report

  function HeaderCells(headers: seq<string>): (r: seq<Cell>)
    ensures |r| == |headers|
    ensures forall i :: 0 <= i < |r| ==> r[i] == Plain(headers[i])
    decreases |headers|
  {
    if headers == [] then [] else [Plain(headers[0])] + HeaderCells(headers[1..])
  }

  /** Header cells are written as the header texts themselves. */
  lemma {:induction false} EncodeHeaderCells(headers: seq<string>)
    ensures EncodeCells(HeaderCells(headers)) == headers
    decreases |headers|
  {
    if headers != [] {
      EncodeHeaderCells(headers[1..]);
    }
  }

  function Rows(ps: seq<Product>, labels: StatusLabels): (r: seq<seq<Cell>>)
    ensures |r| == |ps|
    ensures forall i :: 0 <= i < |ps| ==> r[i] == Cells(ps[i], labels)
    decreases |ps|
  {
    if ps == [] then [] else [Cells(ps[0], labels)] + Rows(ps[1..], labels)
  }

  /** `[headerRow, ...rows].join('\n')`, cells joined by `d`. */
  function Document(headers: seq<string>, ps: seq<Product>, labels: StatusLabels, d: char): string {
    EncodeDocument([HeaderCells(headers)] + Rows(ps, labels), d)
  }

  function ReadRows(records: seq<seq<Cell>>, labels: StatusLabels): Option<seq<ReportLine>>
    decreases |records|
  {
    if records == [] then Some([])
    else
      match (Read(records[0], labels), ReadRows(records[1..], labels))
      case (Some(line), Some(lines)) => Some([line] + lines)
      case _ => None
  }

  /** Reads a report: the expected header record, then one row per product. */
  function ReadDocument(s: string, headers: seq<string>, labels: StatusLabels, d: char): Option<seq<ReportLine>> {
    match ParseDocument(s, d)
    case None => None
    case Some(records) =>
      if records[0] != HeaderCells(headers) then None else ReadRows(records[1..], labels)
  }

  function DescribedAll(ps: seq<Product>): (r: seq<ReportLine>)
    ensures |r| == |ps|
    ensures forall i :: 0 <= i < |ps| ==> r[i] == Described(ps[i])
    decreases |ps|
  {
    if ps == [] then [] else [Described(ps[0])] + DescribedAll(ps[1..])
  }

  lemma {:induction false} ReadRowsOfProducts(ps: seq<Product>, labels: StatusLabels)
    requires Distinct(labels)
    ensures ReadRows(Rows(ps, labels), labels) == Some(DescribedAll(ps))
    decreases |ps|
  {
    if ps != [] {
      ReadCells(ps[0], labels);
      ReadRowsOfProducts(ps[1..], labels);
      assert Rows(ps, labels)[1..] == Rows(ps[1..], labels);
    }
  }

  predicate HeadersSafe(headers: seq<string>, d: char) {
    |headers| > 0 && forall i :: 0 <= i < |headers| ==> PlainSafe(headers[i], d)
  }

  /**
   * An exported report reads back as the header it was written with
   * followed by one description per product, in the products' order:
   * name, category, quantity, price, threshold, status and value survive,
   * whatever quotes, delimiters or line breaks the names hold.
   */
  lemma ReportRoundTrip(headers: seq<string>, ps: seq<Product>, labels: StatusLabels, d: char)
    requires d == ',' || d == ';'
    requires HeadersSafe(headers, d) && LabelsSafe(labels, d) && Distinct(labels)
    ensures ReadDocument(Document(headers, ps, labels, d), headers, labels, d) == Some(DescribedAll(ps))
  {
    var records := [HeaderCells(headers)] + Rows(ps, labels);
    forall i | 0 <= i < |records|
      ensures RecordSafe(records[i], d)
    {
      if i == 0 {
        assert records[0] == HeaderCells(headers);
      } else {
        assert records[i] == Cells(ps[i - 1], labels);
        CellsSafe(ps[i - 1], labels, d);
      }
    }
    DocumentRoundTrip(records, d);
    assert records[1..] == Rows(ps, labels);
    ReadRowsOfProducts(ps, labels);
  }
}
