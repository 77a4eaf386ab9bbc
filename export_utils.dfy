/**
 * `src/utils/exportUtils.ts`: the localised exports. The CSV export uses
 * `;` between cells in both languages and the localised headers and status
 * words; the Excel export builds one record per product keyed by the
 * localised headers. Both name their file after the report type, the
 * language and the day.
 */
module ExportUtils {
  import opened Wrappers
  import opened Text
  import opened Locale
  import opened Inventory
  import opened CsvFormat
  import opened ReportRow
  import CsvExport

  /** `getHeaders(language)`, listed in the column order of both exports. */
  function Headers(lang: Language): (r: seq<string>)
    ensures |r| == 7
  {
    if lang == Ru then
      ["Название", "Категория", "Количество", "Цена (USD)", "Порог низкого запаса", "Статус", "Стоимость (USD)"]
    else
      ["Product Name", "Category", "Quantity", "Price (USD)", "Low Stock Threshold", "Status", "Value (USD)"]
  }

  /** `getStatusLabels(language)` */
  function Labels(lang: Language): StatusLabels {
    if lang == Ru then StatusLabels("Нет в наличии", "Мало на складе", "В наличии")
    else StatusLabels("Out of Stock", "Low Stock", "In Stock")
  }

  /** `getStatus(product, labels)`: one of the three labels, by the stock status rule. */
  function GetStatus(p: Product, labels: StatusLabels): (r: string)
    ensures r == labels.outOfStock || r == labels.lowStock || r == labels.inStock
    ensures p.quantity == 0 ==> r == labels.outOfStock
    ensures p.quantity != 0 && p.quantity <= p.threshold ==> r == labels.lowStock
    ensures p.quantity > p.threshold && p.quantity != 0 ==> r == labels.inStock
  {
    if p.quantity == 0 then labels.outOfStock
    else if p.quantity <= p.threshold then labels.lowStock
    else labels.inStock
  }

  /** The status word matches the shared stock status rule. */
  lemma GetStatusIsLabel(p: Product, labels: StatusLabels)
    ensures GetStatus(p, labels) == Label(labels, Classify(p))
  {
  }

  /** The English headers and words are those of the comma report. */
  lemma EnglishIsCsvExport()
    ensures Headers(En) == CsvExport.Headers && Labels(En) == CsvExport.Labels
  {
  }

  /** Each language has its own headers and words, and no two headers of a language coincide. */
  lemma HeadersDistinct(lang: Language)
    ensures Distinct(Labels(lang))
    ensures forall i, j :: 0 <= i < j < 7 ==> Headers(lang)[i] != Headers(lang)[j]
    ensures Headers(Ru) != Headers(En) && Labels(Ru) != Labels(En)
  {
    if lang == Ru {
      RussianHeadersDistinct();
    } else {
      EnglishHeadersDistinct();
    }
    LanguagesDiffer();
  }

  /** Helper: the Russian headers differ in their first three letters. */
  lemma RussianHeadersDistinct()
    ensures forall i, j :: 0 <= i < j < 7 ==> Headers(Ru)[i] != Headers(Ru)[j]
  {
    var h := Headers(Ru);
    assert h[0][0] == 'Н' && h[1][0] == 'К' && h[2][0] == 'К' && h[3][0] == 'Ц';
    assert h[4][0] == 'П' && h[5][0] == 'С' && h[6][0] == 'С';
    assert h[1][1] == 'а' && h[2][1] == 'о' && h[5][1] == 'т' && h[6][1] == 'т' && h[5][2] == 'а' && h[6][2] == 'о';
  }

  /** Helper: the English headers differ in their first three letters. */
  lemma EnglishHeadersDistinct()
    ensures forall i, j :: 0 <= i < j < 7 ==> Headers(En)[i] != Headers(En)[j]
  {
    var h := Headers(En);
    assert h[0][0] == 'P' && h[1][0] == 'C' && h[2][0] == 'Q' && h[3][0] == 'P';
    assert h[4][0] == 'L' && h[5][0] == 'S' && h[6][0] == 'V' && h[0][1] == 'r' && h[3][1] == 'r' && h[0][2] == 'o' && h[3][2] == 'i';
  }

  /** Helper: the two languages' words differ, and each language's labels are distinct. */
  lemma LanguagesDiffer()
    ensures Distinct(Labels(Ru)) && Distinct(Labels(En))
    ensures Headers(Ru) != Headers(En) && Labels(Ru) != Labels(En)
  {
    assert Headers(Ru)[0][0] == 'Н' && Headers(En)[0][0] == 'P';
    assert Labels(Ru).inStock[0] == 'В' && Labels(En).inStock[0] == 'I';
  }

  /** `generateFilename(reportType, language, extension)` for a given ISO timestamp. */
  function GenerateFilename(kind: ReportType, lang: Language, ext: string, timestamp: string): string {
    var prefix := if lang == Ru then "инвентарь" else "inventory";
    var word := if lang == Ru then (if kind == FullReport then "полный" else "низкий-запас") else Slug(kind);
    prefix + "-" + word + "-" + Before(timestamp, 'T') + "." + ext
  }

  /**
   * The name is `{prefix}-{label}-{day}.{ext}`; a different report type or
   * a different language on the same day gives a different name.
   */
  lemma FilenamesDiffer(k1: ReportType, l1: Language, k2: ReportType, l2: Language, ext: string, day: string, time: string)
    requires 'T' !in day
    requires (k1, l1) != (k2, l2)
    ensures GenerateFilename(k1, l1, ext, day + "T" + time) != GenerateFilename(k2, l2, ext, day + "T" + time)
  {
    var ts := day + "T" + time;
    var f1 := GenerateFilename(k1, l1, ext, ts);
    var f2 := GenerateFilename(k2, l2, ext, ts);
    if l1 != l2 {
      assert f1[0] != f2[0];
    } else {
      assert f1[10] != f2[10];
    }
  }

  lemma FilenameDay(kind: ReportType, lang: Language, ext: string, day: string, time: string)
    requires 'T' !in day
    ensures Before(day + "T" + time, 'T') == day
  {
    BeforeOfJoin(day, 'T', time);
    assert day + "T" + time == day + ['T'] + time;
  }

  // ---------------------------------------------------------------------
  // CSV

  /** `[headerRow, ...rows].join('\n')` with `;` between cells. */
  function CsvContent(ps: seq<Product>, lang: Language): string {
    Document(Headers(lang), ps, Labels(lang), ';')
  }

  /** `exportToCSV`: the byte-order mark, then the content, under the localised name. */
  function ExportToCSV(ps: seq<Product>, kind: ReportType, lang: Language, timestamp: string): (r: Download)
    ensures |r.content| > 0 && r.content[0] == BOM && r.content[1..] == CsvContent(ps, lang)
    ensures r.filename == GenerateFilename(kind, lang, "csv", timestamp)
  {
    Download(GenerateFilename(kind, lang, "csv", timestamp), [BOM] + CsvContent(ps, lang))
  }

  lemma WordsPlain(lang: Language)
    ensures HeadersSafe(Headers(lang), ';') && LabelsSafe(Labels(lang), ';')
  {
    if lang == Ru {
      RussianLeadingHeadersPlain();
      RussianTrailingHeadersPlain();
      RussianLabelsPlain();
    } else {
      CsvExport.HeadersPlain(';');
    }
  }

  lemma RussianLeadingHeadersPlain()
    ensures PlainSafe("Название", ';') && PlainSafe("Категория", ';') && PlainSafe("Количество", ';')
  {
  }

  lemma RussianTrailingHeadersPlain()
    ensures PlainSafe("Цена (USD)", ';') && PlainSafe("Порог низкого запаса", ';')
    ensures PlainSafe("Статус", ';') && PlainSafe("Стоимость (USD)", ';')
  {
  }

  lemma RussianLabelsPlain()
    ensures PlainSafe("Нет в наличии", ';') && PlainSafe("Мало на складе", ';') && PlainSafe("В наличии", ';')
  {
  }

  /**
   * In either language the content reads back, split at `;`, as the
   * localised header and then each product's name, category, quantity,
   * price, threshold, localised status and value, in order.
   */
  lemma CsvContentReadsBack(ps: seq<Product>, lang: Language)
    ensures ReadDocument(CsvContent(ps, lang), Headers(lang), Labels(lang), ';') == Some(DescribedAll(ps))
  {
    WordsPlain(lang);
    HeadersDistinct(lang);
    ReportRoundTrip(Headers(lang), ps, Labels(lang), ';');
  }

  // ---------------------------------------------------------------------
  // Excel

  /** A value of a record handed to the sheet builder: a string or a number. */
  datatype SheetValue = Text(text: string) | Number(number: int)

  /** `{ [headers.name]: product.name, ... }`, its keys in the order written. */
  function ExcelRecord(p: Product, lang: Language): (r: seq<(string, SheetValue)>)
    ensures |r| == 7
  {
    RecordWith(p, Headers(lang), Labels(lang))
  }

  /** The record of one product under the given header names and status words. */
  function RecordWith(p: Product, h: seq<string>, labels: StatusLabels): (r: seq<(string, SheetValue)>)
    requires |h| == 7
    ensures |r| == 7
  {
    [ (h[0], Text(p.name)),
      (h[1], Text(p.category)),
      (h[2], Number(p.quantity)),
      (h[3], Text(FormatCents(p.price))),
      (h[4], Number(p.threshold)),
      (h[5], Text(GetStatus(p, labels))),
      (h[6], Text(FormatCents(Value(p)))) ]
  }

  /** How a sheet value reads as text. */
  function Shown(v: SheetValue): string {
    match v
    case Text(t) => t
    case Number(n) => IntToString(n)
  }

  /**
   * Each record is keyed by the localised headers in column order, and
   * shows exactly the texts the CSV row of the same product holds.
   */
  lemma ExcelRecordMatchesCsv(p: Product, lang: Language)
    ensures forall i :: 0 <= i < 7 ==> ExcelRecord(p, lang)[i].0 == Headers(lang)[i]
    ensures forall i :: 0 <= i < 7 ==> Shown(ExcelRecord(p, lang)[i].1) == Cells(p, Labels(lang))[i].text
  {
    RecordWithMatchesCells(p, Headers(lang), Labels(lang));
  }

  /** Helper: `RecordWith` pairs each header with the text of the same column's cell. */
  lemma RecordWithMatchesCells(p: Product, h: seq<string>, labels: StatusLabels)
    requires |h| == 7
    ensures forall i :: 0 <= i < 7 ==> RecordWith(p, h, labels)[i].0 == h[i]
    ensures forall i :: 0 <= i < 7 ==> Shown(RecordWith(p, h, labels)[i].1) == Cells(p, labels)[i].text
  {
    GetStatusIsLabel(p, labels);
    var r := RecordWith(p, h, labels);
    var c := Cells(p, labels);
    forall i | 0 <= i < 7
      ensures Shown(r[i].1) == c[i].text
    {
      if i == 0 {
        assert r[0].1 == Text(p.name) && c[0] == Quoted(p.name);
      } else if i == 1 {
        assert r[1].1 == Text(p.category) && c[1] == Quoted(p.category);
      } else if i == 2 {
        assert r[2].1 == Number(p.quantity) && c[2] == Plain(IntToString(p.quantity));
      } else if i == 3 {
        assert r[3].1 == Text(FormatCents(p.price)) && c[3] == Plain(FormatCents(p.price));
      } else if i == 4 {
        assert r[4].1 == Number(p.threshold) && c[4] == Plain(IntToString(p.threshold));
      } else if i == 5 {
        assert r[5].1 == Text(GetStatus(p, labels)) && c[5] == Plain(Label(labels, Classify(p)));
      } else {
        assert r[6].1 == Text(FormatCents(Value(p))) && c[6] == Plain(FormatCents(Value(p)));
      }
    }
  }

  /** `products.map(...)`: one record per product, in order. */
  function ExcelData(ps: seq<Product>, lang: Language): (r: seq<seq<(string, SheetValue)>>)
    ensures |r| == |ps|
    ensures forall i :: 0 <= i < |ps| ==> r[i] == ExcelRecord(ps[i], lang)
  {
    seq(|ps|, i requires 0 <= i < |ps| => ExcelRecord(ps[i], lang))
  }

  /** `worksheet['!cols']`: characters of width per column. */
  const ColumnWidths: seq<nat> := [30, 20, 12, 15, 20, 15, 15]

  function SheetName(lang: Language): string {
    if lang == Ru then "Инвентарь" else "Inventory"
  }

  /** What `exportToExcel` hands to the spreadsheet writer. */
  datatype Workbook = Workbook(sheetName: string, data: seq<seq<(string, SheetValue)>>, widths: seq<nat>, filename: string)

  function ExportToExcel(ps: seq<Product>, kind: ReportType, lang: Language, timestamp: string): (r: Workbook)
    ensures r.data == ExcelData(ps, lang) && r.sheetName == SheetName(lang)
    ensures r.filename == GenerateFilename(kind, lang, "xlsx", timestamp)
    ensures r.widths == ColumnWidths && |r.widths| == |Headers(lang)|
    ensures forall i :: 0 <= i < |ps| ==> |r.data[i]| == |r.widths|
  {
    Workbook(SheetName(lang), ExcelData(ps, lang), ColumnWidths, GenerateFilename(kind, lang, "xlsx", timestamp))
  }
}
