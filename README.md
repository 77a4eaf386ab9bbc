# SIMS inventory rules in Dafny

This project models the logic of SIMS, the Simple Inventory Management System: a small
React and Supabase front end for a product inventory. It models the rules the screens apply to
the product list and the small state machines of the pages. Each rule is stated as a
contract and proved:

- the three-way stock status;
- the two CSV exporters and the Excel record builder;
- the dashboard figures, the low-stock alert and the search;
- the chart series, which group by category and keep the top N;
- the reports page;
- the product table and its dialog targets;
- the audit-log change summary;
- the product and sign-in validators;
- the role-derived permissions;
- the navigation of the two slide decks.

Prices are whole cents, so `quantity * price`, `toFixed(2)` and the chart's
`Math.round(value * 100) / 100` are exact. Strings are sequences of characters.

Module layout, one module per source file, plus shared modules:

| module | models |
|---|---|
| `Wrappers`, `Locale` | `Option`/`Result`, the `'ru' \| 'en'` language and its toggle |
| `Text` | the JavaScript string built-ins the sources use: `join`, `String(n)`, `toFixed(2)`, `trim`, `toLowerCase`/`toUpperCase`, `includes`, `split(sep)[0]`, with readers proving the renderings invertible |
| `Inventory` | the product record, the stock status rule, sums and the order-preserving filter |
| `Tally` | the `reduce`-into-an-object grouping, `Object.entries`, the descending comparator sort and `slice(0, n)` |
| `CsvFormat` | the CSV writer (quoted and verbatim cells) and a reader for the same format |
| `ReportRow` | the seven-cell product row both exporters write, and reading a report back |
| `CsvExport` | `src/utils/csvExport.ts` |
| `ExportUtils` | `src/utils/exportUtils.ts` |
| `InventoryCharts` | `src/components/InventoryCharts.tsx` |
| `Dashboard` | `src/components/Dashboard.tsx` |
| `Reports` | `src/pages/Reports.tsx` |
| `ProductTable` | `src/components/ProductTable.tsx` |
| `AuditLog` | `src/pages/AuditLog.tsx` |
| `ProductSchema` | the product schema shared by both product dialogs |
| `AddProductDialog`, `EditProductDialog` | the two dialogs' form state and submit flow |
| `Auth` | `src/pages/Auth.tsx` |
| `AuthContext` | `src/contexts/AuthContext.tsx` |
| `Presentation`, `ScreenshotPresentation` | the two slide decks |

Anything the code gets from outside is a parameter of the operation that uses it:

- the reply of the database or of the auth service;
- the current ISO timestamp;
- the page's origin;
- the user's clicks.

Where the code repeats the stock status chain (four times), each copy is modelled as written
and proved equal to `Inventory.Classify`. Likewise, the comma and semicolon exporters share
`ReportRow`, and the two product dialogs share `ProductSchema`, because their sources are
identical.

The low-stock selection is written two ways in the source, and each call site keeps its own:

- `quantity <= threshold`, which includes empty shelves, on the dashboard and in the
  reports export;
- `0 < quantity <= threshold` on the reports cards and in the status chart.

## Model

| member | source | states |
|---|---|---|
| Inventory.Classify | src/utils/csvExport.ts:26-30 | out of stock exactly when the quantity is 0; low exactly when it is non-zero and at most the threshold; in stock exactly when it is non-zero and above it |
| Inventory.ClassifyLowIsStrictlyLow | src/components/InventoryCharts.tsx:72-76 | for a non-negative quantity the status rule says low exactly when the `quantity > 0` filter keeps the product; a negative quantity at or below the threshold is called low by the rule and dropped by the filter |
| Inventory.StatusExclusive | src/components/InventoryCharts.tsx:63-82 | with a non-negative quantity and threshold, as the product form demands, the in-stock, low (`quantity > 0`) and out conditions exclude one another and one of them always holds |
| Inventory.NegativeQuantityUnselected | src/components/InventoryCharts.tsx:63-82 | a negative quantity under a non-negative threshold satisfies none of the in-stock, low and out conditions |
| Inventory.StatusPartition | src/components/InventoryCharts.tsx:63-82 | with non-negative quantities and thresholds, the three status selections together count every product exactly once |
| Inventory.OutOfStockWithinThreshold | src/components/Dashboard.tsx:77-78 | with non-negative thresholds every `quantity === 0` product is in the `quantity <= threshold` selection, so that selection is at least as large |
| Inventory.AtOrBelowThresholdSplits | src/components/Dashboard.tsx:77-78 | with non-negative quantities and thresholds, the at-or-below-threshold count is the `quantity > 0` low count plus the out-of-stock count |
| Inventory.Filter | src/components/Dashboard.tsx:81-84 | the result is an order-preserving subsequence of the input; every element in it passes, and every passing element of the input is in it |
| Inventory.FilterMultiset | src/components/Dashboard.tsx:81-84 | `filter` keeps every occurrence of a passing element and no occurrence of a failing one |
| Inventory.FilterAll | src/components/Dashboard.tsx:81-84 | when every element passes, filtering returns the input unchanged |
| Inventory.FilterCongruent | src/components/Dashboard.tsx:81-84 | predicates that agree on every element select the same list |
| Inventory.FilterIdempotent | src/components/Dashboard.tsx:81-84 | filtering a filtered list again changes nothing |
| Inventory.FilterSplit | src/pages/AuditLog.tsx:183-195 | two disjoint selections have sizes that add up to the size of their union |
| Inventory.FilterMonotone | src/components/Dashboard.tsx:77-78 | a test that holds wherever another does selects at least as many elements |
| Inventory.SumOfEach | src/pages/Reports.tsx:78-81 | counting one per product sums to the number of products |
| Inventory.SumNonNegative | src/pages/Reports.tsx:75-76 | with non-negative quantities (and prices), units and value totals are not negative |
| Text.Join | src/utils/csvExport.ts:41 | joining no parts is empty; a join starts with its first part |
| Text.IntToString | src/utils/csvExport.ts:36 | `String(n)` is a non-empty numeral, starting with "-" exactly for negative numbers |
| Text.IntToStringRoundTrip | src/utils/csvExport.ts:36 | reading the decimal rendering of an integer gives the integer back |
| Text.FormatCentsRoundTrip | src/utils/csvExport.ts:37 | reading a `toFixed(2)` rendering of a cent amount gives the amount back |
| Text.FormatCents | src/utils/csvExport.ts:31 | the rendering is a numeral with exactly two digits after the point, with a sign exactly for negative amounts |
| Text.Trim | src/components/AddProductDialog.tsx:100-104 | the result has no leading or trailing whitespace and is the input with its leading whitespace removed and cut to length |
| Text.TrimRemovesOnlyWhitespace | src/components/AddProductDialog.tsx:100-104 | every character trimming removes is whitespace |
| Text.TrimIdempotent | src/components/AddProductDialog.tsx:40-41 | the schema's own trim of already-trimmed text changes nothing |
| Text.LowerOfUpper | src/components/Dashboard.tsx:82-83 | lower-casing forgets a prior upper-casing |
| Text.LowerOfLower | src/components/Dashboard.tsx:82-83 | lower-casing twice is lower-casing once |
| Text.ContainsAt | src/components/Dashboard.tsx:82-83 | `includes` holds exactly when the text occurs at some position |
| Text.ContainsEmpty | src/components/Dashboard.tsx:82-83 | every text includes the empty text |
| Text.Before | src/utils/csvExport.ts:84 | `split(sep)[0]` is the longest prefix free of the separator, followed by the separator unless it is the whole text |
| Text.BeforeOfJoin | src/utils/csvExport.ts:84 | the day part of `day + "T" + time` is `day` |
| Locale.Toggled | src/pages/Presentation.tsx:103 | the toggle always changes the language |
| Locale.ToggleInvolution | src/pages/ScreenshotPresentation.tsx:224 | toggling twice restores the language |
| CsvFormat.Escape | src/utils/csvExport.ts:34-35 | doubling quotes never shortens the text |
| CsvFormat.QuotedRoundTrip | src/utils/csvExport.ts:34-35 | a quote-wrapped, quote-doubled cell reads back as the original text, leaving what follows |
| CsvFormat.PlainRoundTrip | src/utils/csvExport.ts:36-40 | an unquoted cell free of delimiter, quote and newline reads back as itself |
| CsvFormat.FieldRoundTrip | src/utils/csvExport.ts:33-41 | any cell followed by a delimiter, newline or the end reads back as that cell |
| CsvFormat.RecordRoundTrip | src/utils/csvExport.ts:33-41 | a record joined by the delimiter reads back as its cells, in order |
| CsvFormat.DocumentRoundTrip | src/utils/csvExport.ts:45 | records joined by newlines read back as exactly those records, in order |
| CsvFormat.NumeralPlainSafe | src/utils/csvExport.ts:36-40 | rendered numbers need no quoting under `,` or `;` |
| CsvFormat.ParsePlain | src/utils/csvExport.ts:33-41 | the reader's verbatim cell stops at the first delimiter or newline and loses nothing |
| ReportRow.Cells | src/utils/csvExport.ts:33-41 | every product row has exactly seven cells |
| ReportRow.Described | src/utils/csvExport.ts:31 | a row's facts carry the status rule's value and the value `quantity * price` |
| ReportRow.ReadStatus | src/utils/exportUtils.ts:28-32 | a status word reads back as a status that writes as that word, or as none when no status does |
| ReportRow.ReadLabel | src/utils/exportUtils.ts:28-32 | with three distinct words, each status's word reads back as that status |
| ReportRow.ReadCells | src/utils/csvExport.ts:33-41 | a product's row reads back as its name, category, quantity, price, threshold, status and value, in that order |
| ReportRow.Rows | src/utils/csvExport.ts:25 | one row per product, in input order |
| ReportRow.ReportRoundTrip | src/utils/csvExport.ts:45 | a report reads back as its header followed by one description per product, in order |
| CsvExport.StatusText | src/utils/csvExport.ts:26-30 | "Out of Stock" exactly for quantity 0, "Low Stock" exactly for non-zero quantity at most the threshold, "In Stock" exactly above it |
| CsvExport.ProductsToCSVReadsBack | src/utils/csvExport.ts:20-46 | the comma report reads back as the fixed English header and one description per product, in order |
| CsvExport.EmptyReportIsHeader | src/utils/csvExport.ts:45 | an empty product list gives the header line alone, the seven names joined by commas |
| CsvExport.HeadersPlain | src/utils/csvExport.ts:22 | the fixed header names and status words need no quoting and the words are distinct |
| CsvExport.ExportProductsToCSV | src/utils/csvExport.ts:79-87 | the download is named `inventory-{type}-report-{day}.csv` (`Filename`) and holds the byte-order mark followed by the comma report |
| CsvExport.ExportContent | src/utils/csvExport.ts:55-56 | past the byte-order mark the download is the report |
| CsvExport.FilenameParts | src/utils/csvExport.ts:84-85 | the name is `inventory-{type}-report-{day}.csv` with the timestamp's day part; the two report types never share a name |
| ExportUtils.Headers | src/utils/exportUtils.ts:18-26 | seven localised header names |
| ExportUtils.HeadersDistinct | src/utils/exportUtils.ts:18-32 | the seven names of each language are distinct, the three status words are distinct, and Russian and English differ |
| ExportUtils.EnglishIsCsvExport | src/utils/exportUtils.ts:18-32 | the English headers and words are those of the comma report |
| ExportUtils.GetStatus | src/utils/exportUtils.ts:34-38 | one of the three words: out for quantity 0, low for non-zero quantity at most the threshold, in stock otherwise |
| ExportUtils.GetStatusIsLabel | src/utils/exportUtils.ts:34-38 | the chain picks the word of the shared status rule |
| ExportUtils.FilenamesDiffer | src/utils/exportUtils.ts:40-47 | a different report type or language on the same day gives a different file name |
| ExportUtils.FilenameDay | src/utils/exportUtils.ts:41 | the name's date is the timestamp's day part |
| ExportUtils.ExportToCSV | src/utils/exportUtils.ts:131-141 | the download is named by `generateFilename` with extension `csv` and holds the byte-order mark followed by the semicolon content |
| ExportUtils.WordsPlain | src/utils/exportUtils.ts:104-115 | the localised header names and status words need no quoting under `;` |
| ExportUtils.CsvContentReadsBack | src/utils/exportUtils.ts:107-131 | the semicolon report reads back as the localised header and one description per product, in order |
| ExportUtils.ExcelRecord | src/utils/exportUtils.ts:61-69 | seven key-value pairs per product |
| ExportUtils.ExcelRecordMatchesCsv | src/utils/exportUtils.ts:61-69 | the keys are the localised headers in order and each value shows as the CSV cell of the same column |
| ExportUtils.ExcelData | src/utils/exportUtils.ts:61 | one record per product, in order |
| ExportUtils.ExportToExcel | src/utils/exportUtils.ts:52-92 | the workbook holds the localised records of `ExcelData`, one per product, on the sheet named for the language, with one column width per header, under the `generateFilename` name with extension `xlsx` |
| Tally.Accumulate | src/components/InventoryCharts.tsx:53-56 | the in-place `reduce` computes the accumulator the left-to-right fold describes |
| Tally.TalliedCorrect | src/components/InventoryCharts.tsx:53-56 | the accumulator lists each category that occurs once, and holds its total weight |
| Tally.Entries | src/components/InventoryCharts.tsx:52-58 | `Object.entries` has one pair per key, in key order |
| Tally.TallyPreservesSum | src/pages/Reports.tsx:78-81 | the per-category totals add up to the total over all products |
| Tally.EntriesOfTally | src/components/InventoryCharts.tsx:52-58 | one entry per category that occurs, none twice, each with that category's total |
| Tally.SortDesc | src/components/InventoryCharts.tsx:59 | the comparator sort is a permutation of its input with the largest value first |
| Tally.InsertDescSorted | src/components/InventoryCharts.tsx:59 | inserting into a descending list keeps it descending |
| Tally.Take | src/components/InventoryCharts.tsx:60 | `slice(0, n)` keeps the first `min(n, length)` elements |
| Tally.PermutationNoDuplicates | src/components/InventoryCharts.tsx:59 | sorting introduces no duplicates |
| Tally.TakeNoDuplicates | src/components/InventoryCharts.tsx:60 | slicing introduces no duplicates |
| Tally.Top | src/components/InventoryCharts.tsx:59-60 | sort then slice: `min(n, length)` elements of the input, largest first, none repeated |
| Tally.TopKeepsLargest | src/components/InventoryCharts.tsx:59-60 | no element left out has a larger value than one kept |
| Tally.NoDuplicatesCardinality | src/components/InventoryCharts.tsx:52-58 | a list without duplicates has as many distinct elements as entries |
| InventoryCharts.CategoryData | src/components/InventoryCharts.tsx:52-60 | at most eight categories, largest first, none twice, each with its total quantity; no category left out has more units than one shown |
| InventoryCharts.Shorten | src/components/InventoryCharts.tsx:94 | names up to 12 characters are kept; longer ones become their first 12 characters and "..." |
| InventoryCharts.ValueByCategory | src/components/InventoryCharts.tsx:86-99 | at most six bars, largest first, one per category, each with its total value, shortened label and full name; no category left out is worth more than one shown |
| InventoryCharts.StatusSlices | src/components/InventoryCharts.tsx:63-82 | three slices in order, named "В наличии"/"In Stock", "Мало"/"Low Stock" and "Нет"/"Out of Stock" by language, counting the products above their threshold, with `0 < quantity <= threshold`, and with `quantity === 0` |
| InventoryCharts.StockStatusData | src/components/InventoryCharts.tsx:83 | exactly the non-empty slices are kept |
| InventoryCharts.StockStatusTotal | src/components/InventoryCharts.tsx:63-83 | with non-negative quantities and thresholds the slices shown count every product exactly once |
| InventoryCharts.NegativeQuantityNotCharted | src/components/InventoryCharts.tsx:63-83 | a lone product with a negative quantity and a non-negative threshold draws no slice at all |
| InventoryCharts.DroppingEmptyKeepsTotal | src/components/InventoryCharts.tsx:83 | dropping empty slices does not change the total |
| InventoryCharts.Render | src/components/InventoryCharts.tsx:120-122 | nothing is drawn exactly when there are no products; otherwise the category and value series are those `CategoryData` and `ValueByCategory` specify, both non-empty, and the status series is `stockStatusData`, non-empty when quantities and thresholds are non-negative |
| Dashboard.StatsOf | src/components/Dashboard.tsx:76-79 | the product count is the list length and the total value is the sum of `quantity * price` |
| Dashboard.OutOfStockIsLowStock | src/components/Dashboard.tsx:77-78 | with non-negative thresholds every empty shelf is also counted as low, so the low list is at least as long |
| Dashboard.LowStockCountSplits | src/components/Dashboard.tsx:77-78 | with non-negative quantities and thresholds the dashboard's low count is the `quantity > 0` low count plus the out-of-stock count |
| Dashboard.TotalValueNonNegative | src/components/Dashboard.tsx:79 | non-negative quantities and prices give a non-negative total value |
| Dashboard.TotalValueText | src/components/Dashboard.tsx:155 | the card shows "$" and a two-decimal amount that reads back as the total value |
| Dashboard.Alert | src/components/Dashboard.tsx:181-197 | no card exactly when nothing is at or below its threshold; otherwise exactly the first `min(5, lowStockProducts.length)` such products, in order |
| Dashboard.FilteredProducts | src/components/Dashboard.tsx:81-84 | an order-preserving subsequence holding exactly the products that match, each as many times as in the input |
| Dashboard.MatchesIffOccurs | src/components/Dashboard.tsx:81-84 | a product matches exactly when the lowered query occurs in its lowered name or category |
| Dashboard.EmptyQueryKeepsAll | src/components/Dashboard.tsx:81-84 | an empty search keeps every product, in order |
| Dashboard.SearchIgnoresCase | src/components/Dashboard.tsx:82-83 | the query, its upper-case and its lower-case form select the same products |
| Dashboard.SearchIdempotent | src/components/Dashboard.tsx:81-84 | searching the result again changes nothing |
| Dashboard.Area | src/components/Dashboard.tsx:231-249 | the add button and the table's admin mode appear exactly for administrators; the table gets the search result; an empty-result notice exactly when not loading and nothing matches, naming the query when there is one |
| Reports.ExportSet | src/pages/Reports.tsx:34-36 | the full report exports every product; the low-stock report exactly those at or below their threshold, empty shelves included, in order and each as many times as in the input |
| Reports.HandleExportCSV | src/pages/Reports.tsx:33-54 | no file and an error notice exactly when the export set is empty; otherwise the English comma report of the export set and a success notice |
| Reports.ExportIgnoresLanguage | src/pages/Reports.tsx:47 | the exported file is the same in both interface languages |
| Reports.ExportedLines | src/pages/Reports.tsx:47 | the file reads back as the English report of the export set; in a low-stock export every line is at or below its threshold |
| Reports.SuccessCount | src/pages/Reports.tsx:48-53 | the success notice states the number of products exported, as a numeral that reads back as that number |
| Reports.HandleExportLocalized | src/pages/Reports.tsx:47 | corrected export: the semicolon report of the interface language, with the same notices |
| Reports.LocalizedExportReadsBack | src/pages/Reports.tsx:47 | the corrected export reads back in the interface language |
| Reports.LocalizedExportFollowsLanguage | src/pages/Reports.tsx:47 | the corrected export differs between the two languages |
| Reports.SummaryOf | src/pages/Reports.tsx:72-76 | product count, value total and unit total of the list; the low and out lists are the `0 < quantity <= threshold` and `quantity === 0` selections |
| Reports.LowAndOutDisjoint | src/pages/Reports.tsx:73-74 | every low product has `0 < quantity <= threshold`, every out product has quantity 0, and no product is both |
| Reports.UnitsNonNegative | src/pages/Reports.tsx:76 | non-negative quantities give a non-negative unit total |
| Reports.CategoryCounts | src/pages/Reports.tsx:78-81 | one count per category that occurs, none twice, each at least one, summing to the number of products |
| Reports.CategoryCounted | src/pages/Reports.tsx:78-81 | a category that occurs counts at least one product |
| Reports.StockBadgeFollowsStatus | src/pages/Reports.tsx:83-91 | the badge is red, amber or green exactly for out, low and in stock |
| ProductTable.StockBadgeCases | src/components/ProductTable.tsx:92-103 | red exactly for quantity 0, amber exactly for non-zero quantity at most the threshold, green above it; the shared status rule |
| ProductTable.Render | src/components/ProductTable.tsx:106-178 | a spinner exactly while loading; the no-products message exactly when loaded and empty; otherwise one row per product, in order, each the product's name, category, quantity, `$` price and badge, with the actions column and buttons exactly for administrators |
| ProductTable.RowPrice | src/components/ProductTable.tsx:152 | the price cell is "$" and a two-decimal amount that reads back as the price |
| ProductTable.ProductTableState.constructor | src/components/ProductTable.tsx:75-77 | no product is being edited or deleted at first |
| ProductTable.ProductTableState.ClickEdit | src/components/ProductTable.tsx:164 | the edit button targets its row's product and changes nothing else |
| ProductTable.ProductTableState.ClickDelete | src/components/ProductTable.tsx:172 | the delete button targets its row's product and changes nothing else |
| ProductTable.ProductTableState.EditOpenChange | src/components/ProductTable.tsx:189 | closing the edit dialog clears its target; opening keeps it |
| ProductTable.ProductTableState.DeleteOpenChange | src/components/ProductTable.tsx:202 | closing the delete dialog clears its target; opening keeps it |
| ProductTable.ProductTableState.EditSuccess | src/components/ProductTable.tsx:191-194 | a successful edit clears the target and refreshes the list once |
| ProductTable.ProductTableState.DeleteSuccess | src/components/ProductTable.tsx:204-207 | a successful delete clears the target and refreshes the list once |
| AuditLog.OrDash | src/pages/AuditLog.tsx:96 | `value \|\| "-"`: the value's text when it is truthy, a dash otherwise |
| AuditLog.DifferingKeys | src/pages/AuditLog.tsx:103-105 | exactly the tracked keys whose old and new values differ |
| AuditLog.ChangesOfDifferingKeys | src/pages/AuditLog.tsx:104-108 | the pushed lines are one `key: old → new` line per differing key, in the keys' order |
| AuditLog.CollectChanges | src/pages/AuditLog.tsx:104-108 | the `forEach` loop yields one "key: old → new" line for each given key whose old and new values differ, in the keys' order (`Changes`) |
| AuditLog.ChangeSummary | src/pages/AuditLog.tsx:94-112 | the summary with the update case's loop computes the summary the cases below describe |
| AuditLog.CreateDeleteSummary | src/pages/AuditLog.tsx:95-100 | a creation or deletion with data shows the row's name, or a dash when it is falsy |
| AuditLog.UpdateSummary | src/pages/AuditLog.tsx:101-109 | an update shows one line per changed tracked key, in the fixed order, joined by ", ", or a dash when none changed |
| AuditLog.DashCases | src/pages/AuditLog.tsx:109-111 | an unknown action, missing data, or an update with nothing changed shows a dash |
| AuditLog.ActionBadgeOf | src/pages/AuditLog.tsx:60-86 | the grey badge exactly for actions other than create, update and delete, showing the raw action |
| AuditLog.ActionLooksDistinct | src/pages/AuditLog.tsx:60-86 | create, update and delete get green, amber and red |
| AuditLog.CountsBounded | src/pages/AuditLog.tsx:172-195 | the create and update counts are each, and together, at most the number of entries |
| AuditLog.EffectFor | src/pages/AuditLog.tsx:37-57 | the log is fetched, 100 entries, exactly for administrators; a known other role is sent home |
| ProductSchema.Validate | src/components/AddProductDialog.tsx:39-45 | accepted exactly when the trimmed name has 1 to 200 characters, the trimmed category 1 to 100, quantity and threshold are at least 0 and the price is above 0; the accepted values are the trimmed ones |
| ProductSchema.Trimmed | src/components/AddProductDialog.tsx:100-104 | trimming leaves the numbers as they are |
| ProductSchema.FirstIssueReported | src/components/AddProductDialog.tsx:153-158 | the message reported is the first failing rule in the order name, category, quantity, price, threshold |
| ProductSchema.ValidateIdempotent | src/components/EditProductDialog.tsx:119-136 | validating accepted values again accepts them unchanged |
| ProductSchema.BlankFormRejected | src/components/AddProductDialog.tsx:73-79 | the blank form is rejected for its missing name, and its zero price is also a problem |
| ProductSchema.FormOf | src/components/EditProductDialog.tsx:80-86 | the edit form holds the product's own fields |
| ProductSchema.SubmitOutcome | src/components/AddProductDialog.tsx:95-170 | values are sent exactly when valid, and trimmed; invalid input gives the validation notice; the code 23505 gives the duplicate notice, another failure the generic one; only a stored reply succeeds |
| ProductSchema.BlankSubmitOutcome | src/components/AddProductDialog.tsx:100-158 | the blank form is never sent, whatever the store would answer |
| AddProductDialog.AddProductDialog.constructor | src/components/AddProductDialog.tsx:73-79 | the form starts blank with threshold 10 |
| AddProductDialog.AddProductDialog.Change | src/components/AddProductDialog.tsx:188-250 | typing replaces the form's values only |
| AddProductDialog.AddProductDialog.Submit | src/components/AddProductDialog.tsx:95-170 | one notice per submit; the trimmed row is inserted only when valid; on success the form resets, the dialog closes and the list refreshes once; otherwise form and dialog stay; the button is enabled again |
| EditProductDialog.EditProductDialog.constructor | src/components/EditProductDialog.tsx:80-86 | the form starts as the product's values |
| EditProductDialog.EditProductDialog.Sync | src/components/EditProductDialog.tsx:95-103 | a new product refills the form with its values |
| EditProductDialog.EditProductDialog.Change | src/components/EditProductDialog.tsx:80-86 | typing replaces the form's values only |
| EditProductDialog.EditProductDialog.Submit | src/components/EditProductDialog.tsx:114-176 | one notice per submit; the trimmed values are sent only when valid, for the row whose id is the product's; on success the dialog closes and the list refreshes once, otherwise it stays open |
| EditProductDialog.UneditedProductResent | src/components/EditProductDialog.tsx:119-137 | an acceptable product submitted unedited is sent back unchanged |
| Auth.CheckCredentials | src/pages/Auth.tsx:14-17 | accepted exactly when the username has 2 to 50 characters, all ASCII letters, digits or underscores, and the password has 6 to 100 |
| Auth.FirstAuthIssue | src/pages/Auth.tsx:15-16 | the message reported is the first failing rule: username length, username pattern, then password length |
| Auth.UsernameToEmail | src/pages/Auth.tsx:20 | the address is the lower-cased username followed by "@sims.local" |
| Auth.EmailIffSameLowered | src/pages/Auth.tsx:20 | two usernames share an address exactly when they agree once lower-cased |
| Auth.CaseVariantsShareEmail | src/pages/Auth.tsx:20 | a username and its upper-case form share an address |
| Auth.ValidUsernameEmail | src/pages/Auth.tsx:15-20 | for an accepted username, the address's name part has no upper-case letters and only pattern characters |
| Auth.HandleLogin | src/pages/Auth.tsx:39-79 | a sign-in is sent exactly for valid input, with the derived address; a rejection says only "Invalid username or password"; the dashboard follows exactly a successful sign-in |
| Auth.SignupErrorToast | src/pages/Auth.tsx:103-117 | "Username Taken" exactly when the error message contains "already registered", otherwise "Signup Failed" with the message |
| Auth.HandleSignup | src/pages/Auth.tsx:82-136 | a sign-up is sent exactly for valid input, with the derived address, the origin plus "/" and the username as full name; errors map through the sign-up notice; the dashboard follows exactly a success |
| Auth.InvalidNeverSent | src/pages/Auth.tsx:43-48 | invalid input never reaches the backend and gives a validation notice |
| Auth.MountRedirect | src/pages/Auth.tsx:30-35 | an existing session sends the visitor to "/" |
| AuthContext.OnlyAdminModifies | src/contexts/AuthContext.tsx:31-33 | modifying is allowed exactly to administrators; no role is both administrator and viewer; no role means no flags |
| AuthContext.RoleFromReply | src/contexts/AuthContext.tsx:43-48 | the role the row names, or `user` when the query fails or finds no row |
| AuthContext.AuthProvider.constructor | src/contexts/AuthContext.tsx:24-27 | nobody signed in, no role, loading |
| AuthContext.AuthProvider.CheckUserRole | src/contexts/AuthContext.tsx:36-49 | the role becomes the reply's role, defaulting to `user`; nothing else changes |
| AuthContext.AuthProvider.OnAuthStateChange | src/contexts/AuthContext.tsx:53-69 | session and user recorded, loading ends; without a user the role is cleared, with one a role check is scheduled |
| AuthContext.AuthProvider.OnInitialSession | src/contexts/AuthContext.tsx:72-80 | session and user recorded, loading ends, the role is kept and a check is scheduled for a user |
| AuthContext.AuthProvider.SignOut | src/contexts/AuthContext.tsx:85-91 | user, session and role cleared, then "/auth" |
| AuthContext.SignOutRevokes | src/contexts/AuthContext.tsx:85-91 | after signing out no permission flag is set |
| Presentation.Presentation.constructor | src/pages/Presentation.tsx:96-97 | the first slide, in Russian |
| Presentation.Presentation.NextSlide | src/pages/Presentation.tsx:896 | forward one slide unless on the last; the index stays in range |
| Presentation.Presentation.PrevSlide | src/pages/Presentation.tsx:897 | back one slide unless on the first; the index stays in range |
| Presentation.Presentation.SelectSlide | src/pages/Presentation.tsx:942-945 | a dot goes to its slide |
| Presentation.Presentation.Press | src/pages/Presentation.tsx:896-945 | the next arrow moves forward unless on the last of the 18 slides, the previous arrow back unless on the first, a dot to its own slide, the language button nowhere; the index stays valid and only the language button changes the language |
| Presentation.Presentation.ToggleLang | src/pages/Presentation.tsx:103 | the other language, same slide |
| Presentation.Presentation.PressAll | src/pages/Presentation.tsx:896-945 | any sequence of presses keeps the index on one of the 18 slides; the language changed exactly when the button was pressed an odd number of times |
| ScreenshotPresentation.ScreenshotPresentation.constructor | src/pages/ScreenshotPresentation.tsx:218-219 | the first slide, in Russian |
| ScreenshotPresentation.ScreenshotPresentation.GoToSlide | src/pages/ScreenshotPresentation.tsx:226-230 | goes to the index exactly when it is one of the ten slides; otherwise nothing changes |
| ScreenshotPresentation.ScreenshotPresentation.ToggleLang | src/pages/ScreenshotPresentation.tsx:224 | the other language, same slide |
| ScreenshotPresentation.ScreenshotPresentation.Press | src/pages/ScreenshotPresentation.tsx:320-344 | the arrows move one slide within the deck, a dot goes to its slide if it exists; only the language button changes the language |
| ScreenshotPresentation.ScreenshotPresentation.PressAll | src/pages/ScreenshotPresentation.tsx:218-344 | from any slide, any sequence of presses with any indices keeps the index on one of the ten slides, and the language has flipped exactly when the language button was pressed an odd number of times |

## Left out

Edges of the system:

- Browser download plumbing (Blob, object URLs and the temporary link), `XLSX.writeFile`, `window.print` and all rendering markup are browser or library I/O. The model stops at the file name, the text and the workbook description.
- Supabase queries and auth calls are I/O. Their replies are parameters, and their ordering in time is not modelled. In particular, that includes the `setTimeout` role check and the race between the auth listener and `getSession`.
- `new Date().toISOString()` is a parameter. Date formatting in the audit table is display only.
- Translations from `src/contexts/LanguageContext.tsx` are not part of this model. Dialog notices are named by kind: validation failed, duplicate, saved, failed.
- The input handlers' `parseInt(...) || 0` and `parseFloat(...) || 0` are DOM event plumbing. Forms are set whole through `Change`.
- The delete dialog, the stats cards, the language switcher, the UML diagram page and the `isLoading`/`loading` spinners are outside the core. Only the table's spinner and the product area are modelled.

Numbers:

- Prices are whole cents. Sub-cent prices are not modelled, and neither is floating-point rounding in `quantity * Number(price)`, `toFixed(2)` and `Math.round`. With cents, all three are exact.
- `toFixed` and `String(n)` switch to exponent notation from 1e21. That case is not modelled.
- Text.Lower, Text.Upper: map ASCII and basic Cyrillic letters only, a subset of JavaScript's full Unicode case mapping. This is enough for the usernames accepted (ASCII only) and the interface's two languages.
- Dashboard.SearchIgnoresCase: holds for the model's case mapping only. Under JavaScript's full mapping it fails: the query "ß" matches "Straße", but its upper-case form "SS" does not.
- Auth.CaseVariantsShareEmail: holds for the model's case mapping only. Under JavaScript's full mapping, characters such as "ß", "ſ" and "ı" change when upper-cased and do not lower-case back. Such usernames are rejected by the schema in any case.
- String lengths count characters, where JavaScript counts UTF-16 code units. They differ only outside the Basic Multilingual Plane.

Library behaviour:

- AuditLog.Show: JSON values in audit rows are strings, integers, booleans and null. Non-integer numbers, nested objects and arrays are not modelled.
- ProductSchema.Validate: zod's `.int()` check never fails here, because the form's quantity and threshold are always integers. `Infinity` is not a value of the model.
- Auth.CheckCredentials: the `.max(50)` and `.max(100)` messages are zod's English defaults.

Ordering:

- Tally.Entries: `Object.entries` puts integer-like keys first in numeric order. Category names that look like array indices are not modelled; keys are listed in insertion order.
- Tally.Accumulate, Tally.TalliedCorrect: the source accumulates into a plain object `{}`. There, a category named after an `Object.prototype` member such as "constructor" or "toString" starts from an inherited function rather than 0, and its total becomes a string. A category named "__proto__" is dropped from `Object.entries`. The model treats every category name as a fresh key that starts at 0.
- Tally.SortDesc: which of two entries with equal values comes first is not stated. `Array.prototype.sort` is stable, and the model's insertion sort keeps input order. The contracts state only the descending order and the permutation.

Other:

- ExportUtils.ExportToExcel: the worksheet's `!cols` assignment is modelled as a field of the workbook value, not as a mutation of a library object.
- Presentation.Presentation.SelectSlide: requires the index of an existing dot, which is all the page can pass.
- Negative quantities: the product form forbids them, but rows written by other means may hold them. The lemmas that count every product once (Inventory.StatusPartition, InventoryCharts.StockStatusTotal, Inventory.AtOrBelowThresholdSplits, Dashboard.LowStockCountSplits) require non-negative quantities. Inventory.NegativeQuantityUnselected and InventoryCharts.NegativeQuantityNotCharted state what the source does otherwise.
- The role table on one of Presentation's slides says users may modify products. The code lets only administrators modify, and the model follows the code.

## Findings

| source | as written | input that shows it | evidently intended | confidence | as-written member | corrected member |
|---|---|---|---|---|---|---|
| src/pages/Reports.tsx:47 | the page passes the interface language as a third argument to `exportProductsToCSV`, which takes two and ignores it | any non-empty export with the interface in Russian: the file has English headers and status words, comma-separated, named `inventory-…` | the localised semicolon export of `src/utils/exportUtils.ts`, which takes the language | medium, not executed | Reports.ExportIgnoresLanguage | Reports.HandleExportLocalized |
