/**
 * The comma-separated text both CSV exporters write: cells separated by a
 * delimiter character, records separated by `'\n'`, and text cells wrapped
 * in double quotes with every inner quote doubled
 * (`` `"${s.replace(/"/g, '""')}"` ``). Its partner is a reader for the
 * same format, and the round-trip lemmas show that a written document reads
 * back cell for cell.
 */
module CsvFormat {
  import opened Wrappers
  import opened Text

  /** A cell as written: wrapped in quotes, or verbatim. */
  datatype Cell = Quoted(text: string) | Plain(text: string)

  /** `s.replace(/"/g, '""')` */
  function Escape(s: string): (r: string)
    ensures |r| >= |s|
    decreases |s|
  {
    if s == [] then ""
    else (if s[0] == '"' then "\"\"" else [s[0]]) + Escape(s[1..])
  }

  function EncodeCell(c: Cell): string {
    match c
    case Quoted(t) => "\"" + Escape(t) + "\""
    case Plain(t) => t
  }

  function EncodeCells(cells: seq<Cell>): (r: seq<string>)
    ensures |r| == |cells|
    decreases |cells|
  {
    if cells == [] then [] else [EncodeCell(cells[0])] + EncodeCells(cells[1..])
  }

  /** `cells.join(delimiter)` */
  function EncodeRecord(cells: seq<Cell>, d: char): string {
    Join(EncodeCells(cells), [d])
  }

  function EncodeRecords(records: seq<seq<Cell>>, d: char): (r: seq<string>)
    ensures |r| == |records|
    decreases |records|
  {
    if records == [] then [] else [EncodeRecord(records[0], d)] + EncodeRecords(records[1..], d)
  }

  /** `[headerRow, ...rows].join('\n')` */
  function EncodeDocument(records: seq<seq<Cell>>, d: char): string {
    Join(EncodeRecords(records, d), "\n")
  }

  // ---------------------------------------------------------------------
  // What can be written verbatim

  /** A delimiter that can be told apart from quotes and record ends. */
  predicate SafeDelimiter(d: char) {
    d != '"' && d != '\n'
  }

  /** Text that reads back unchanged without quotes. */
  predicate PlainSafe(t: string, d: char) {
    forall c :: c in t ==> c != d && c != '"' && c != '\n'
  }

  predicate CellSafe(c: Cell, d: char) {
    c.Plain? ==> PlainSafe(c.text, d)
  }

  predicate RecordSafe(cells: seq<Cell>, d: char) {
    |cells| > 0 && forall i :: 0 <= i < |cells| ==> CellSafe(cells[i], d)
  }

  /** Every rendered number is safe: digits, a sign and a dot only. */
  lemma NumeralPlainSafe(t: string, d: char)
    requires IsNumeral(t)
    requires d == ',' || d == ';'
    ensures PlainSafe(t, d)
  {
    forall c | c in t
      ensures c != d && c != '"' && c != '\n'
    {
      var i :| 0 <= i < |t| && t[i] == c;
    }
  }

  // ---------------------------------------------------------------------
  // The reader

  /**
   * The text of a quoted cell, read after its opening quote: a doubled
   * quote stands for one quote, a single quote closes the cell. Returns the
   * text and what follows the closing quote.
   */
  function ParseQuoted(s: string): (r: Option<(string, string)>)
    ensures r.Some? ==> |r.value.1| < |s|
    decreases |s|
  {
    if s == [] then None
    else if s[0] == '"' then
      if |s| >= 2 && s[1] == '"' then
        match ParseQuoted(s[2..])
        case None => None
        case Some((t, rest)) => Some(("\"" + t, rest))
      else Some(("", s[1..]))
    else
      match ParseQuoted(s[1..])
      case None => None
      case Some((t, rest)) => Some(([s[0]] + t, rest))
  }

  /** A verbatim cell: everything up to the next delimiter or record end. */
  function ParsePlain(s: string, d: char): (r: (string, string))
    ensures r.0 + r.1 == s
    ensures forall c :: c in r.0 ==> c != d && c != '\n'
    ensures r.1 == [] || r.1[0] == d || r.1[0] == '\n'
    decreases |s|
  {
    if s == [] || s[0] == d || s[0] == '\n' then ("", s)
    else
      var (t, rest) := ParsePlain(s[1..], d);
      ([s[0]] + t, rest)
  }

  function ParseField(s: string, d: char): (r: Option<(Cell, string)>)
    ensures r.Some? ==> |r.value.1| <= |s|
  {
    if |s| > 0 && s[0] == '"' then
      match ParseQuoted(s[1..])
      case None => None
      case Some((t, rest)) => Some((Quoted(t), rest))
    else
      var (t, rest) := ParsePlain(s, d);
      Some((Plain(t), rest))
  }

  /** One record, and what follows its `'\n'` when another record follows. */
  datatype Line = Line(cells: seq<Cell>, next: Option<string>)

  function ParseRecord(s: string, d: char): (r: Option<Line>)
    ensures r.Some? ==> |r.value.cells| > 0
    ensures r.Some? && r.value.next.Some? ==> |r.value.next.value| < |s|
    decreases |s|
  {
    match ParseField(s, d)
    case None => None
    case Some((c, rest)) =>
      if rest == [] then Some(Line([c], None))
      else if rest[0] == '\n' then Some(Line([c], Some(rest[1..])))
      else if rest[0] == d then
        match ParseRecord(rest[1..], d)
        case None => None
        case Some(line) => Some(Line([c] + line.cells, line.next))
      else None
  }

  /** A whole document, records in order; `None` for a malformed quote. */
  function ParseDocument(s: string, d: char): (r: Option<seq<seq<Cell>>>)
    ensures r.Some? ==> |r.value| > 0
    decreases |s|
  {
    match ParseRecord(s, d)
    case None => None
    case Some(line) =>
      match line.next
      case None => Some([line.cells])
      case Some(rest) =>
        match ParseDocument(rest, d)
        case None => None
        case Some(more) => Some([line.cells] + more)
  }

  // ---------------------------------------------------------------------
  // Round trips

  /** A quoted cell reads back as the text that was escaped. */
  lemma {:induction false} QuotedRoundTrip(t: string, rest: string)
    requires rest == [] || rest[0] != '"'
    ensures ParseQuoted(Escape(t) + "\"" + rest) == Some((t, rest))
    decreases |t|
  {
    var s := Escape(t) + "\"" + rest;
    if t == [] {
      assert s == "\"" + rest;
    } else if t[0] == '"' {
      QuotedRoundTrip(t[1..], rest);
      assert s == "\"\"" + (Escape(t[1..]) + "\"" + rest);
      assert s[2..] == Escape(t[1..]) + "\"" + rest;
      assert "\"" + t[1..] == t;
    } else {
      QuotedRoundTrip(t[1..], rest);
      assert s == [t[0]] + (Escape(t[1..]) + "\"" + rest);
      assert s[1..] == Escape(t[1..]) + "\"" + rest;
      assert [t[0]] + t[1..] == t;
    }
  }

  lemma {:induction false} PlainRoundTrip(t: string, d: char, rest: string)
    requires PlainSafe(t, d)
    requires rest == [] || rest[0] == d || rest[0] == '\n'
    ensures ParsePlain(t + rest, d) == (t, rest)
    decreases |t|
  {
    if t == [] {
      assert t + rest == rest;
    } else {
      assert t[0] in t;
      assert forall c :: c in t[1..] ==> c in t;
      PlainRoundTrip(t[1..], d, rest);
      assert (t + rest)[1..] == t[1..] + rest;
      assert [t[0]] + t[1..] == t;
    }
  }

  /** A cell followed by a delimiter, a record end or nothing reads back as itself. */
  lemma FieldRoundTrip(c: Cell, d: char, rest: string)
    requires SafeDelimiter(d) && CellSafe(c, d)
    requires rest == [] || rest[0] == d || rest[0] == '\n'
    ensures ParseField(EncodeCell(c) + rest, d) == Some((c, rest))
  {
    match c
    case Quoted(t) =>
      QuotedRoundTrip(t, rest);
      assert (EncodeCell(c) + rest)[1..] == Escape(t) + "\"" + rest;
    case Plain(t) =>
      PlainRoundTrip(t, d, rest);
      if t != [] {
        assert t[0] in t;
      }
  }

  lemma {:induction false} RecordRoundTrip(cells: seq<Cell>, d: char, rest: string)
    requires SafeDelimiter(d) && RecordSafe(cells, d)
    requires rest == [] || rest[0] == '\n'
    ensures ParseRecord(EncodeRecord(cells, d) + rest, d)
         == Some(Line(cells, if rest == [] then None else Some(rest[1..])))
    decreases |cells|
  {
    var c := cells[0];
    assert CellSafe(cells[0], d);
    if |cells| == 1 {
      assert EncodeRecord(cells, d) == EncodeCell(c);
      FieldRoundTrip(c, d, rest);
      assert cells == [c];
    } else {
      var tail := EncodeRecord(cells[1..], d) + rest;
      assert EncodeRecord(cells, d) + rest == EncodeCell(c) + ([d] + tail);
      FieldRoundTrip(c, d, [d] + tail);
      assert RecordSafe(cells[1..], d) by {
        forall i | 0 <= i < |cells[1..]|
          ensures CellSafe(cells[1..][i], d)
        {
          assert cells[1..][i] == cells[i + 1];
        }
      }
      RecordRoundTrip(cells[1..], d, rest);
      assert ([d] + tail)[1..] == tail;
      assert [c] + cells[1..] == cells;
    }
  }

  /**
   * A document of non-empty records, whose verbatim cells hold no
   * delimiter, quote or line break, reads back record for record and cell
   * for cell.
   */
  lemma {:induction false} DocumentRoundTrip(records: seq<seq<Cell>>, d: char)
    requires SafeDelimiter(d)
    requires |records| > 0
    requires forall i :: 0 <= i < |records| ==> RecordSafe(records[i], d)
    ensures ParseDocument(EncodeDocument(records, d), d) == Some(records)
    decreases |records|
  {
    assert RecordSafe(records[0], d);
    if |records| == 1 {
      assert EncodeDocument(records, d) == EncodeRecord(records[0], d) + "";
      RecordRoundTrip(records[0], d, "");
      assert records == [records[0]];
    } else {
      var more := records[1..];
      var tail := EncodeDocument(more, d);
      var s := EncodeDocument(records, d);
      assert s == EncodeRecord(records[0], d) + ("\n" + tail);
      RecordRoundTrip(records[0], d, "\n" + tail);
      assert ("\n" + tail)[1..] == tail;
      assert ParseRecord(s, d) == Some(Line(records[0], Some(tail)));
      assert forall i :: 0 <= i < |more| ==> more[i] == records[i + 1];
      DocumentRoundTrip(more, d);
      assert ParseDocument(tail, d) == Some(more);
      assert [records[0]] + more == records;
    }
  }
}
