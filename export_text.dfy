/** The tabular text exporter: a list of dicts becomes a header line, a line
    of dashes and one line per dict, with the columns being the sorted union
    of the dicts' keys, each as wide as its widest entry, cells left-justified
    and joined with " | ". The model returns the file's name and its lines;
    the write itself is not modelled. */
module ExportText {
  import opened Wrappers
  import opened Text

  /** One dict of the input, its values already rendered as strings. */
  type Row = map<string, string>

  /** An element of the list handed to the exporter: a dict or something else. */
  datatype Item = Record(fields: Row) | NonRecord

  /** The exporter's `data` argument: a single dict, a list, or another value. */
  datatype Payload = SingleDict(row: Row) | ItemList(items: seq<Item>) | OtherValue

  /** What a call returns: the file it would write, a refusal message, or
      the "Error exporting data: ..." reply its exception handler gives when
      a non-dict element after the first has no `keys` (the exception's own
      text is not modelled). */
  datatype ExportOutcome =
    | Exported(filename: string, lines: seq<string>)
    | Refused(message: string)
    | ExportError

  const InvalidFormatMessage := "Error: Invalid data format. Expected a list of dictionaries or a single dictionary."
  const InvalidItemMessage := "Error: Invalid data format. Each item should be a dictionary."
  const ColumnSeparator := " | "

  // ---------------------------------------------------------------------------
  // Input and file name

  /** A single dict is treated as a list of one. */
  function AsItems(data: Payload): Option<seq<Item>> {
    match data
    case SingleDict(row) => Some([Record(row)])
    case ItemList(items) => Some(items)
    case OtherValue => None
  }

  predicate AllRecords(items: seq<Item>) {
    forall i :: 0 <= i < |items| ==> items[i].Record?
  }

  function Rows(items: seq<Item>): (rows: seq<Row>)
    requires AllRecords(items)
    ensures |rows| == |items|
    ensures forall i :: 0 <= i < |items| ==> rows[i] == items[i].fields
  {
    seq(|items|, i requires 0 <= i < |items| => items[i].fields)
  }

  function DefaultFilename(timestamp: string): string {
    "exported_data_" + timestamp + ".txt"
  }

  /** The `.txt` rule: append the extension unless the name already ends with it. */
  function EnsureTxt(name: string): (r: string)
    ensures EndsWith(r, ".txt")
    ensures StartsWith(r, name)
    ensures EndsWith(name, ".txt") ==> r == name
  {
    if EndsWith(name, ".txt") then name else name + ".txt"
  }

  /** Applying the `.txt` rule twice gives the same name as applying it once. */
  lemma EnsureTxtIdempotent(name: string)
    ensures EnsureTxt(EnsureTxt(name)) == EnsureTxt(name)
  {
  }

  /** The name the file gets: the caller's, or a timestamped default when none
      is given, with `.txt` ensured. */
  function ResolveFilename(filename: string, timestamp: string): string {
    EnsureTxt(if filename == "" then DefaultFilename(timestamp) else filename)
  }

  // ---------------------------------------------------------------------------
  // Columns and widths

  /** The union of the rows' keys. */
  function AllKeys(rows: seq<Row>): set<string>
  {
    if rows == [] then {} else AllKeys(rows[..|rows| - 1]) + rows[|rows| - 1].Keys
  }

  /** A key is collected exactly when some row has it. */
  lemma {:induction false} AllKeysMembers(rows: seq<Row>)
    ensures forall k :: k in AllKeys(rows) <==> exists i :: 0 <= i < |rows| && k in rows[i]
  {
    if rows != [] {
      var init := rows[..|rows| - 1];
      AllKeysMembers(init);
      forall k | k in AllKeys(rows) ensures exists i :: 0 <= i < |rows| && k in rows[i] {
        if k !in rows[|rows| - 1] {
          assert k in AllKeys(init);
          var i :| 0 <= i < |init| && k in init[i];
          assert rows[i] == init[i];
        }
      }
      forall i, k | 0 <= i < |rows| && k in rows[i] ensures k in AllKeys(rows) {
        if i < |rows| - 1 {
          assert k in init[i];
        }
      }
    }
  }

  /** The columns of the table: every key of every row, once, in sorted order. */
  ghost function Columns(rows: seq<Row>): (keys: seq<string>)
    ensures StrictlySorted(keys)
    ensures forall k :: k in keys <==> k in AllKeys(rows)
  {
    SortedListing(AllKeys(rows))
  }

  /** The text of a cell; a key the row lacks reads as the empty string. */
  function Cell(row: Row, key: string): string {
    if key in row then row[key] else ""
  }

  function Max(a: nat, b: nat): nat {
    if a < b then b else a
  }

  /** The width of column `key`: its name's length, widened by each row in turn. */
  function Width(key: string, rows: seq<Row>): nat
  {
    if rows == [] then |key|
    else Max(Width(key, rows[..|rows| - 1]), |Cell(rows[|rows| - 1], key)|)
  }

  /** A column is exactly as wide as the longest of its name and its cells. */
  lemma {:induction false} WidthIsMaximum(key: string, rows: seq<Row>)
    ensures Width(key, rows) >= |key|
    ensures forall i :: 0 <= i < |rows| ==> Width(key, rows) >= |Cell(rows[i], key)|
    ensures Width(key, rows) == |key|
            || exists i :: 0 <= i < |rows| && Width(key, rows) == |Cell(rows[i], key)|
  {
    if rows != [] {
      var init := rows[..|rows| - 1];
      WidthIsMaximum(key, init);
      assert forall i :: 0 <= i < |init| ==> init[i] == rows[i];
    }
  }

  /** The widths of the given columns. */
  function WidthMap(keys: seq<string>, rows: seq<Row>): (widths: map<string, nat>)
    ensures forall k :: k in widths <==> k in keys
  {
    map k | k in keys :: Width(k, rows)
  }

  // ---------------------------------------------------------------------------
  // Lines

  predicate Covers(widths: map<string, nat>, keys: seq<string>) {
    forall k :: k in keys ==> k in widths
  }

  /** `str(item.get(key, '')).ljust(width)`. */
  function PaddedCell(row: Row, key: string, width: nat): string {
    LJust(Cell(row, key), width)
  }

  /** A key the row lacks is rendered as a run of spaces as wide as its column. */
  lemma MissingKeyIsBlank(row: Row, key: string, width: nat)
    requires key !in row
    ensures PaddedCell(row, key, width) == Repeat(' ', width)
  {
  }

  /** The column names, each padded to its width. */
  function HeaderCells(keys: seq<string>, widths: map<string, nat>): (cells: seq<string>)
    requires Covers(widths, keys)
    ensures |cells| == |keys|
    ensures forall i :: 0 <= i < |keys| ==> cells[i] == LJust(keys[i], widths[keys[i]])
  {
    seq(|keys|, i requires 0 <= i < |keys| => LJust(keys[i], widths[keys[i]]))
  }

  /** One row's cells, each padded to its column's width. */
  function RowCells(row: Row, keys: seq<string>, widths: map<string, nat>): (cells: seq<string>)
    requires Covers(widths, keys)
    ensures |cells| == |keys|
    ensures forall i :: 0 <= i < |keys| ==> cells[i] == PaddedCell(row, keys[i], widths[keys[i]])
  {
    seq(|keys|, i requires 0 <= i < |keys| => PaddedCell(row, keys[i], widths[keys[i]]))
  }

  function HeaderLine(keys: seq<string>, widths: map<string, nat>): string
    requires Covers(widths, keys)
  {
    Join(ColumnSeparator, HeaderCells(keys, widths))
  }

  function RowLine(row: Row, keys: seq<string>, widths: map<string, nat>): string
    requires Covers(widths, keys)
  {
    Join(ColumnSeparator, RowCells(row, keys, widths))
  }

  /** A run of dashes as long as the header. */
  function SeparatorLine(header: string): (r: string)
    ensures |r| == |header|
    ensures forall i :: 0 <= i < |r| ==> r[i] == '-'
  {
    Repeat('-', |header|)
  }

  function RowLines(rows: seq<Row>, keys: seq<string>, widths: map<string, nat>): (lines: seq<string>)
    requires Covers(widths, keys)
    ensures |lines| == |rows|
    ensures forall i :: 0 <= i < |rows| ==> lines[i] == RowLine(rows[i], keys, widths)
  {
    seq(|rows|, j requires 0 <= j < |rows| => RowLine(rows[j], keys, widths))
  }

  /** A header, its separator, then the body lines. */
  function Stack(header: string, body: seq<string>): seq<string> {
    [header, SeparatorLine(header)] + body
  }

  /** The file's lines: header, separator, one line per row. */
  ghost function Layout(rows: seq<Row>): seq<string>
  {
    var keys := Columns(rows);
    var widths := WidthMap(keys, rows);
    Stack(HeaderLine(keys, widths), RowLines(rows, keys, widths))
  }

  /** What `export_to_text` does with its arguments. */
  ghost function Export(data: Payload, filename: string, timestamp: string): ExportOutcome
  {
    match AsItems(data)
    case None => Refused(InvalidFormatMessage)
    case Some(items) =>
      if items == [] then Refused(InvalidFormatMessage)
      else if items[0].NonRecord? || items[0].fields == map[] then Refused(InvalidItemMessage)
      else if !AllRecords(items) then ExportError
      else Exported(ResolveFilename(filename, timestamp), Layout(Rows(items)))
  }

  // ---------------------------------------------------------------------------
  // Properties of the layout

  function SumWidths(keys: seq<string>, widths: map<string, nat>): nat
    requires Covers(widths, keys)
  {
    if keys == [] then 0 else widths[keys[0]] + SumWidths(keys[1..], widths)
  }

  /** The length every line of the table has. */
  ghost function TableWidth(rows: seq<Row>): int {
    var keys := Columns(rows);
    SumWidths(keys, WidthMap(keys, rows)) + |ColumnSeparator| * (|keys| - 1)
  }

  /** Cells padded to their column widths add up to the sum of the widths. */
  lemma {:induction false} PaddedSum(parts: seq<string>, keys: seq<string>, widths: map<string, nat>)
    requires Covers(widths, keys) && |parts| == |keys|
    requires forall i :: 0 <= i < |keys| ==> |parts[i]| == widths[keys[i]]
    ensures SumLengths(parts) == SumWidths(keys, widths)
  {
    if keys != [] {
      PaddedSum(parts[1..], keys[1..], widths);
    }
  }

  /** A line built from cells no wider than their columns has the table's width. */
  lemma LineLength(parts: seq<string>, keys: seq<string>, widths: map<string, nat>)
    requires Covers(widths, keys) && |parts| == |keys| >= 1
    requires forall i :: 0 <= i < |keys| ==> |parts[i]| == widths[keys[i]]
    ensures |Join(ColumnSeparator, parts)| == SumWidths(keys, widths) + |ColumnSeparator| * (|keys| - 1)
  {
    JoinLength(ColumnSeparator, parts);
    PaddedSum(parts, keys, widths);
  }

  /** The header has the table's width when there is at least one column. */
  lemma HeaderLineLength(keys: seq<string>, rows: seq<Row>)
    requires |keys| >= 1
    ensures |HeaderLine(keys, WidthMap(keys, rows))|
            == SumWidths(keys, WidthMap(keys, rows)) + |ColumnSeparator| * (|keys| - 1)
  {
    var widths := WidthMap(keys, rows);
    forall key | key in keys ensures |key| <= widths[key] {
      WidthIsMaximum(key, rows);
    }
    LineLength(HeaderCells(keys, widths), keys, widths);
  }

  /** Each data line has the same width as the header. */
  lemma RowLineLength(keys: seq<string>, rows: seq<Row>, j: nat)
    requires |keys| >= 1 && j < |rows|
    ensures |RowLine(rows[j], keys, WidthMap(keys, rows))|
            == SumWidths(keys, WidthMap(keys, rows)) + |ColumnSeparator| * (|keys| - 1)
  {
    var widths := WidthMap(keys, rows);
    forall key | key in keys ensures |Cell(rows[j], key)| <= widths[key] {
      WidthIsMaximum(key, rows);
    }
    LineLength(RowCells(rows[j], keys, widths), keys, widths);
  }

  /** The second line is dashes only, as long as the header above it. */
  lemma LayoutSeparator(rows: seq<Row>)
    ensures |Layout(rows)| >= 2
    ensures |Layout(rows)[1]| == |Layout(rows)[0]|
    ensures forall c :: 0 <= c < |Layout(rows)[1]| ==> Layout(rows)[1][c] == '-'
  {
  }

  /** A table with at least one column has two more lines than rows, and the
      header and every data line have the same length: the sum of the widths
      plus three characters between neighbouring columns. */
  lemma LayoutShape(rows: seq<Row>)
    requires |Columns(rows)| >= 1
    ensures |Layout(rows)| == 2 + |rows|
    ensures forall j :: 0 <= j < |Layout(rows)| ==> |Layout(rows)[j]| == TableWidth(rows)
  {
    StackShape(Columns(rows), rows);
  }

  /** LayoutShape for a given non-empty list of columns. */
  lemma StackShape(keys: seq<string>, rows: seq<Row>)
    requires |keys| >= 1
    ensures var widths := WidthMap(keys, rows);
            var lines := Stack(HeaderLine(keys, widths), RowLines(rows, keys, widths));
            |lines| == 2 + |rows|
            && forall j :: 0 <= j < |lines| ==>
                 |lines[j]| == SumWidths(keys, widths) + |ColumnSeparator| * (|keys| - 1)
  {
    var widths := WidthMap(keys, rows);
    var width := SumWidths(keys, widths) + |ColumnSeparator| * (|keys| - 1);
    HeaderLineLength(keys, rows);
    BodyLinesLength(keys, rows);
    StackedLines(HeaderLine(keys, widths), RowLines(rows, keys, widths), width);
  }

  /** Every data line has the header's width. */
  lemma BodyLinesLength(keys: seq<string>, rows: seq<Row>)
    requires |keys| >= 1
    ensures forall j :: 0 <= j < |rows| ==>
              |RowLines(rows, keys, WidthMap(keys, rows))[j]|
              == SumWidths(keys, WidthMap(keys, rows)) + |ColumnSeparator| * (|keys| - 1)
  {
    forall j | 0 <= j < |rows| {
      RowLineLength(keys, rows, j);
    }
  }

  /** A row with a key gives the table a column. */
  lemma ColumnsNonEmpty(rows: seq<Row>)
    requires exists i :: 0 <= i < |rows| && rows[i] != map[]
    ensures |Columns(rows)| >= 1
  {
    var i :| 0 <= i < |rows| && rows[i] != map[];
    var k :| k in rows[i];
    AllKeysMembers(rows);
    assert k in Columns(rows);
  }

  /** A header, its separator and body lines of the header's length stack into
      lines of equal length. */
  lemma StackedLines(header: string, body: seq<string>, width: int)
    requires |header| == width
    requires forall j :: 0 <= j < |body| ==> |body[j]| == width
    ensures var lines := Stack(header, body);
            |lines| == 2 + |body|
            && forall j :: 0 <= j < |lines| ==> |lines[j]| == width
  {
    var lines := Stack(header, body);
    assert forall j :: 2 <= j < |lines| ==> lines[j] == body[j - 2];
  }

  // ---------------------------------------------------------------------------
  // Properties of the exporter as a whole

  /** Which calls are refused, which raise, and which export: an empty list or
      a non-list is refused as badly formatted, an empty or non-dict first
      element as a bad item, a non-dict later element raises, and everything
      else exports to a `.txt` name. A single dict exports as a list of one. */
  lemma ExportCases(data: Payload, filename: string, timestamp: string)
    ensures Export(data, filename, timestamp) == Refused(InvalidFormatMessage)
            <==> AsItems(data).None? || AsItems(data).value == []
    ensures Export(data, filename, timestamp) == Refused(InvalidItemMessage)
            <==> AsItems(data).Some? && AsItems(data).value != []
                 && (AsItems(data).value[0].NonRecord? || AsItems(data).value[0].fields == map[])
    ensures Export(data, filename, timestamp).Exported?
            <==> AsItems(data).Some? && AsItems(data).value != []
                 && AllRecords(AsItems(data).value) && AsItems(data).value[0].fields != map[]
    ensures Export(data, filename, timestamp).Exported? ==>
              EndsWith(Export(data, filename, timestamp).filename, ".txt")
    ensures data.SingleDict? ==>
              Export(data, filename, timestamp) == Export(ItemList([Record(data.row)]), filename, timestamp)
  {
  }

  /** An exported table always has a column and so has the shape LayoutShape
      describes. */
  lemma ExportedShape(data: Payload, filename: string, timestamp: string)
    requires Export(data, filename, timestamp).Exported?
    ensures var rows := Rows(AsItems(data).value);
            Export(data, filename, timestamp).lines == Layout(rows)
            && |Export(data, filename, timestamp).lines| == 2 + |rows|
            && forall j :: 0 <= j < |Export(data, filename, timestamp).lines| ==>
                 |Export(data, filename, timestamp).lines[j]| == TableWidth(rows)
  {
    var rows := Rows(AsItems(data).value);
    assert rows[0] != map[];
    ColumnsNonEmpty(rows);
    LayoutShape(rows);
  }

  // ---------------------------------------------------------------------------
  // The exporter

  /** `sorted(all_keys)`. */
  method SortKeys(keys: set<string>) returns (sorted: seq<string>)
    ensures sorted == SortedListing(keys)
  {
    sorted := [];
    var rest := keys;
    while rest != {}
      invariant rest <= keys
      invariant StrictlySorted(sorted)
      invariant forall y :: y in sorted <==> y in keys && y !in rest
      decreases rest
    {
      var k :| k in rest;
      sorted := Insert(sorted, k);
      rest := rest - {k};
    }
    SortedUnique(sorted, SortedListing(keys));
  }

  /** The first loop of `export_to_text`: the union of the keys, or None when
      an element is not a dict (where the source raises). */
  method CollectKeys(items: seq<Item>) returns (r: Option<set<string>>)
    ensures r.None? <==> !AllRecords(items)
    ensures r.Some? ==> r.value == AllKeys(Rows(items))
  {
    var allKeys: set<string> := {};
    var rows: seq<Row> := [];
    for i := 0 to |items|
      invariant AllRecords(items[..i])
      invariant rows == Rows(items[..i])
      invariant allKeys == AllKeys(rows)
    {
      if items[i].NonRecord? {
        return None;
      }
      assert rows + [items[i].fields] == Rows(items[..i + 1]);
      rows := rows + [items[i].fields];
      assert rows[..|rows| - 1] == Rows(items[..i]);
      allKeys := allKeys + items[i].fields.Keys;
    }
    assert items[..|items|] == items;
    return Some(allKeys);
  }

  /** One column's width: its name's length, widened by each row's cell. */
  method WidenColumn(key: string, rows: seq<Row>) returns (width: nat)
    ensures width == Width(key, rows)
  {
    width := |key|;
    for j := 0 to |rows|
      invariant width == Width(key, rows[..j])
    {
      assert rows[..j + 1][..j] == rows[..j];
      width := Max(width, |Cell(rows[j], key)|);
    }
    assert rows[..|rows|] == rows;
  }

  /** Sizing one more column extends the width map by that column. */
  lemma WidthMapSnoc(keys: seq<string>, i: nat, rows: seq<Row>)
    requires i < |keys|
    ensures WidthMap(keys[..i + 1], rows) == WidthMap(keys[..i], rows)[keys[i] := Width(keys[i], rows)]
  {
    assert keys[..i + 1] == keys[..i] + [keys[i]];
  }

  /** `col_widths`: each column starts at its name's length and is widened by
      every row. */
  method ColumnWidths(keys: seq<string>, rows: seq<Row>) returns (colWidths: map<string, nat>)
    ensures colWidths == WidthMap(keys, rows)
  {
    colWidths := map[];
    for i := 0 to |keys|
      invariant colWidths == WidthMap(keys[..i], rows)
    {
      var width := WidenColumn(keys[i], rows);
      WidthMapSnoc(keys, i, rows);
      colWidths := colWidths[keys[i] := width];
    }
    assert keys[..|keys|] == keys;
  }

  /** The header, the separator and one line per row. */
  method RenderLines(keys: seq<string>, rows: seq<Row>, colWidths: map<string, nat>)
    returns (lines: seq<string>)
    requires Covers(colWidths, keys)
    ensures lines == Stack(HeaderLine(keys, colWidths), RowLines(rows, keys, colWidths))
  {
    var header := HeaderLine(keys, colWidths);
    var body: seq<string> := [];
    for j := 0 to |rows|
      invariant |body| == j
      invariant forall i :: 0 <= i < j ==> body[i] == RowLine(rows[i], keys, colWidths)
    {
      body := body + [RowLine(rows[j], keys, colWidths)];
    }
    assert body == RowLines(rows, keys, colWidths);
    lines := [header, SeparatorLine(header)] + body;
  }

  /** The exporting branch of Export, unfolded once. */
  lemma ExportWhenWellFormed(data: Payload, filename: string, timestamp: string, items: seq<Item>)
    requires AsItems(data) == Some(items) && items != [] && AllRecords(items)
    requires items[0].fields != map[]
    ensures Export(data, filename, timestamp)
            == Exported(ResolveFilename(filename, timestamp), Layout(Rows(items)))
  {
  }

  /** `export_to_text`: validates the input, settles the file name, collects the
      keys, sizes the columns and lays out the lines. */
  method ExportToText(data: Payload, filename: string, timestamp: string) returns (r: ExportOutcome)
    ensures r == Export(data, filename, timestamp)
  {
    var items: seq<Item>;
    match data {
      case SingleDict(row) => items := [Record(row)];
      case ItemList(list) => items := list;
      case OtherValue => return Refused(InvalidFormatMessage);
    }
    assert AsItems(data) == Some(items);
    if items == [] {
      return Refused(InvalidFormatMessage);
    }
    if items[0].NonRecord? || items[0].fields == map[] {
      return Refused(InvalidItemMessage);
    }
    var name := if filename == "" then DefaultFilename(timestamp) else filename;
    if !EndsWith(name, ".txt") {
      name := name + ".txt";
    }
    var allKeys := CollectKeys(items);
    if allKeys.None? {
      return ExportError;
    }
    var rows := Rows(items);
    var keys := SortKeys(allKeys.value);
    var colWidths := ColumnWidths(keys, rows);
    var lines := RenderLines(keys, rows, colWidths);
    assert name == ResolveFilename(filename, timestamp);
    assert keys == Columns(rows);
    assert lines == Layout(rows);
    ExportWhenWellFormed(data, filename, timestamp, items);
    return Exported(name, lines);
  }

  // ---------------------------------------------------------------------------
  // The three wrappers with generated names

  function StockCountFilename(transactionId: string, timestamp: string): string {
    if transactionId != "" then "stock_count_" + transactionId + "_" + timestamp + ".txt"
    else "stock_count_" + timestamp + ".txt"
  }

  function PreApprovalFilename(timestamp: string): string {
    "pre_approval_" + timestamp + ".txt"
  }

  function PostApprovalFilename(timestamp: string): string {
    "post_approval_" + timestamp + ".txt"
  }

  /** The generated names carry their prefixes and end in `.txt`, so the
      exporter's `.txt` rule keeps them as they are. */
  lemma GeneratedNames(transactionId: string, timestamp: string, later: string)
    ensures StartsWith(StockCountFilename(transactionId, timestamp),
                       if transactionId != "" then "stock_count_" + transactionId + "_" else "stock_count_")
    ensures StartsWith(PreApprovalFilename(timestamp), "pre_approval_")
    ensures StartsWith(PostApprovalFilename(timestamp), "post_approval_")
    ensures ResolveFilename(StockCountFilename(transactionId, timestamp), later)
            == StockCountFilename(transactionId, timestamp)
    ensures ResolveFilename(PreApprovalFilename(timestamp), later) == PreApprovalFilename(timestamp)
    ensures ResolveFilename(PostApprovalFilename(timestamp), later) == PostApprovalFilename(timestamp)
  {
    var stock := StockCountFilename(transactionId, timestamp);
    var prefix := if transactionId != "" then "stock_count_" + transactionId + "_" else "stock_count_";
    assert stock == prefix + timestamp + ".txt";
    assert EndsWith(stock, ".txt") by {
      assert stock[|stock| - 4..] == ".txt";
    }
    var pre := PreApprovalFilename(timestamp);
    assert pre[|pre| - 4..] == ".txt";
    var post := PostApprovalFilename(timestamp);
    assert post[|post| - 4..] == ".txt";
  }

  method ExportStockCountToText(stockData: Payload, transactionId: string, timestamp: string)
    returns (r: ExportOutcome)
    ensures r == Export(stockData, StockCountFilename(transactionId, timestamp), timestamp)
    ensures r.Exported? ==> r.filename == StockCountFilename(transactionId, timestamp)
  {
    GeneratedNames(transactionId, timestamp, timestamp);
    r := ExportToText(stockData, StockCountFilename(transactionId, timestamp), timestamp);
  }

  method ExportPreApprovalData(data: Payload, timestamp: string) returns (r: ExportOutcome)
    ensures r == Export(data, PreApprovalFilename(timestamp), timestamp)
    ensures r.Exported? ==> r.filename == PreApprovalFilename(timestamp)
  {
    GeneratedNames("", timestamp, timestamp);
    r := ExportToText(data, PreApprovalFilename(timestamp), timestamp);
  }

  method ExportPostApprovalData(data: Payload, timestamp: string) returns (r: ExportOutcome)
    ensures r == Export(data, PostApprovalFilename(timestamp), timestamp)
    ensures r.Exported? ==> r.filename == PostApprovalFilename(timestamp)
  {
    GeneratedNames("", timestamp, timestamp);
    r := ExportToText(data, PostApprovalFilename(timestamp), timestamp);
  }
}
