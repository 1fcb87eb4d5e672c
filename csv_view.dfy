/**
 * The dataset viewer's CSV handling: choosing the CSV resources of a CKAN
 * dataset, the naive reader that turns a downloaded text into a header and at
 * most 100 rows, and the writer used for the download. The reader is not
 * RFC 4180: it splits every line on every `,`, quoted or not, and deletes
 * every `"`, so the round trip holds only for tables whose cells avoid the
 * characters the reader treats specially.
 */
module DataVisualization {
  import opened JsValues
  import opened JsText
  import opened JsArray
  import opened Ckan

  // ---------------------------------------------------------------------------
  // Choosing the CSV resources

  predicate IsCsvResource(resource: CkanResource)
  {
    Includes(ToLower(resource.format), "csv")
  }

  /** `dataset.resources.filter(r => r.format.toLowerCase().includes('csv'))`. */
  function CsvResources(resources: seq<CkanResource>): (r: seq<CkanResource>)
    ensures |r| <= |resources|
    ensures forall i :: 0 <= i < |r| ==> r[i] in resources && IsCsvResource(r[i])
    ensures forall i :: 0 <= i < |resources| && IsCsvResource(resources[i]) ==> resources[i] in r
  {
    Filter(IsCsvResource, resources)
  }

  /** The selection keeps the resources' order: it distributes over concatenation. */
  lemma CsvResourcesOrder(a: seq<CkanResource>, b: seq<CkanResource>)
    ensures CsvResources(a + b) == CsvResources(a) + CsvResources(b)
  {
    FilterConcat(IsCsvResource, a, b);
  }

  /** A format is matched whatever its letter case: `CSV`, `csv` and `text/Csv` all qualify. */
  lemma CsvFormatCaseInsensitive(resource: CkanResource, format: string)
    requires ToLower(format) == ToLower(resource.format)
    ensures IsCsvResource(resource.(format := format)) <==> IsCsvResource(resource)
  {
  }

  // ---------------------------------------------------------------------------
  // Reading

  datatype CsvData = CsvData(headers: seq<string>, rows: seq<seq<string>>)

  /**
   * How `loadCSVData` ends: a table, an error the reader throws with its own
   * message, or `Crashed` when `fetch` rejects or `response.text()` fails,
   * where the engine chooses the message shown.
   */
  datatype LoadResult = Loaded(data: CsvData) | LoadFailed(message: string) | Crashed

  /** What the request for the resource gives: an exception, a response that is not ok, or its text. */
  datatype CsvFetch = FetchThrew | NotOk | Text(text: string)

  const FetchFailedMessage: string := "Falha ao carregar o arquivo CSV"
  const EmptyFileMessage: string := "Arquivo CSV vazio"
  const MaxRows: nat := 100

  predicate IsBlank(line: string)
  {
    Trim(line) == ""
  }

  function NotBlank(line: string): bool
  {
    !IsBlank(line)
  }

  /** `text.split('\n').filter(line => line.trim())`. */
  function NonBlankLines(text: string): (lines: seq<string>)
    ensures forall i :: 0 <= i < |lines| ==> !IsBlank(lines[i]) && '\n' !in lines[i]
    ensures |lines| <= |Split(text, '\n')|
    ensures forall i :: 0 <= i < |Split(text, '\n')| && NotBlank(Split(text, '\n')[i]) ==>
      Split(text, '\n')[i] in lines
  {
    var parts := Split(text, '\n');
    var lines := Filter(NotBlank, parts);
    assert forall i :: 0 <= i < |lines| ==> lines[i] in parts;
    FilterAllOrShorter(NotBlank, parts);
    lines
  }

  /**
   * The reader keeps exactly the non-blank ones of the lines of a text, in
   * their order: blank lines anywhere, between rows included, are dropped.
   */
  lemma NonBlankSegments(lines: seq<string>)
    requires |lines| >= 1
    requires forall i :: 0 <= i < |lines| ==> '\n' !in lines[i]
    ensures NonBlankLines(Join(lines, "\n")) == Filter(NotBlank, lines)
  {
    SplitJoin(lines, '\n');
  }

  /** `cell.trim().replace(/"/g, '')`. */
  function CleanCell(cell: string): (r: string)
    ensures '"' !in r
    ensures |r| <= |cell|
    ensures forall c :: c in r ==> c in cell
    ensures IsCleanCell(cell) ==> r == cell
  {
    RemoveChar(Trim(cell), '"')
  }

  /**
   * A cell padded with white space on both sides is cleaned to its core with
   * every `"` deleted, wherever in the core the quotes are.
   */
  lemma CleanPaddedCell(pre: string, core: string, post: string)
    requires forall i :: 0 <= i < |pre| ==> IsWhitespace(pre[i])
    requires forall i :: 0 <= i < |post| ==> IsWhitespace(post[i])
    requires core == "" || (!IsWhitespace(core[0]) && !IsWhitespace(core[|core| - 1]))
    ensures CleanCell(pre + core + post) == RemoveChar(core, '"')
  {
    TrimPadded(pre, core, post);
  }

  /** A line split on `,` with each cell cleaned. */
  function ParseLine(line: string): (cells: seq<string>)
    ensures |cells| >= 1
    ensures |cells| == |Split(line, ',')|
    ensures forall k :: 0 <= k < |cells| ==> ',' !in cells[k] && '"' !in cells[k]
    ensures '\n' !in line ==> forall k :: 0 <= k < |cells| ==> '\n' !in cells[k]
  {
    var parts := Split(line, ',');
    SplitKeepsAbsent(line, ',', '\n');
    seq(|parts|, k requires 0 <= k < |parts| => CleanCell(parts[k]))
  }

  function ParseLines(lines: seq<string>): (rows: seq<seq<string>>)
    ensures |rows| == |lines|
    ensures forall i :: 0 <= i < |lines| ==> rows[i] == ParseLine(lines[i])
  {
    seq(|lines|, i requires 0 <= i < |lines| => ParseLine(lines[i]))
  }

  /**
   * Every cell of a line is cleaned from its own `,`-separated piece: `n`
   * pieces give `n` cells, whatever quotes they hold.
   */
  lemma ParseJoinedCells(parts: seq<string>)
    requires |parts| >= 1
    requires forall k :: 0 <= k < |parts| ==> ',' !in parts[k]
    ensures |ParseLine(Join(parts, ","))| == |parts|
    ensures forall k :: 0 <= k < |parts| ==> ParseLine(Join(parts, ","))[k] == CleanCell(parts[k])
  {
    SplitJoin(parts, ',');
  }

  /**
   * The reader is not RFC 4180: a quoted field holding a comma, `"x,y"`, is
   * read as the two cells `x` and `y`.
   */
  lemma QuotedCommaSplits(x: string, y: string)
    requires IsCleanCell(x) && IsCleanCell(y)
    ensures ParseLine(['"'] + x + [','] + y + ['"']) == [x, y]
  {
    var a := ['"'] + x;
    var b := y + ['"'];
    assert ['"'] + x + [','] + y + ['"'] == a + "," + b;
    ParseTwoCells(a, b);
    QuoteEnds(x, y);
  }

  lemma ParseTwoCells(a: string, b: string)
    requires ',' !in a && ',' !in b
    ensures ParseLine(a + "," + b) == [CleanCell(a), CleanCell(b)]
  {
    JoinCons(a, [b], ",");
    assert Join([a, b], ",") == a + "," + b;
    ParseJoinedCells([a, b]);
  }

  lemma QuoteEnds(x: string, y: string)
    requires IsCleanCell(x) && IsCleanCell(y)
    ensures CleanCell(['"'] + x) == x
    ensures CleanCell(y + ['"']) == y
  {
    OpeningQuoteDropped(x);
    ClosingQuoteDropped(y);
  }

  lemma OpeningQuoteDropped(x: string)
    requires IsCleanCell(x)
    ensures CleanCell(['"'] + x) == x
  {
    var c := ['"'] + x;
    assert !IsWhitespace(c[0]) && !IsWhitespace(c[|c| - 1]);
    TrimNoOp(c);
    RemoveCharConcat(['"'], x, '"');
    RemoveCharChar('"', '"');
  }

  lemma ClosingQuoteDropped(y: string)
    requires IsCleanCell(y)
    ensures CleanCell(y + ['"']) == y
  {
    var c := y + ['"'];
    assert !IsWhitespace(c[0]) && !IsWhitespace(c[|c| - 1]);
    TrimNoOp(c);
    RemoveCharConcat(y, ['"'], '"');
    RemoveCharChar('"', '"');
  }

  /** For instance, `"a,b"` is read as the two cells `a` and `b`. */
  lemma QuotedCommaExample(line: string)
    requires line == "\"a,b\""
    ensures ParseLine(line) == ["a", "b"]
  {
    var x, y := "a", "b";
    assert line == ['"'] + x + [','] + y + ['"'];
    QuotedCommaSplits(x, y);
  }

  /**
   * `loadCSVData` after the request: an exception, a response that is not
   * ok and a text without a non-blank line end in an error; otherwise the
   * non-blank lines are read.
   */
  function LoadCsv(fetched: CsvFetch): (r: LoadResult)
    ensures r.Crashed? <==> fetched.FetchThrew?
    ensures fetched.NotOk? ==> r == LoadFailed(FetchFailedMessage)
    ensures fetched.Text? ==> (r.LoadFailed? <==> |NonBlankLines(fetched.text)| == 0)
    ensures fetched.Text? && r.LoadFailed? ==> r.message == EmptyFileMessage
    ensures fetched.Text? ==> r == ReadLines(NonBlankLines(fetched.text))
  {
    match fetched
    case FetchThrew => Crashed
    case NotOk => LoadFailed(FetchFailedMessage)
    case Text(text) => ReadLines(NonBlankLines(text))
  }

  /**
   * The non-blank lines to a table: the first gives the headers and the next
   * (at most 100) give the rows, in order; no lines is the empty-file error.
   */
  function ReadLines(lines: seq<string>): (r: LoadResult)
    ensures !r.Crashed?
    ensures r.LoadFailed? <==> |lines| == 0
    ensures r.LoadFailed? ==> r.message == EmptyFileMessage
    ensures r.Loaded? ==>
      && r.data.headers == ParseLine(lines[0])
      && |r.data.rows| == (if |lines| - 1 < MaxRows then |lines| - 1 else MaxRows)
      && forall i :: 0 <= i < |r.data.rows| ==> r.data.rows[i] == ParseLine(lines[i + 1])
  {
    if |lines| == 0 then LoadFailed(EmptyFileMessage)
    else
      var body := if |lines| < MaxRows + 1 then lines[1..] else lines[1..MaxRows + 1];
      Loaded(CsvData(ParseLine(lines[0]), ParseLines(body)))
  }

  /** No parsed header or cell holds a `,`, a `"` or a line break. */
  lemma LoadedCellsClean(fetched: CsvFetch)
    requires LoadCsv(fetched).Loaded?
    ensures CellsClean(LoadCsv(fetched).data)
  {
    ReadCellsClean(NonBlankLines(fetched.text));
  }

  lemma ReadCellsClean(lines: seq<string>)
    requires |lines| > 0
    requires forall i :: 0 <= i < |lines| ==> '\n' !in lines[i]
    ensures CellsClean(ReadLines(lines).data)
  {
    var d := ReadLines(lines).data;
    forall i, k | 0 <= i < |d.rows| && 0 <= k < |d.rows[i]|
      ensures NoSpecialChars(d.rows[i][k])
    {
      assert '\n' !in lines[i + 1];
      assert d.rows[i] == ParseLine(lines[i + 1]);
    }
  }

  /** No header or cell of the table holds a `,`, a `"` or a line break. */
  predicate CellsClean(d: CsvData)
  {
    && (forall k :: 0 <= k < |d.headers| ==> NoSpecialChars(d.headers[k]))
    && (forall i, k :: 0 <= i < |d.rows| && 0 <= k < |d.rows[i]| ==> NoSpecialChars(d.rows[i][k]))
  }

  predicate NoSpecialChars(cell: string)
  {
    ',' !in cell && '"' !in cell && '\n' !in cell
  }

  // ---------------------------------------------------------------------------
  // Writing

  /** `[headers.join(','), ...rows.map(row => row.join(','))].join('\n')`. */
  function Serialize(data: CsvData): (text: string)
  {
    Join(SerializedLines(data), "\n")
  }

  function SerializedLines(data: CsvData): (lines: seq<string>)
    ensures |lines| == |data.rows| + 1
    ensures lines[0] == Join(data.headers, ",")
    ensures forall i :: 0 <= i < |data.rows| ==> lines[i + 1] == Join(data.rows[i], ",")
  {
    [Join(data.headers, ",")] + seq(|data.rows|, i requires 0 <= i < |data.rows| => Join(data.rows[i], ","))
  }

  /** A cell the reader gives back unchanged. */
  predicate IsCleanCell(cell: string)
  {
    NoSpecialChars(cell) && Trim(cell) == cell
  }

  /** A table the writer and the reader agree on. */
  predicate RoundTrips(data: CsvData)
  {
    && |data.rows| <= MaxRows
    && (forall k :: 0 <= k < |data.headers| ==> IsCleanCell(data.headers[k]))
    && (forall i, k :: 0 <= i < |data.rows| && 0 <= k < |data.rows[i]| ==> IsCleanCell(data.rows[i][k]))
    && !IsBlank(Join(data.headers, ","))
    && (forall i :: 0 <= i < |data.rows| ==> !IsBlank(Join(data.rows[i], ",")))
  }

  /** The first line of the written text is the header line; there is no trailing line break. */
  lemma SerializeShape(data: CsvData)
    ensures |Split(Serialize(data), '\n')| >= 1
    ensures (forall k :: 0 <= k < |data.headers| ==> '\n' !in data.headers[k]) ==>
      Serialize(data)[..|Join(data.headers, ",")|] == Join(data.headers, ",")
  {
    var lines := SerializedLines(data);
    if |lines| > 1 {
      assert lines[1..] == SerializedLines(CsvData([], data.rows))[1..];
      assert Serialize(data) == lines[0] + "\n" + Join(lines[1..], "\n");
    }
  }

  lemma CleanLine(cells: seq<string>)
    requires forall k :: 0 <= k < |cells| ==> IsCleanCell(cells[k])
    requires !IsBlank(Join(cells, ","))
    ensures '\n' !in Join(cells, ",")
    ensures ParseLine(Join(cells, ",")) == cells
  {
    if |cells| == 0 {
      assert false;
    }
    NotInJoin(cells, ",", '\n');
    SplitJoin(cells, ',');
    var parsed := ParseLine(Join(cells, ","));
    forall k | 0 <= k < |cells| ensures parsed[k] == cells[k] {
      assert CleanCell(cells[k]) == cells[k];
    }
  }

  /** Every written line of a supported table is non-blank, has no line break and reads back as its cells. */
  lemma SerializedLinesRead(data: CsvData)
    requires RoundTrips(data)
    ensures var lines := SerializedLines(data);
      && (forall i :: 0 <= i < |lines| ==> '\n' !in lines[i] && NotBlank(lines[i]))
      && ParseLine(lines[0]) == data.headers
      && forall i :: 0 <= i < |data.rows| ==> ParseLine(lines[i + 1]) == data.rows[i]
  {
    var lines := SerializedLines(data);
    CleanLine(data.headers);
    SerializedRowsRead(data);
    assert ReadsBack(lines[0], data.headers);
    forall i | 0 <= i < |lines| ensures '\n' !in lines[i] && NotBlank(lines[i]) {
      if i > 0 {
        assert ReadsBack(lines[(i - 1) + 1], data.rows[i - 1]);
      }
    }
  }

  /** `line` is a single non-blank line the reader turns into `cells`. */
  predicate ReadsBack(line: string, cells: seq<string>)
  {
    '\n' !in line && NotBlank(line) && ParseLine(line) == cells
  }

  lemma SerializedRowsRead(data: CsvData)
    requires RoundTrips(data)
    ensures var lines := SerializedLines(data);
      forall i :: 0 <= i < |data.rows| ==> ReadsBack(lines[i + 1], data.rows[i])
  {
    forall i | 0 <= i < |data.rows|
      ensures ReadsBack(SerializedLines(data)[i + 1], data.rows[i])
    {
      CleanLine(data.rows[i]);
    }
  }

  /** Lines without line breaks that are all non-blank are exactly what the reader finds in their join. */
  lemma NonBlankLinesOfJoin(lines: seq<string>)
    requires |lines| >= 1
    requires forall i :: 0 <= i < |lines| ==> '\n' !in lines[i] && NotBlank(lines[i])
    ensures NonBlankLines(Join(lines, "\n")) == lines
  {
    SplitJoin(lines, '\n');
    FilterKeepsAll(NotBlank, lines);
  }

  /** Reading what was written gives the same table back, for the tables the reader supports. */
  lemma LoadSerialize(data: CsvData)
    requires RoundTrips(data)
    ensures LoadCsv(Text(Serialize(data))) == Loaded(data)
  {
    var lines := SerializedLines(data);
    SerializedLinesRead(data);
    NonBlankLinesOfJoin(lines);
    ReadLinesOf(lines, data);
  }

  /** The reader's result when each of the non-blank lines reads back as the table's line. */
  lemma ReadLinesOf(lines: seq<string>, data: CsvData)
    requires |lines| == |data.rows| + 1 && |data.rows| <= MaxRows
    requires ParseLine(lines[0]) == data.headers
    requires forall i :: 0 <= i < |data.rows| ==> ParseLine(lines[i + 1]) == data.rows[i]
    ensures ReadLines(lines) == Loaded(data)
  {
    var r := ReadLines(lines);
    assert r.Loaded?;
    var rows := r.data.rows;
    assert |rows| == |data.rows|;
    forall i | 0 <= i < |rows| ensures rows[i] == data.rows[i] {
      assert rows[i] == ParseLine(lines[i + 1]);
    }
    assert rows == data.rows;
  }

  // ---------------------------------------------------------------------------
  // Download

  datatype CsvDownload = CsvDownload(content: string, fileName: string)

  /** `downloadCSV`: nothing without parsed data and a selected resource; else the written text. */
  function DownloadPlan(data: Option<CsvData>, selected: Option<CkanResource>): (r: Option<CsvDownload>)
    ensures r.Some? <==> data.Some? && selected.Some?
    ensures r.Some? ==> r.value.content == Serialize(data.value)
    ensures r.Some? ==> r.value.fileName != ""
    ensures r.Some? && selected.value.name != "" ==> r.value.fileName == selected.value.name
    ensures r.Some? && selected.value.name == "" ==> r.value.fileName == "data.csv"
  {
    if data.None? || selected.None? then None
    else Some(CsvDownload(Serialize(data.value), if selected.value.name != "" then selected.value.name else "data.csv"))
  }
}
