/**
 * The dynamic query gateway of the backend: the catalog descriptors served by
 * `GET /tables` and `GET /tables/:tableName/columns`, and the `POST /query`
 * handler that validates a request, sanitises every identifier and assembles
 * a bounded `SELECT`. Running the statement against PostgreSQL is outside the
 * model: the handler's outcome is the SQL text it would hand to the pool.
 */
module QueryGateway {
  import opened JsValues
  import opened JsText

  // ---------------------------------------------------------------------------
  // Identifier sanitiser

  /** `raw.replace(/[^a-zA-Z0-9_]/g, '')`: the word characters of `raw`, in order. */
  function StripIdentifier(raw: string): (r: string)
    ensures |r| <= |raw|
    ensures forall i :: 0 <= i < |r| ==> IsWordChar(r[i])
  {
    if |raw| == 0 then ""
    else (if IsWordChar(raw[0]) then [raw[0]] else "") + StripIdentifier(raw[1..])
  }

  /** The quoted identifier interpolated into the SQL text. */
  function SanitizeIdentifier(raw: string): (r: string)
    ensures |r| >= 2 && r[0] == '"' && r[|r| - 1] == '"'
    ensures forall i :: 0 < i < |r| - 1 ==> IsWordChar(r[i])
  {
    "\"" + StripIdentifier(raw) + "\""
  }

  /** Stripping distributes over concatenation: it is a filter that keeps order. */
  lemma {:induction false} StripConcat(a: string, b: string)
    ensures StripIdentifier(a + b) == StripIdentifier(a) + StripIdentifier(b)
  {
    if |a| == 0 {
      assert a + b == b;
    } else {
      assert (a + b)[0] == a[0];
      assert (a + b)[1..] == a[1..] + b;
      StripConcat(a[1..], b);
    }
  }

  /** A single character survives exactly when it is a word character. */
  lemma StripChar(c: char)
    ensures StripIdentifier([c]) == if IsWordChar(c) then [c] else []
  {
    assert [c][1..] == [];
  }

  /** Identifiers already made of word characters pass unchanged. */
  lemma {:induction false} StripKeepsWordIdentifiers(raw: string)
    requires forall i :: 0 <= i < |raw| ==> IsWordChar(raw[i])
    ensures StripIdentifier(raw) == raw
  {
    if |raw| > 0 {
      StripKeepsWordIdentifiers(raw[1..]);
    }
  }

  /** Stripping again changes nothing. */
  lemma StripIdempotent(raw: string)
    ensures StripIdentifier(StripIdentifier(raw)) == StripIdentifier(raw)
  {
    StripKeepsWordIdentifiers(StripIdentifier(raw));
  }

  /** Input made only of disallowed characters becomes the empty identifier `""`. */
  lemma {:induction false} StripAllDisallowed(raw: string)
    requires forall i :: 0 <= i < |raw| ==> !IsWordChar(raw[i])
    ensures StripIdentifier(raw) == ""
    ensures SanitizeIdentifier(raw) == "\"\""
  {
    if |raw| > 0 {
      StripAllDisallowed(raw[1..]);
    }
  }

  /** The sanitiser keeps every word character of the input: it drops nothing it allows. */
  lemma {:induction false} StripKeepsCount(raw: string, c: char)
    requires IsWordChar(c)
    ensures multiset(StripIdentifier(raw))[c] == multiset(raw)[c]
  {
    if |raw| > 0 {
      StripKeepsCount(raw[1..], c);
      assert raw == [raw[0]] + raw[1..];
    }
  }

  // ---------------------------------------------------------------------------
  // SELECT assembly

  const RowLimitClause: string := " LIMIT 1000;"

  /** `columns.map(col => "\"" + col.replace(/[^a-zA-Z0-9_]/g, '') + "\"")`. */
  function SanitizeAll(columns: seq<string>): (r: seq<string>)
    ensures |r| == |columns|
  {
    if |columns| == 0 then [] else [SanitizeIdentifier(columns[0])] + SanitizeAll(columns[1..])
  }

  /** `SELECT <cols> FROM <table> LIMIT 1000;` with every identifier sanitised. */
  function BuildQuery(tableName: string, columns: seq<string>): string
  {
    "SELECT " + Join(SanitizeAll(columns), ", ") + " FROM " + SanitizeIdentifier(tableName) + RowLimitClause
  }

  /**
   * The texts enclosed by successive pairs of double quotes in `sql`, read
   * from left to right: the identifiers a SQL lexer sees.
   */
  function QuotedIdentifiers(sql: string): seq<string>
    decreases |sql|
  {
    var i := IndexOf(sql, '"');
    if i < 0 then []
    else
      var rest := sql[i + 1..];
      var j := IndexOf(rest, '"');
      if j < 0 then [] else [rest[..j]] + QuotedIdentifiers(rest[j + 1..])
  }

  lemma QuotedNone(x: string)
    requires '"' !in x
    ensures QuotedIdentifiers(x) == []
  {
  }

  lemma QuotedStep(x: string, y: string, z: string, s: string)
    requires '"' !in x && '"' !in y
    requires s == x + (['"'] + (y + (['"'] + z)))
    ensures QuotedIdentifiers(s) == [y] + QuotedIdentifiers(z)
  {
    var w := y + (['"'] + z);
    assert s == x + ['"'] + w;
    IndexOfAfterFreePrefix(x, '"', w);
    assert s[|x| + 1..] == w;
    assert w == y + ['"'] + z;
    IndexOfAfterFreePrefix(y, '"', z);
    assert w[..|y|] == y;
    assert w[|y| + 1..] == z;
    assert QuotedIdentifiers(s) == [w[..|y|]] + QuotedIdentifiers(w[|y| + 1..]);
  }

  lemma NoQuoteInStripped(raw: string)
    ensures '"' !in StripIdentifier(raw)
  {
    var t := StripIdentifier(raw);
    assert forall k :: 0 <= k < |t| ==> t[k] != '"';
  }

  function StripAll(columns: seq<string>): (r: seq<string>)
    ensures |r| == |columns|
  {
    if |columns| == 0 then [] else [StripIdentifier(columns[0])] + StripAll(columns[1..])
  }

  lemma Regroup(p: string, c: string, j: string, t: string)
    ensures p + (((("\"" + c) + "\"") + ", ") + j + t) == p + (['"'] + (c + (['"'] + (", " + (j + t)))))
    ensures p + ((("\"" + c) + "\"") + t) == p + (['"'] + (c + (['"'] + t)))
  {
  }

  /** The text of a sanitised column list with one more column in front. */
  lemma ColumnListCons(prefix: string, columns: seq<string>, tail: string, more: string)
    requires |columns| >= 1
    requires more == if |columns| == 1 then tail else ", " + (Join(SanitizeAll(columns[1..]), ", ") + tail)
    ensures prefix + (Join(SanitizeAll(columns), ", ") + tail)
         == prefix + (['"'] + (StripIdentifier(columns[0]) + (['"'] + more)))
  {
    var quoted := SanitizeAll(columns);
    var c := StripIdentifier(columns[0]);
    assert quoted[0] == "\"" + c + "\"";
    if |columns| > 1 {
      var j := Join(SanitizeAll(columns[1..]), ", ");
      assert quoted[1..] == SanitizeAll(columns[1..]);
      assert Join(quoted, ", ") == quoted[0] + ", " + j;
      Regroup(prefix, c, j, tail);
    } else {
      Regroup(prefix, c, "", tail);
    }
  }

  /** The first column of a sanitised list is the first identifier read back. */
  lemma QuotedColumnHead(prefix: string, columns: seq<string>, tail: string, more: string)
    requires |columns| >= 1
    requires '"' !in prefix
    requires more == if |columns| == 1 then tail else ", " + (Join(SanitizeAll(columns[1..]), ", ") + tail)
    ensures QuotedIdentifiers(prefix + (Join(SanitizeAll(columns), ", ") + tail))
         == [StripIdentifier(columns[0])] + QuotedIdentifiers(more)
  {
    NoQuoteInStripped(columns[0]);
    ColumnListCons(prefix, columns, tail, more);
    QuotedStep(prefix, StripIdentifier(columns[0]), more, prefix + (Join(SanitizeAll(columns), ", ") + tail));
  }

  lemma ColumnListStep(s: string, more: string, columns: seq<string>, tail: string)
    requires |columns| >= 2
    requires QuotedIdentifiers(s) == [StripIdentifier(columns[0])] + QuotedIdentifiers(more)
    requires QuotedIdentifiers(more) == StripAll(columns[1..]) + QuotedIdentifiers(tail)
    ensures QuotedIdentifiers(s) == StripAll(columns) + QuotedIdentifiers(tail)
  {
    StripAllCons(columns);
    Glue(StripIdentifier(columns[0]), QuotedIdentifiers(s), QuotedIdentifiers(more),
         StripAll(columns[1..]), QuotedIdentifiers(tail), StripAll(columns));
  }

  lemma ColumnListLast(s: string, columns: seq<string>, tail: string)
    requires |columns| == 1
    requires QuotedIdentifiers(s) == [StripIdentifier(columns[0])] + QuotedIdentifiers(tail)
    ensures QuotedIdentifiers(s) == StripAll(columns) + QuotedIdentifiers(tail)
  {
    StripAllCons(columns);
    Glue(StripIdentifier(columns[0]), QuotedIdentifiers(s), QuotedIdentifiers(tail),
         [], QuotedIdentifiers(tail), StripAll(columns));
  }

  lemma StripAllCons(columns: seq<string>)
    requires |columns| >= 1
    ensures StripAll(columns) == [StripIdentifier(columns[0])] + StripAll(columns[1..])
  {
  }

  lemma Glue(h: string, qs: seq<string>, qm: seq<string>, rest: seq<string>, qt: seq<string>, all: seq<string>)
    requires qs == [h] + qm
    requires qm == rest + qt
    requires all == [h] + rest
    ensures qs == all + qt
  {
  }

  lemma {:induction false} QuotedColumnList(prefix: string, columns: seq<string>, tail: string)
    requires |columns| >= 1
    requires '"' !in prefix
    ensures QuotedIdentifiers(prefix + (Join(SanitizeAll(columns), ", ") + tail))
         == StripAll(columns) + QuotedIdentifiers(tail)
    decreases |columns|
  {
    if |columns| == 1 {
      QuotedColumnHead(prefix, columns, tail, tail);
      ColumnListLast(prefix + (Join(SanitizeAll(columns), ", ") + tail), columns, tail);
    } else {
      QuotedColumnList(", ", columns[1..], tail);
      QuotedColumnMore(prefix, columns, tail);
    }
  }

  /** The step of `QuotedColumnList`: the first column, then the rest as read by the induction hypothesis. */
  lemma QuotedColumnMore(prefix: string, columns: seq<string>, tail: string)
    requires |columns| >= 2
    requires '"' !in prefix
    requires QuotedIdentifiers(", " + (Join(SanitizeAll(columns[1..]), ", ") + tail))
          == StripAll(columns[1..]) + QuotedIdentifiers(tail)
    ensures QuotedIdentifiers(prefix + (Join(SanitizeAll(columns), ", ") + tail))
         == StripAll(columns) + QuotedIdentifiers(tail)
  {
    var more := ", " + (Join(SanitizeAll(columns[1..]), ", ") + tail);
    QuotedColumnHead(prefix, columns, tail, more);
    ColumnListStep(prefix + (Join(SanitizeAll(columns), ", ") + tail), more, columns, tail);
  }

  /**
   * Reading the built statement back yields one identifier per requested
   * column, in request order with duplicates kept, then the table: no
   * identifier can close its quotes early or merge with a neighbour.
   */
  lemma QueryIdentifiers(tableName: string, columns: seq<string>)
    requires |columns| >= 1
    ensures QuotedIdentifiers(BuildQuery(tableName, columns))
         == StripAll(columns) + [StripIdentifier(tableName)]
  {
    var t := StripIdentifier(tableName);
    NoQuoteInStripped(tableName);
    var tail := " FROM " + (['"'] + (t + (['"'] + RowLimitClause)));
    QueryText(tableName, columns, tail);
    SelectIdentifiers("SELECT ", columns, " FROM ", t, RowLimitClause, tail);
  }

  /** The read-back of a column list followed by one more quoted identifier, over free surrounding text. */
  lemma SelectIdentifiers(head: string, columns: seq<string>, from: string, t: string, end: string, tail: string)
    requires |columns| >= 1
    requires '"' !in head && '"' !in from && '"' !in t && '"' !in end
    requires tail == from + (['"'] + (t + (['"'] + end)))
    ensures QuotedIdentifiers(head + (Join(SanitizeAll(columns), ", ") + tail)) == StripAll(columns) + [t]
  {
    QuotedColumnList(head, columns, tail);
    QuotedStep(from, t, end, tail);
    QuotedNone(end);
    QueryGlue(QuotedIdentifiers(head + (Join(SanitizeAll(columns), ", ") + tail)), StripAll(columns),
              QuotedIdentifiers(tail), t, QuotedIdentifiers(end));
  }

  lemma QueryText(tableName: string, columns: seq<string>, tail: string)
    requires tail == " FROM " + (['"'] + (StripIdentifier(tableName) + (['"'] + RowLimitClause)))
    ensures BuildQuery(tableName, columns) == "SELECT " + (Join(SanitizeAll(columns), ", ") + tail)
  {
  }

  lemma QueryGlue(q: seq<string>, cols: seq<string>, qtail: seq<string>, t: string, qend: seq<string>)
    requires q == cols + qtail
    requires qtail == [t] + qend
    requires qend == []
    ensures q == cols + [t]
  {
  }

  /** The characters the built statement can contain: word characters, quotes, spaces, commas and `;`. */
  predicate IsQueryChar(c: char)
  {
    IsWordChar(c) || c == '"' || c == ' ' || c == ',' || c == ';'
  }

  predicate AllQueryChars(s: string)
  {
    forall i :: 0 <= i < |s| ==> IsQueryChar(s[i])
  }

  lemma QueryCharsConcat(a: string, b: string)
    requires AllQueryChars(a) && AllQueryChars(b)
    ensures AllQueryChars(a + b)
  {
    assert forall i :: |a| <= i < |a + b| ==> (a + b)[i] == b[i - |a|];
  }

  lemma {:induction false} SanitizeAllAt(columns: seq<string>, k: nat)
    requires k < |columns|
    ensures SanitizeAll(columns)[k] == SanitizeIdentifier(columns[k])
  {
    if k > 0 {
      SanitizeAllAt(columns[1..], k - 1);
    }
  }

  lemma {:induction false} ColumnListQueryChars(columns: seq<string>)
    ensures AllQueryChars(Join(SanitizeAll(columns), ", "))
    ensures ';' !in Join(SanitizeAll(columns), ", ")
  {
    var cols := SanitizeAll(columns);
    if |columns| == 1 {
      assert cols[0] == SanitizeIdentifier(columns[0]);
    } else if |columns| > 1 {
      ColumnListQueryChars(columns[1..]);
      assert cols[0] == SanitizeIdentifier(columns[0]);
      assert cols[1..] == SanitizeAll(columns[1..]);
      QueryCharsConcat(cols[0], ", ");
      QueryCharsConcat(cols[0] + ", ", Join(cols[1..], ", "));
    }
  }

  /** The same shape over free surrounding text. */
  lemma ShapeOf(head: string, j: string, from: string, t: string, body: string, q: string)
    requires AllQueryChars(head) && AllQueryChars(j) && AllQueryChars(from) && AllQueryChars(t)
    requires ';' !in head && ';' !in j && ';' !in from && ';' !in t
    requires q == head + j + from + t + " LIMIT 1000;"
    requires body == head + j + from + t + " LIMIT 1000"
    ensures q[|q| - 1] == ';' && q[..|q| - 1] == body
    ensures ';' !in body
    ensures AllQueryChars(q)
  {
    assert q == body + ";";
    QueryCharsConcat(head, j);
    QueryCharsConcat(head + j, from);
    QueryCharsConcat(head + j + from, t);
    QueryCharsConcat(head + j + from + t, " LIMIT 1000;");
  }

  /**
   * The statement is terminated by its only `;`, and it holds no quote mark
   * `'`, no `-` (so no `--` comment) and no white space other than the spaces
   * of the template.
   */
  lemma QueryShape(tableName: string, columns: seq<string>)
    ensures var q := BuildQuery(tableName, columns);
      && q[|q| - 1] == ';'
      && ';' !in q[..|q| - 1]
      && AllQueryChars(q)
  {
    var j := Join(SanitizeAll(columns), ", ");
    var t := SanitizeIdentifier(tableName);
    ColumnListQueryChars(columns);
    ShapeOf("SELECT ", j, " FROM ", t, "SELECT " + j + " FROM " + t + " LIMIT 1000", BuildQuery(tableName, columns));
  }

  // ---------------------------------------------------------------------------
  // POST /query

  datatype QueryResponse =
    | BadRequest(message: string)     // 400, before any SQL is built
    | ServerError(message: string)    // 500, from an exception inside the try block
    | Execute(sql: string)            // the statement handed to the pool

  const MissingInputMessage: string := "Nome da tabela e colunas são obrigatórios."
  const QueryFailedMessage: string := "Erro ao executar a consulta."

  predicate AllStrings(items: seq<JsValue>)
  {
    forall i :: 0 <= i < |items| ==> items[i].Str?
  }

  function ColumnNames(items: seq<JsValue>): (r: seq<string>)
    requires AllStrings(items)
    ensures |r| == |items|
    ensures forall i :: 0 <= i < |items| ==> items[i] == Str(r[i])
  {
    seq(|items|, i requires 0 <= i < |items| => items[i].s)
  }

  /**
   * The `/query` handler on the destructured body fields. A falsy table name,
   * a non-array `columns` or an empty array is a 400; a table name or a
   * column that is not a string makes `replace` throw, which the handler's
   * catch turns into a 500; otherwise the sanitised statement is executed.
   */
  function HandleQuery(tableName: JsValue, columns: JsValue): (r: QueryResponse)
    ensures r.BadRequest? <==> !Truthy(tableName) || !columns.Arr? || |columns.items| == 0
    ensures r.BadRequest? ==> r.message == MissingInputMessage
    ensures r.ServerError? ==> r.message == QueryFailedMessage
    ensures r.Execute? <==>
      && tableName.Str? && tableName.s != ""
      && columns.Arr? && |columns.items| > 0 && AllStrings(columns.items)
    ensures r.Execute? ==> r.sql == BuildQuery(tableName.s, ColumnNames(columns.items))
  {
    if !Truthy(tableName) || !columns.Arr? || |columns.items| == 0 then
      BadRequest(MissingInputMessage)
    else if !tableName.Str? || !AllStrings(columns.items) then
      ServerError(QueryFailedMessage)
    else
      Execute(BuildQuery(tableName.s, ColumnNames(columns.items)))
  }

  /** An accepted request's statement names every requested column, in order, and then the table. */
  lemma ExecutedQueryIdentifiers(tableName: JsValue, columns: JsValue)
    requires HandleQuery(tableName, columns).Execute?
    ensures QuotedIdentifiers(HandleQuery(tableName, columns).sql)
         == StripAll(ColumnNames(columns.items)) + [StripIdentifier(tableName.s)]
  {
    QueryIdentifiers(tableName.s, ColumnNames(columns.items));
  }

  // ---------------------------------------------------------------------------
  // Catalog descriptors

  datatype TableDescriptor = TableDescriptor(id: string, name: string, displayName: string, description: string)

  datatype ColumnDescriptor =
    ColumnDescriptor(id: string, name: string, displayName: string, columnType: string, description: string)

  /** A row of `information_schema.columns`: `column_name` and `data_type`. */
  datatype CatalogColumn = CatalogColumn(columnName: string, dataType: string)

  /** Whether position `i` of `s` matches `\b\w`: a word character not preceded by one. */
  predicate IsWordStart(s: string, i: nat)
    requires i < |s|
  {
    IsWordChar(s[i]) && (i == 0 || !IsWordChar(s[i - 1]))
  }

  /** `s.replace(/\b\w/g, l => l.toUpperCase())`. */
  function CapitalizeWords(s: string): (r: string)
    ensures |r| == |s|
  {
    seq(|s|, i requires 0 <= i < |s| => if IsWordStart(s, i) then UpperChar(s[i]) else s[i])
  }

  /** Table display name: underscores become spaces, then each word starts upper-case. */
  function TableDisplayName(tableName: string): (r: string)
    ensures |r| == |tableName|
    ensures '_' !in r
    ensures ToLower(r) == ToLower(ReplaceChar(tableName, '_', ' '))
    ensures forall i :: 0 <= i < |r| && IsWordStart(r, i) ==> !IsAsciiLower(r[i])
    ensures forall i :: 0 <= i < |r| && !IsWordStart(r, i) ==> r[i] == ReplaceChar(tableName, '_', ' ')[i]
  {
    var spaced := ReplaceChar(tableName, '_', ' ');
    var r := CapitalizeWords(spaced);
    assert forall i :: 0 <= i < |r| ==> (IsWordChar(r[i]) <==> IsWordChar(spaced[i]));
    assert forall i :: 0 <= i < |r| ==> (IsWordStart(r, i) <==> IsWordStart(spaced, i));
    r
  }

  /** Formatting a display name again changes nothing. */
  lemma TableDisplayNameIdempotent(tableName: string)
    ensures TableDisplayName(TableDisplayName(tableName)) == TableDisplayName(tableName)
  {
    var r := TableDisplayName(tableName);
    var r2 := TableDisplayName(r);
    assert ReplaceChar(r, '_', ' ') == r;
    forall i | 0 <= i < |r| ensures r2[i] == r[i] {
      if IsWordStart(r, i) {
        LowerUpperChar(ReplaceChar(tableName, '_', ' ')[i]);
      }
    }
  }

  /** The `GET /tables` mapping from `pg_tables` names to descriptors. */
  function TableDescriptors(tableNames: seq<string>): (r: seq<TableDescriptor>)
    ensures |r| == |tableNames|
    ensures forall i :: 0 <= i < |r| ==>
      && r[i].id == tableNames[i] && r[i].name == tableNames[i]
      && r[i].description == "Tabela " + tableNames[i]
      && r[i].displayName == TableDisplayName(tableNames[i])
  {
    seq(|tableNames|, i requires 0 <= i < |tableNames| =>
      TableDescriptor(tableNames[i], tableNames[i], TableDisplayName(tableNames[i]), "Tabela " + tableNames[i]))
  }

  /** The `GET /tables/:tableName/columns` mapping: order, count and types pass through. */
  function ColumnDescriptors(rows: seq<CatalogColumn>): (r: seq<ColumnDescriptor>)
    ensures |r| == |rows|
    ensures forall i :: 0 <= i < |r| ==>
      && r[i].id == rows[i].columnName && r[i].name == rows[i].columnName
      && r[i].columnType == rows[i].dataType
      && r[i].description == "Coluna " + rows[i].columnName
      && |r[i].displayName| == |rows[i].columnName| && '_' !in r[i].displayName
      && (forall k :: 0 <= k < |rows[i].columnName| && rows[i].columnName[k] != '_' ==>
           r[i].displayName[k] == rows[i].columnName[k])
      && (forall k :: 0 <= k < |rows[i].columnName| && rows[i].columnName[k] == '_' ==>
           r[i].displayName[k] == ' ')
  {
    seq(|rows|, i requires 0 <= i < |rows| =>
      var n := rows[i].columnName;
      ColumnDescriptor(n, n, ReplaceChar(n, '_', ' '), rows[i].dataType, "Coluna " + n))
  }
}
