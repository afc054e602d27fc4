/**
 * INSERT statements as the IoTDB driver rewrites them: it parses the column and value lists, shortens and renames
 * columns, normalises literals and prints the statement again.
 */
module IotdbInsert {
  import opened Wrappers
  import opened Text
  import opened SqlScan
  import opened SqlLists

  // ---------- small text functions ----------

  predicate HasPrefix(s: string, p: string) {
    |p| <= |s| && s[..|p|] == p
  }

  /** strings.Index for one character. */
  function IndexOf(s: string, c: char): (r: Option<nat>)
    ensures r.Some? ==> r.value < |s|
  {
    if s == "" then None
    else if s[0] == c then Some(0)
    else match IndexOf(s[1..], c) {
      case None => None
      case Some(i) => Some(i + 1)
    }
  }

  /** strings.Trim with a set of characters to cut. */
  function TrimLeftOf(s: string, cut: string): string {
    if s != "" && s[0] in cut then TrimLeftOf(s[1..], cut) else s
  }

  function TrimRightOf(s: string, cut: string): string {
    if s != "" && s[|s| - 1] in cut then TrimRightOf(s[..|s| - 1], cut) else s
  }

  function TrimOf(s: string, cut: string): string {
    TrimRightOf(TrimLeftOf(s, cut), cut)
  }

  // ---------- paths and columns ----------

  function QualifyPath(prefix: string, path: string): string {
    var pre, p := Trim(prefix), Trim(path);
    if HasPrefix(p, "root.") || pre == "" || p == pre || HasPrefix(p, pre + ".") then p
    else pre + "." + p
  }

  const IDENTIFIER_MARKS := "`\""

  /** What follows the last dot; the whole text when there is none. */
  function AfterLastDot(s: string): string {
    if s == "" then "" else if s[|s| - 1] == '.' then "" else AfterLastDot(s[..|s| - 1]) + [s[|s| - 1]]
  }

  function ShortColumnName(column: string): string {
    var c := TrimOf(column, IDENTIFIER_MARKS);
    if HasPrefix(c, "root.") then AfterLastDot(c) else c
  }

  function NormalizeColumn(column: string): string {
    var c := ShortColumnName(Trim(TrimOf(column, IDENTIFIER_MARKS)));
    if EqualFold(c, "time") || EqualFold(c, "timestamp") then "timestamp" else c
  }

  // ---------- values ----------

  /** strings.ReplaceAll(s, "''", "'"). */
  function Undoubled(s: string): string {
    if s == "" then ""
    else if s[0] == '\'' && |s| > 1 && s[1] == '\'' then "'" + Undoubled(s[2..])
    else [s[0]] + Undoubled(s[1..])
  }

  function StripSqlString(value: string): Option<string> {
    if |value| < 2 || value[0] != '\'' || value[|value| - 1] != '\'' then None
    else Some(Undoubled(value[1..|value| - 1]))
  }

  /** A literal with this content is unquoted: a boolean, or what isInt or isFloat accepts. */
  predicate Bare(numeric: string -> bool, content: string) {
    EqualFold(content, "true") || EqualFold(content, "false") || numeric(content)
  }

  function NormalizeValue(numeric: string -> bool, value: string): string {
    var trimmed := Trim(value);
    match StripSqlString(trimmed)
    case None => trimmed
    case Some(unquoted) =>
      var normalized := Trim(unquoted);
      if Bare(numeric, normalized) then Lower(normalized) else QuoteLiteral(normalized)
  }

  // ---------- the statement ----------

  datatype Insert = Insert(table: string, columns: seq<string>, values: seq<string>)

  function Print(ins: Insert): string {
    "INSERT INTO " + ins.table + "(" + Join(ins.columns, ", ") + ") VALUES (" + Join(ins.values, ", ") + ")"
  }

  lemma TrimShrinks(s: string)
    ensures |Trim(s)| <= |s|
  {
    TrimLeftFacts(s);
    TrimRightFacts(TrimLeft(s));
  }

  /** A parenthesised list in a text. */
  datatype Span = Span(open: nat, close: nat)

  /** Where the column list opens and closes; None where the source hands the statement back unchanged. */
  function ColumnSpan(trimmed: string): (r: Option<Span>)
    ensures r.Some? ==> 12 <= r.value.open < r.value.close < |trimmed|
  {
    if !HasPrefix(Lower(trimmed), "insert into ") then None
    else match IndexOf(trimmed[12..], '(') {
      case None => None
      case Some(rel) =>
        match Closing(trimmed[12 + rel..]) {
          case None => None
          case Some(closeRel) => Some(Span(12 + rel, 12 + rel + closeRel))
        }
    }
  }

  /** The same for the value list behind the column list. */
  function ValueSpan(trimmed: string, closeCols: nat): (r: Option<Span>)
    requires closeCols < |trimmed|
    ensures r.Some? ==> r.value.open < r.value.close < |trimmed|
  {
    var afterCols := Trim(trimmed[closeCols + 1..]);
    if !HasPrefix(Lower(afterCols), "values") then None
    else
      var afterValues := Trim(afterCols[6..]);
      TrimShrinks(trimmed[closeCols + 1..]);
      TrimShrinks(afterCols[6..]);
      if !HasPrefix(afterValues, "(") then None
      else
        var openValues := |trimmed| - |afterValues|;
        match Closing(trimmed[openValues..]) {
          case None => None
          case Some(valuesRel) =>
            assert DepthAt(trimmed[openValues..], 0) == 0;
            Some(Span(openValues, openValues + valuesRel))
        }
  }

  function ListsAt(trimmed: string, cols: Span, vals: Span): (r: Option<Insert>)
    requires 12 <= cols.open < cols.close < |trimmed| && vals.open < vals.close < |trimmed|
    ensures r.Some? ==> |r.value.columns| == |r.value.values| >= 1
  {
    var columns := Split(Comma, trimmed[cols.open + 1..cols.close]);
    var values := Split(Comma, trimmed[vals.open + 1..vals.close]);
    if |columns| == 0 || |columns| != |values| then None
    else Some(Insert(Trim(trimmed[12..cols.open]), columns, values))
  }

  /** The lists between the parentheses, always equally long. */
  function ParseTrimmed(trimmed: string): (r: Option<Insert>)
    ensures r.Some? ==> |r.value.columns| == |r.value.values| >= 1
  {
    match ColumnSpan(trimmed)
    case None => None
    case Some(cols) =>
      match ValueSpan(trimmed, cols.close)
      case None => None
      case Some(vals) => ListsAt(trimmed, cols, vals)
  }

  function ParseInsert(sql: string): (r: Option<Insert>)
    ensures r.Some? ==> |r.value.columns| == |r.value.values| >= 1
  {
    ParseTrimmed(Trim(sql))
  }

  function NormalizeColumns(columns: seq<string>): (r: seq<string>)
    ensures |r| == |columns| && forall i :: 0 <= i < |columns| ==> r[i] == NormalizeColumn(columns[i])
  {
    seq(|columns|, i requires 0 <= i < |columns| => NormalizeColumn(columns[i]))
  }

  function NormalizeValues(numeric: string -> bool, values: seq<string>): (r: seq<string>)
    ensures |r| == |values| && forall i :: 0 <= i < |values| ==> r[i] == NormalizeValue(numeric, values[i])
  {
    seq(|values|, i requires 0 <= i < |values| => NormalizeValue(numeric, values[i]))
  }

  function Normalized(prefix: string, numeric: string -> bool, ins: Insert): Insert {
    Insert(QualifyPath(prefix, ins.table), NormalizeColumns(ins.columns), NormalizeValues(numeric, ins.values))
  }

  function InsertRewrite(prefix: string, numeric: string -> bool, sql: string): string {
    match ParseInsert(sql)
    case None => sql
    case Some(ins) => Print(Normalized(prefix, numeric, ins))
  }

  method FindColumnList(trimmed: string) returns (r: Option<Span>)
    ensures r == ColumnSpan(trimmed)
  {
    if !HasPrefix(Lower(trimmed), "insert into ") {
      return None;
    }
    var afterInto := |"insert into "|;
    var openColsRel := IndexOf(trimmed[afterInto..], '(');
    if openColsRel.None? {
      return None;
    }
    var openCols := afterInto + openColsRel.value;
    var closeCols := MatchingParen(trimmed, openCols);
    if closeCols.None? {
      return None;
    }
    return Some(Span(openCols, closeCols.value));
  }

  method FindValueList(trimmed: string, closeCols: nat) returns (r: Option<Span>)
    requires closeCols < |trimmed|
    ensures r == ValueSpan(trimmed, closeCols)
  {
    var afterCols := Trim(trimmed[closeCols + 1..]);
    if !HasPrefix(Lower(afterCols), "values") {
      return None;
    }
    var afterValues := Trim(afterCols[|"values"|..]);
    if !HasPrefix(afterValues, "(") {
      return None;
    }
    TrimShrinks(trimmed[closeCols + 1..]);
    TrimShrinks(afterCols[6..]);
    var openValues := |trimmed| - |afterValues|;
    var closeValues := MatchingParen(trimmed, openValues);
    if closeValues.None? {
      return None;
    }
    return Some(Span(openValues, closeValues.value));
  }

  method ReadInsert(sql: string) returns (r: Option<Insert>)
    ensures r == ParseInsert(sql)
  {
    var trimmed := Trim(sql);
    var cols := FindColumnList(trimmed);
    if cols.None? {
      return None;
    }
    var vals := FindValueList(trimmed, cols.value.close);
    if vals.None? {
      return None;
    }
    r := ReadLists(trimmed, cols.value, vals.value);
  }

  method ReadLists(trimmed: string, cols: Span, vals: Span) returns (r: Option<Insert>)
    requires 12 <= cols.open < cols.close < |trimmed| && vals.open < vals.close < |trimmed|
    ensures r == ListsAt(trimmed, cols, vals)
  {
    var columns := SplitCsv(trimmed[cols.open + 1..cols.close]);
    var values := SplitCsv(trimmed[vals.open + 1..vals.close]);
    if |columns| == 0 || |columns| != |values| {
      return None;
    }
    return Some(Insert(Trim(trimmed[12..cols.open]), columns, values));
  }

  method NormalizeInsertStatement(prefix: string, sql: string, numeric: string -> bool) returns (r: string)
    ensures r == InsertRewrite(prefix, numeric, sql)
  {
    var parsed := ReadInsert(sql);
    if parsed.None? {
      return sql;
    }
    var columns, values := NormalizeLists(parsed.value.columns, parsed.value.values, numeric);
    return Print(Insert(QualifyPath(prefix, parsed.value.table), columns, values));
  }

  /** The loop that overwrites both lists in place. */
  method NormalizeLists(parsedColumns: seq<string>, parsedValues: seq<string>, numeric: string -> bool)
    returns (columns: seq<string>, values: seq<string>)
    requires |parsedColumns| == |parsedValues|
    ensures columns == NormalizeColumns(parsedColumns)
    ensures values == NormalizeValues(numeric, parsedValues)
  {
    hide NormalizeColumn, NormalizeValue;
    columns, values := parsedColumns, parsedValues;
    var idx := 0;
    while idx < |columns|
      invariant 0 <= idx <= |columns| == |parsedColumns| && |values| == |columns|
      invariant forall k :: 0 <= k < idx ==> columns[k] == NormalizeColumn(parsedColumns[k])
      invariant forall k :: 0 <= k < idx ==> values[k] == NormalizeValue(numeric, parsedValues[k])
      invariant columns[idx..] == parsedColumns[idx..] && values[idx..] == parsedValues[idx..]
    {
      columns := columns[idx := NormalizeColumn(columns[idx])];
      values := values[idx := NormalizeValue(numeric, values[idx])];
      idx := idx + 1;
    }
  }
}
