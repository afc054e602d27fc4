/** Printing and parsing INSERT statements, and what rewriting them keeps. */
module IotdbInsertLaws {
  import opened Wrappers
  import opened Text
  import opened SqlScan
  import opened SqlLists
  import opened SqlParts
  import opened IotdbInsert
  import opened IotdbColumns

  // ---------- literals ----------

  lemma {:induction false} UndoublingUndoesDoubling(content: string)
    ensures Undoubled(Doubled(content, '\'')) == content
    decreases |content|
  {
    if content != "" {
      var rest := Doubled(content[1..], '\'');
      UndoublingUndoesDoubling(content[1..]);
      if content[0] == '\'' {
        assert (['\'', '\''] + rest)[2..] == rest;
      } else {
        assert ([content[0]] + rest)[1..] == rest;
      }
    }
  }

  /** Whatever a literal contains, the driver reads exactly that content. */
  lemma LiteralReadsBack(content: string)
    ensures StripSqlString(QuoteLiteral(content)) == Some(content)
  {
    var v := QuoteLiteral(content);
    assert v[1..|v| - 1] == Doubled(content, '\'');
    UndoublingUndoesDoubling(content);
  }

  lemma {:induction false} DoubledParity(content: string, j: nat)
    requires j < |Doubled(content, '\'')| && Doubled(content, '\'')[j] != '\''
    ensures !OpenAt(Doubled(content, '\''), j)
    decreases |content|
  {
    var rest := Doubled(content[1..], '\'');
    if content[0] == '\'' {
      var pair := ['\'', '\''];
      assert !OpenAt(pair, 0) && OpenAt(pair, 1) && !OpenAt(pair, 2);
      DoubledParity(content[1..], j - 2);
      OpenBehind(pair, rest, j - 2);
    } else if j > 0 {
      PlainCloses([content[0]]);
      DoubledParity(content[1..], j - 1);
      OpenBehind([content[0]], rest, j - 1);
    }
  }

  /** Nothing in a quoted literal lies outside it. */
  lemma NothingVisible(content: string, i: int)
    ensures !Visible(QuoteLiteral(content), i)
  {
    var inner := Doubled(content, '\'');
    var v := QuoteLiteral(content);
    assert v == "'" + (inner + "'");
    assert OpenAt("'", 1) by {
      assert !OpenAt("'", 0);
    }
    if 1 <= i <= |inner| && v[i] != '\'' {
      DoubledParity(content, i - 1);
      OpenInFront(inner, "'", i - 1);
      OpenBehind("'", inner + "'", i - 1);
    }
  }

  lemma LiteralCloses(content: string)
    ensures !Open(QuoteLiteral(content))
  {
    DoubledCloses(content);
    assert OpenAt("'", 1) by {
      assert !OpenAt("'", 0);
    }
    OpenConcat("'", Doubled(content, '\''));
    OpenConcat("'" + Doubled(content, '\''), "'");
  }

  // ---------- values that survive printing ----------

  /** A literal is atomic whatever its content: commas, parentheses, quotes, key words. */
  lemma LiteralIsAtomic(content: string)
    ensures Atomic(QuoteLiteral(content))
  {
    var v := QuoteLiteral(content);
    LiteralCloses(content);
    forall i ensures !Visible(v, i) {
      NothingVisible(content, i);
    }
    forall i | 0 <= i <= |v| ensures DepthAt(v, i) == 0 {
      FlatDepth(v, i);
    }
  }

  /** What ParseInt and ParseFloat accept contains no quote, comma or parenthesis. */
  ghost predicate NumbersArePlain(numeric: string -> bool) {
    forall s :: numeric(s) ==> Plain(s)
  }

  lemma BareIsPlain(numeric: string -> bool, s: string)
    requires NumbersArePlain(numeric) && Bare(numeric, s)
    ensures Plain(s)
  {
    if !numeric(s) {
      var word := if EqualFold(s, "true") then "true" else "false";
      assert Lower(s) == Lower(word);
      forall k | 0 <= k < |s| ensures PlainChar(s[k]) {
        assert Lower(s)[k] == Lower(word)[k];
      }
    }
  }

  lemma LowerKeeps(s: string)
    requires Plain(s)
    ensures Plain(Lower(s)) && (Trimmed(s) ==> Trimmed(Lower(s)))
  {
    forall k | 0 <= k < |s| ensures PlainChar(Lower(s)[k]) {
      assert Lower(s)[k] == LowerChar(s[k]);
    }
  }

  lemma PlainIsNoLiteral(v: string)
    requires Plain(v)
    ensures StripSqlString(v) == None
  {
  }

  /** A normalised value stays as it is when the statement is rewritten again: for every input. */
  lemma NormalizeValueTwice(numeric: string -> bool, value: string)
    requires NumbersArePlain(numeric)
    ensures NormalizeValue(numeric, NormalizeValue(numeric, value)) == NormalizeValue(numeric, value)
  {
    var trimmed := Trim(value);
    TrimFacts(value);
    match StripSqlString(trimmed)
    case None =>
    case Some(unquoted) =>
      var content := Trim(unquoted);
      TrimFacts(unquoted);
      if Bare(numeric, content) {
        BareIsPlain(numeric, content);
        LowerKeeps(content);
        TrimFacts(Lower(content));
        PlainIsNoLiteral(Lower(content));
      } else {
        LiteralIsAtomic(content);
        TrimFacts(QuoteLiteral(content));
        LiteralReadsBack(content);
      }
  }

  lemma NormalizeValueAtomic(numeric: string -> bool, value: string)
    requires NumbersArePlain(numeric) && Closed(value)
    ensures Atomic(NormalizeValue(numeric, value))
  {
    var trimmed := Trim(value);
    TrimIsAtomic(value);
    match StripSqlString(trimmed)
    case None =>
    case Some(unquoted) =>
      var content := Trim(unquoted);
      TrimFacts(unquoted);
      if Bare(numeric, content) {
        BareIsPlain(numeric, content);
        LowerKeeps(content);
        PlainIsClosed(Lower(content));
      } else {
        LiteralIsAtomic(content);
      }
  }

  /**
   * A string literal keeps its value exactly when its content neither starts nor ends with white space nor reads as
   * a boolean or a number; every other literal comes out changed.
   */
  lemma LiteralKeptIff(numeric: string -> bool, content: string)
    requires NumbersArePlain(numeric)
    ensures NormalizeValue(numeric, QuoteLiteral(content)) == QuoteLiteral(content)
      <==> Trim(content) == content && !Bare(numeric, content)
  {
    var v := QuoteLiteral(content);
    LiteralIsAtomic(content);
    TrimFacts(v);
    LiteralReadsBack(content);
    var inner := Trim(content);
    if Bare(numeric, inner) {
      BareIsPlain(numeric, inner);
      LowerKeeps(inner);
      PlainIsNoLiteral(Lower(inner));
    } else {
      LiteralReadsBack(inner);
    }
  }

  // ---------- printing and parsing ----------

  /** A list the scanners read back: no part holds a separator, and its parentheses pair up as a whole. */
  ghost predicate Listed(parts: seq<string>) {
    (forall i :: 0 <= i < |parts| ==> Clean(Comma, parts[i])) && Nested(Join(parts, ", "))
  }

  lemma ClosedAreListed(parts: seq<string>)
    requires forall i :: 0 <= i < |parts| ==> Closed(parts[i])
    ensures Listed(parts)
  {
    hide Nested, Clean, Join;
    forall i | 0 <= i < |parts| ensures Clean(Comma, parts[i]) && Nested(parts[i]) {
      assert Closed(parts[i]);
    }
    JoinIsNested(parts);
  }

  predicate TableFits(ins: Insert) {
    Trimmed(ins.table) && '(' !in ins.table
  }

  ghost predicate WellFormed(ins: Insert) {
    && TableFits(ins) && |ins.columns| == |ins.values| >= 1
    && Listed(ins.columns) && Listed(ins.values)
  }

  /** The statement without the white space around its columns and values. */
  function TrimmedLists(ins: Insert): Insert {
    ins.(columns := TrimAll(ins.columns), values := TrimAll(ins.values))
  }

  /** Everything about a statement's text that is free: letter case, white space, and what follows the first row. */
  datatype Layout = Layout(lead: string, head: string, afterHead: string, beforeList: string, beforeWord: string,
                           word: string, afterWord: string, tail: string)
  {
    predicate Fits() {
      && IsBlank(lead) && IsBlank(afterHead) && IsBlank(beforeList) && IsBlank(beforeWord) && IsBlank(afterWord)
      && Lower(head) == "insert into " && Lower(word) == "values"
    }
  }

  const PRINTED := Layout("", "INSERT INTO ", "", "", " ", "VALUES", " ", "")

  /** The value list and what follows it. */
  function RowText(ins: Insert, tail: string): string {
    "(" + (Join(ins.values, ", ") + ")" + tail)
  }

  function ValuesText(ins: Insert, l: Layout, tail: string): string {
    l.beforeWord + (l.word + (l.afterWord + RowText(ins, tail)))
  }

  function ColumnsText(ins: Insert, rest: string): string {
    "(" + (Join(ins.columns, ", ") + ")" + rest)
  }

  function HeadText(ins: Insert, l: Layout): string {
    l.head + (l.afterHead + ins.table + l.beforeList)
  }

  function InsertText(ins: Insert, l: Layout): string {
    l.lead + (HeadText(ins, l) + ColumnsText(ins, ValuesText(ins, l, l.tail)))
  }

  lemma PrintedText(ins: Insert)
    ensures PRINTED.Fits() && InsertText(ins, PRINTED) == Print(ins)
  {
    assert Lower("INSERT INTO ") == "insert into ";
    assert Lower("VALUES") == "values";
    Flatten(ins.table, Join(ins.columns, ", "), Join(ins.values, ", "));
  }

  lemma Flatten(table: string, c: string, v: string)
    ensures "" + (("INSERT INTO " + ("" + table + ""))
      + ("(" + (c + ")" + (" " + ("VALUES" + (" " + ("(" + (v + ")" + ""))))))))
      == "INSERT INTO " + table + "(" + c + ") VALUES (" + v + ")"
  {
    assert "" + table + "" == table;
    var row := "(" + (v + ")" + "");
    assert row == "(" + v + ")";
    assert c + ")" + (" " + ("VALUES" + (" " + row))) == c + ") VALUES " + row;
  }

  lemma {:induction false} TrimRightBehind(core: string, tail: string)
    requires core != "" && !IsSpace(core[|core| - 1])
    ensures TrimRight(core + tail) == core + TrimRight(tail)
    decreases |tail|
  {
    if tail == "" {
      assert core + tail == core;
    } else if IsSpace(tail[|tail| - 1]) {
      assert (core + tail)[..|core + tail| - 1] == core + tail[..|tail| - 1];
      TrimRightBehind(core, tail[..|tail| - 1]);
    }
  }

  /** Trimming a text that ends in a parenthesis and a tail cuts only blanks in front and at the end of the tail. */
  lemma TrimKeepsCore(blank: string, core: string, tail: string)
    requires IsBlank(blank) && core != "" && !IsSpace(core[0]) && !IsSpace(core[|core| - 1])
    ensures Trim(blank + (core + tail)) == core + TrimRight(tail)
  {
    TrimLeftSkips(blank, core + tail);
    TrimRightBehind(core, tail);
  }

  lemma TrimRightTwice(tail: string)
    ensures TrimRight(TrimRight(tail)) == TrimRight(tail)
  {
    TrimRightFacts(tail);
  }

  lemma RowTextCore(ins: Insert, tail: string)
    ensures RowText(ins, tail) == RowText(ins, "") + tail
  {
  }

  // ---------- the shape of a statement, by position ----------

  /** The text w stands in t at position i. */
  ghost predicate At(t: string, i: int, w: string) {
    0 <= i && i + |w| <= |t| && forall k :: 0 <= k < |w| ==> t[i + k] == w[k]
  }

  lemma AtWhole(t: string)
    ensures At(t, 0, t)
  {
  }

  lemma AtSplit(t: string, i: int, x: string, y: string)
    requires At(t, i, x + y)
    ensures At(t, i, x) && At(t, i + |x|, y)
  {
    forall k | 0 <= k < |x| ensures t[i + k] == x[k] {
      assert (x + y)[k] == x[k];
    }
    forall k | 0 <= k < |y| ensures t[i + |x| + k] == y[k] {
      assert (x + y)[|x| + k] == y[k];
    }
  }

  lemma AtSlice(t: string, i: int, w: string)
    requires At(t, i, w)
    ensures t[i..i + |w|] == w
  {
  }

  ghost predicate ListAt(t: string, i: int, parts: seq<string>) {
    var body := Join(parts, ", ");
    0 <= i && i + |body| + 1 < |t| && t[i] == '(' && At(t, i + 1, body) && t[i + |body| + 1] == ')'
  }

  lemma ListFound(t: string, i: nat, parts: seq<string>)
    requires ListAt(t, i, parts) && Nested(Join(parts, ", "))
    ensures Closing(t[i..]) == Some(|Join(parts, ", ")| + 1)
  {
    var body := Join(parts, ", ");
    AtSlice(t, i + 1, body);
    var rest := t[i + |body| + 2..];
    assert t[i..] == "(" + body + ")" + rest;
    ClosingFindsEnd(body, rest);
  }

  lemma ListSplits(t: string, i: nat, parts: seq<string>)
    requires ListAt(t, i, parts) && |parts| >= 1 && forall k :: 0 <= k < |parts| ==> Clean(Comma, parts[k])
    ensures Split(Comma, t[i + 1..i + |Join(parts, ", ")| + 1]) == TrimAll(parts)
  {
    AtSlice(t, i + 1, Join(parts, ", "));
    SplitTrimsJoin(parts);
  }

  ghost predicate BlankBetween(t: string, i: int, j: int) {
    0 <= i <= j <= |t| && forall k :: i <= k < j ==> IsSpace(t[k])
  }

  lemma TrimsTo(t: string, i: nat, j: nat)
    requires BlankBetween(t, i, j) && j < |t| && !IsSpace(t[j]) && !IsSpace(t[|t| - 1])
    ensures Trim(t[i..]) == t[j..]
  {
    assert t[i..] == t[i..j] + t[j..];
    TrimLeftSkips(t[i..j], t[j..]);
  }

  lemma {:induction false} FirstIndex(s: string, c: char, n: nat)
    requires n < |s| && s[n] == c && forall k :: 0 <= k < n ==> s[k] != c
    ensures IndexOf(s, c) == Some(n)
    decreases n
  {
    if n > 0 {
      FirstIndex(s[1..], c, n - 1);
    }
  }

  lemma ParenAt(t: string, open: nat)
    requires 12 <= open < |t| && t[open] == '(' && forall k :: 12 <= k < open ==> t[k] != '('
    ensures IndexOf(t[12..], '(') == Some(open - 12)
  {
    FirstIndex(t[12..], '(', open - 12);
  }

  /** A trimmed INSERT whose column list opens at cols, whose key word stands at word and whose row opens at row. */
  ghost predicate Shape(t: string, ins: Insert, cols: int, word: int, row: int) {
    && HasPrefix(Lower(t), "insert into ")
    && 12 <= cols < |t| && (forall k :: 12 <= k < cols ==> t[k] != '(') && Trim(t[12..cols]) == ins.table
    && ListAt(t, cols, ins.columns)
    && BlankBetween(t, cols + |Join(ins.columns, ", ")| + 2, word)
    && word + 6 <= |t| && Lower(t[word..word + 6]) == "values"
    && BlankBetween(t, word + 6, row) && ListAt(t, row, ins.values)
    && !IsSpace(t[|t| - 1])
  }

  lemma ColumnSpanIs(t: string, cols: nat, k: nat)
    requires HasPrefix(Lower(t), "insert into ") && 12 <= cols <= |t| && IndexOf(t[12..], '(') == Some(cols - 12)
    requires Closing(t[cols..]) == Some(k + 1)
    ensures ColumnSpan(t) == Some(Span(cols, cols + k + 1))
  {
    assert 12 + (cols - 12) == cols;
  }

  lemma ValueSpanIs(t: string, close: nat, word: nat, row: nat, k: nat)
    requires close < |t| && word + 6 <= |t| && Trim(t[close + 1..]) == t[word..]
    requires HasPrefix(Lower(t[word..]), "values") && row < |t| && Trim(t[word..][6..]) == t[row..] && t[row] == '('
    requires Closing(t[row..]) == Some(k + 1)
    ensures ValueSpan(t, close) == Some(Span(row, row + k + 1))
  {
    assert |t| - |t[row..]| == row && t[row..][..1] == "(";
  }

  lemma ListsAre(t: string, ins: Insert, cols: nat, row: nat)
    requires ColumnSpan(t) == Some(Span(cols, cols + |Join(ins.columns, ", ")| + 1))
    requires ValueSpan(t, cols + |Join(ins.columns, ", ")| + 1) == Some(Span(row, row + |Join(ins.values, ", ")| + 1))
    requires Split(Comma, t[cols + 1..cols + |Join(ins.columns, ", ")| + 1]) == TrimAll(ins.columns)
    requires Split(Comma, t[row + 1..row + |Join(ins.values, ", ")| + 1]) == TrimAll(ins.values)
    requires Trim(t[12..cols]) == ins.table && |ins.columns| == |ins.values| >= 1
    ensures ParseTrimmed(t) == Some(TrimmedLists(ins))
  {
    hide ColumnSpan, ValueSpan, Split, Trim, Join;
  }

  lemma ShapeColumns(t: string, ins: Insert, cols: int, word: int, row: int)
    requires Shape(t, ins, cols, word, row) && WellFormed(ins)
    ensures ColumnSpan(t) == Some(Span(cols, cols + |Join(ins.columns, ", ")| + 1))
  {
    hide Closing, Join, Trim, At, BlankBetween, Lower, ColumnSpan, IndexOf, Nested, Clean;
    ParenAt(t, cols);
    ListFound(t, cols, ins.columns);
    ColumnSpanIs(t, cols, |Join(ins.columns, ", ")|);
  }

  lemma WordAt(t: string, word: nat)
    requires word + 6 <= |t| && Lower(t[word..word + 6]) == "values"
    ensures HasPrefix(Lower(t[word..]), "values") && !IsSpace(t[word]) && t[word..][6..] == t[word + 6..]
  {
    assert Lower(t[word..])[..6] == Lower(t[word..word + 6]);
    assert Lower(t[word..word + 6])[0] == LowerChar(t[word]);
  }

  lemma ShapeValues(t: string, ins: Insert, cols: int, word: int, row: int)
    requires Shape(t, ins, cols, word, row) && WellFormed(ins)
    ensures ValueSpan(t, cols + |Join(ins.columns, ", ")| + 1) == Some(Span(row, row + |Join(ins.values, ", ")| + 1))
  {
    hide Trim, Join, Closing, Lower, ValueSpan, Nested, Clean;
    var close := cols + |Join(ins.columns, ", ")| + 1;
    WordAt(t, word);
    TrimsTo(t, close + 1, word);
    TrimsTo(t, word + 6, row);
    ListFound(t, row, ins.values);
    ValueSpanIs(t, close, word, row, |Join(ins.values, ", ")|);
  }

  lemma ShapeParses(t: string, ins: Insert, cols: int, word: int, row: int)
    requires Shape(t, ins, cols, word, row) && WellFormed(ins)
    ensures ParseTrimmed(t) == Some(TrimmedLists(ins))
  {
    hide ColumnSpan, ValueSpan, Split, Trim, Join, At, BlankBetween, Lower, ParseTrimmed, TrimmedLists,
         Nested, Clean;
    ShapeColumns(t, ins, cols, word, row);
    ShapeValues(t, ins, cols, word, row);
    ListSplits(t, cols, ins.columns);
    ListSplits(t, row, ins.values);
    ListsAre(t, ins, cols, row);
  }

  lemma ListText(t: string, i: nat, parts: seq<string>, rest: string)
    requires At(t, i, "(" + (Join(parts, ", ") + ")" + rest))
    ensures ListAt(t, i, parts) && At(t, i + |Join(parts, ", ")| + 2, rest)
  {
    var body := Join(parts, ", ");
    AtSplit(t, i, "(", body + ")" + rest);
    AtSplit(t, i + 1, body + ")", rest);
    AtSplit(t, i + 1, body, ")");
    assert "("[0] == '(' && ")"[0] == ')';
  }

  lemma BlankText(t: string, i: nat, blank: string, rest: string)
    requires At(t, i, blank + rest) && IsBlank(blank)
    ensures BlankBetween(t, i, i + |blank|) && At(t, i + |blank|, rest)
  {
    AtSplit(t, i, blank, rest);
    forall k | i <= k < i + |blank| ensures IsSpace(t[k]) {
      assert t[i + (k - i)] == blank[k - i];
    }
  }

  lemma HeadAt(t: string, head: string, name: string, rest: string)
    requires At(t, 0, head + (name + rest)) && Lower(head) == "insert into " && '(' !in name
    ensures HasPrefix(Lower(t), "insert into ")
    ensures At(t, 12 + |name|, rest) && t[12..12 + |name|] == name
    ensures forall k :: 12 <= k < 12 + |name| ==> t[k] != '('
  {
    AtSplit(t, 0, head, name + rest);
    AtSplit(t, 12, name, rest);
    AtSlice(t, 0, head);
    AtSlice(t, 12, name);
    assert Lower(t)[..12] == Lower(head);
    forall k | 12 <= k < 12 + |name| ensures t[k] != '(' {
      assert t[12 + (k - 12)] == name[k - 12];
    }
  }

  lemma LastChar(ins: Insert, tail: string, t: string)
    requires t != "" && TrimRight(tail) == tail && At(t, |t| - |RowText(ins, tail)|, RowText(ins, tail))
    ensures !IsSpace(t[|t| - 1])
  {
    var row := RowText(ins, tail);
    TrimRightFacts(tail);
    assert t[|t| - |row| + (|row| - 1)] == row[|row| - 1];
    if tail == "" {
      assert row == "(" + Join(ins.values, ", ") + ")";
    } else {
      assert row[|row| - 1] == tail[|tail| - 1];
    }
  }

  lemma ValuesAt(t: string, i: nat, ins: Insert, l: Layout, tail: string)
    requires At(t, i, ValuesText(ins, l, tail)) && l.Fits()
    ensures var word := i + |l.beforeWord|;
      var row := word + 6 + |l.afterWord|;
      && BlankBetween(t, i, word) && word + 6 <= |t| && Lower(t[word..word + 6]) == "values"
      && BlankBetween(t, word + 6, row) && At(t, row, RowText(ins, tail))
  {
    var behind := l.afterWord + RowText(ins, tail);
    BlankText(t, i, l.beforeWord, l.word + behind);
    var word := i + |l.beforeWord|;
    AtSplit(t, word, l.word, behind);
    AtSlice(t, word, l.word);
    BlankText(t, word + 6, l.afterWord, RowText(ins, tail));
  }

  lemma ColumnsAt(t: string, ins: Insert, l: Layout, rest: string)
    requires At(t, 0, HeadText(ins, l) + ColumnsText(ins, rest)) && TableFits(ins) && l.Fits()
    ensures var cols := |HeadText(ins, l)|;
      && HasPrefix(Lower(t), "insert into ") && 12 <= cols < |t|
      && (forall k :: 12 <= k < cols ==> t[k] != '(') && Trim(t[12..cols]) == ins.table
      && ListAt(t, cols, ins.columns) && At(t, cols + |Join(ins.columns, ", ")| + 2, rest)
  {
    var name := l.afterHead + ins.table + l.beforeList;
    BlankHasNoParen(l.afterHead);
    BlankHasNoParen(l.beforeList);
    TrimCore(l.afterHead, ins.table, l.beforeList);
    Regroup(l.head, name, ColumnsText(ins, rest));
    HeadAt(t, l.head, name, ColumnsText(ins, rest));
    ListText(t, 12 + |name|, ins.columns, rest);
  }

  lemma RowAt(t: string, ins: Insert, row: int, tail: string)
    requires At(t, row, RowText(ins, tail)) && |t| == row + |RowText(ins, tail)| && TrimRight(tail) == tail
    ensures ListAt(t, row, ins.values) && !IsSpace(t[|t| - 1])
  {
    ListText(t, row, ins.values, tail);
    LastChar(ins, tail, t);
  }

  lemma TextLength(ins: Insert, l: Layout, tail: string)
    requires l.Fits()
    ensures |HeadText(ins, l) + ColumnsText(ins, ValuesText(ins, l, tail))| == |HeadText(ins, l)|
      + |Join(ins.columns, ", ")| + 2 + |l.beforeWord| + 6 + |l.afterWord| + |RowText(ins, tail)|
  {
  }

  /** A printed statement has that shape. */
  lemma TextHasShape(t: string, ins: Insert, l: Layout, tail: string) returns (cols: nat, word: nat, row: nat)
    requires TableFits(ins) && l.Fits() && TrimRight(tail) == tail
    requires t == HeadText(ins, l) + ColumnsText(ins, ValuesText(ins, l, tail))
    ensures Shape(t, ins, cols, word, row)
  {
    hide HeadText, ColumnsText, ValuesText, RowText, Join, Trim, At, Lower, BlankBetween, ListAt;
    AtWhole(t);
    TextLength(ins, l, tail);
    ColumnsAt(t, ins, l, ValuesText(ins, l, tail));
    cols := |HeadText(ins, l)|;
    var behind := cols + |Join(ins.columns, ", ")| + 2;
    ValuesAt(t, behind, ins, l, tail);
    word := behind + |l.beforeWord|;
    row := word + 6 + |l.afterWord|;
    RowAt(t, ins, row, tail);
  }

  lemma BlankHasNoParen(s: string)
    requires IsBlank(s)
    ensures '(' !in s
  {
  }

  /**
   * Parsing recovers a printed statement exactly, in any letter case and spacing - and ignores whatever follows the
   * first row, which includes any further row.
   */
  lemma ParsePrinted(ins: Insert, l: Layout)
    requires WellFormed(ins) && l.Fits()
    ensures ParseInsert(InsertText(ins, l)) == Some(TrimmedLists(ins))
  {
    var tail := TrimRight(l.tail);
    TrimRightTwice(l.tail);
    TrimmedStatement(ins, l);
    var t := Trim(InsertText(ins, l));
    var cols, word, row := TextHasShape(t, ins, l, tail);
    ShapeParses(t, ins, cols, word, row);
  }

  lemma TrimmedStatement(ins: Insert, l: Layout)
    requires l.Fits()
    ensures Trim(InsertText(ins, l)) == HeadText(ins, l) + ColumnsText(ins, ValuesText(ins, l, TrimRight(l.tail)))
  {
    var core := HeadText(ins, l) + ColumnsText(ins, ValuesText(ins, l, ""));
    forall tail ensures HeadText(ins, l) + ColumnsText(ins, ValuesText(ins, l, tail)) == core + tail {
      RowTextCore(ins, tail);
    }
    assert Lower(l.head)[0] == LowerChar(l.head[0]);
    TrimKeepsCore(l.lead, core, l.tail);
  }

  // ---------- rewriting ----------

  /** A printed list that reads the same in both forms starts with the same element. */
  lemma HeadsAgree(column: string, rest: string, rest': string)
    requires Clean(Comma, column) && (rest == "" || rest[0] == ',') && (rest' == "" || rest'[0] == ',')
    requires NormalizeColumn(Trim(column)) + rest' == column + rest
    ensures NormalizeColumn(Trim(column)) == column
  {
    var name := NormalizeColumn(Trim(column));
    if |name| > |column| {
      LongerIsStamp(column);
      CommaFollows(column, rest, name, rest');
    } else if |name| < |column| {
      CommaFollows(name, rest', column, rest);
      ShorterHasNoComma(column, |name|);
    } else {
      assert (name + rest')[..|name|] == name && (column + rest)[..|name|] == column;
    }
  }

  lemma CommaFollows(a: string, rest: string, b: string, rest': string)
    requires a + rest == b + rest' && |a| < |b| && (rest == "" || rest[0] == ',')
    ensures b[|a|] == ',' && b[..|a|] == a
  {
    assert (a + rest)[|a|] == rest[0] && (b + rest')[|a|] == b[|a|];
    assert (a + rest)[..|a|] == a && (b + rest')[..|a|] == b[..|a|];
  }

  lemma LongerIsStamp(column: string)
    requires |NormalizeColumn(Trim(column))| > |column|
    ensures ',' !in NormalizeColumn(Trim(column))
  {
    NormalizedIs(Trim(column));
    var front, back := TrimmedPart(column);
    var front', back' := InsidePart(Trim(column));
    LastDotFacts(Inside(Trim(column)));
  }

  /** No prefix of a column that a comma follows is what the column is rewritten to. */
  lemma ShorterHasNoComma(column: string, n: nat)
    requires Clean(Comma, column) && n < |column| && column[n] == ','
    ensures NormalizeColumn(Trim(column)) != column[..n]
  {
    hide Clean, NormalizeColumn;
    if NormalizeColumn(Trim(column)) == column[..n] {
      NameInFrontCloses(column, n);
      CommaIsSeen(column, n);
    }
  }

  lemma CommaIsSeen(column: string, n: nat)
    requires n < |column| && column[n] == ',' && !Open(column[..n])
    ensures !Clean(Comma, column)
  {
    assert column == column[..n] + column[n..];
    OpenBehind(column[..n], column[n..], 0);
    assert SepAt(Comma, column, n);
  }

  lemma NameInFrontCloses(column: string, n: nat)
    requires Clean(Comma, column) && n <= |column| && NormalizeColumn(Trim(column)) == column[..n]
    ensures !Open(column[..n])
  {
    hide Clean, NameIn, NormalizeColumn, IsRootPath, IsStamp, Trim, OpenAt;
    var c := Trim(column);
    NormalizedIs(c);
    if IsStamp(NameIn(c)) {
      PlainIsFlat("timestamp");
    } else if IsRootPath(c) {
      RootNameCloses(column, n);
    } else {
      InsideCloses(column);
    }
  }

  lemma InsideCloses(column: string)
    requires Clean(Comma, column) && !IsRootPath(Trim(column))
    ensures !Open(NameIn(Trim(column)))
  {
    hide Clean, Inside, Trim, OpenAt;
    var c := Trim(column);
    TrimIsClean(column);
    var front, back := InsidePart(c);
    CoreIsClean(front, Inside(c), back);
    CleanIsNotOpen(Inside(c));
  }

  /** A name that was cut at a dot has none; the column's own stands right behind `root`, before any quote. */
  lemma RootNameCloses(column: string, n: nat)
    requires IsRootPath(Trim(column)) && n <= |column| && NameIn(Trim(column)) == column[..n]
    ensures !Open(column[..n])
  {
    hide Inside, Trim, OpenAt;
    var inside := Inside(Trim(column));
    var front, back := TrimmedPart(column);
    var front', back' := InsidePart(Trim(column));
    LastDotFacts(inside);
    assert column == front + ((front' + inside) + (back' + back)) by {
      Regroup(front', inside, back');
      Regroup(front' + inside, back', back);
    }
    RootHead(column, front, front', inside, back' + back);
    PlainCloses(column[..n]);
  }

  lemma CleanIsNotOpen(v: string)
    requires Clean(Comma, v)
    ensures !Open(v)
  {
  }

  lemma RootHead(column: string, front: string, front': string, inside: string, back: string)
    requires Plain(front) && Plain(front') && HasPrefix(inside, "root.") && column == front + ((front' + inside) + back)
    ensures var at := |front| + |front'|;
      && at + 5 <= |column| && column[at + 4] == '.'
      && forall q :: 0 <= q < at + 5 ==> column[q] != '\''
  {
    var at := |front| + |front'|;
    var head := front + (front' + "root.");
    assert inside == "root." + inside[5..];
    assert forall q :: 0 <= q < |head| ==> column[q] == head[q];
    assert "root."[4] == '.';
  }

  lemma {:induction false} JoinedAgree(columns: seq<string>, again: seq<string>)
    requires |columns| == |again| && Join(again, ", ") == Join(columns, ", ")
    requires forall i :: 0 <= i < |columns| ==>
      Clean(Comma, columns[i]) && again[i] == NormalizeColumn(Trim(columns[i]))
    ensures again == columns
    decreases |columns|
  {
    hide NormalizeColumn, Clean;
    if columns != [] {
      var rest := if |columns| == 1 then "" else ", " + Join(columns[1..], ", ");
      var rest' := if |columns| == 1 then "" else ", " + Join(again[1..], ", ");
      assert Join(columns, ", ") == columns[0] + rest && Join(again, ", ") == again[0] + rest';
      HeadsAgree(columns[0], rest, rest');
      if |columns| > 1 {
        SameRest(columns[0], Join(columns[1..], ", "), Join(again[1..], ", "));
        JoinedAgree(columns[1..], again[1..]);
      }
    }
  }

  lemma SameRest(head: string, a: string, b: string)
    requires head + (", " + a) == head + (", " + b)
    ensures a == b
  {
    assert (head + (", " + a))[|head| + 2..] == a;
    assert (head + (", " + b))[|head| + 2..] == b;
  }

  /** Two statements with the same table and values print alike only when their column lists do. */
  lemma PrintDetermines(table: string, columns: string, columns': string, values: string)
    requires "INSERT INTO " + table + "(" + columns + ") VALUES (" + values + ")"
      == "INSERT INTO " + table + "(" + columns' + ") VALUES (" + values + ")"
    ensures columns == columns'
  {
    var head := "INSERT INTO " + table + "(";
    assert (head + columns + ") VALUES (" + values + ")")[|head|..|head| + |columns|] == columns;
    assert (head + columns' + ") VALUES (" + values + ")")[|head|..|head| + |columns'|] == columns';
  }

  /** A statement as one of the rewrites prints it. */
  ghost predicate Printable(prefix: string, numeric: string -> bool, n: Insert) {
    && WellFormed(n) && QualifyPath(prefix, n.table) == n.table
    && (forall i :: 0 <= i < |n.columns| ==> Shortened(n.columns[i]))
    && forall i :: 0 <= i < |n.values| ==> Trimmed(n.values[i]) && NormalizeValue(numeric, n.values[i]) == n.values[i]
  }

  /** The INSERT rewrite leaves it alone if and only if no column has white space or quoting marks at its ends. */
  lemma PrintedStaysIff(prefix: string, numeric: string -> bool, n: Insert)
    requires Printable(prefix, numeric, n)
    ensures ParseInsert(Print(n)) == Some(TrimmedLists(n))
    ensures InsertRewrite(prefix, numeric, Print(n)) == Print(n)
      <==> forall i :: 0 <= i < |n.columns| ==> Bounded(n.columns[i])
  {
    hide Clean, Nested, NormalizeColumn, NormalizeValue, ParseInsert, QualifyPath, Bounded, Shortened, Trimmed;
    PrintedText(n);
    ParsePrinted(n, PRINTED);
    TrimAllSame(n.values);
    var m := Normalized(prefix, numeric, TrimmedLists(n));
    assert m.values == n.values && m.table == n.table;
    forall i | 0 <= i < |n.columns| ensures m.columns[i] == n.columns[i] <==> Bounded(n.columns[i]) {
      ShortenedStaysIff(n.columns[i]);
    }
    if Print(m) == Print(n) {
      PrintDetermines(n.table, Join(m.columns, ", "), Join(n.columns, ", "), Join(n.values, ", "));
      JoinedAgree(n.columns, m.columns);
    } else {
      assert m.columns != n.columns;
    }
  }

  // ---------- what the rewrite drops ----------

  /** Two statements that differ only in the rows after the first are rewritten to the same text. */
  lemma FurtherRowsAreDropped(prefix: string, numeric: string -> bool, ins: Insert, l: Layout, rows: string)
    requires WellFormed(ins) && l.Fits()
    ensures InsertRewrite(prefix, numeric, InsertText(ins, l.(tail := ", " + rows)))
      == InsertRewrite(prefix, numeric, InsertText(ins, l))
  {
    ParsePrinted(ins, l.(tail := ", " + rows));
    ParsePrinted(ins, l);
  }
}
