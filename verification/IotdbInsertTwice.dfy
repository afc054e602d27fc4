/** What reading a statement, rewriting it and reading it again comes to, for every text. */
module IotdbInsertTwice {
  import opened Wrappers
  import opened Text
  import opened SqlScan
  import opened SqlLists
  import opened SqlParts
  import opened IotdbInsert
  import opened IotdbColumns
  import opened IotdbInsertLaws

  // ---------- what is read from a statement ----------

  lemma {:induction false} FoundFirst(s: string, c: char)
    ensures match IndexOf(s, c) { case None => true case Some(n) => c !in s[..n] }
    decreases |s|
  {
    if s != "" && s[0] != c {
      FoundFirst(s[1..], c);
      var n := IndexOf(s, c);
      if n.Some? {
        assert s[..n.value] == [s[0]] + s[1..][..n.value - 1];
      }
    }
  }

  lemma CutInThree(s: string, i: nat, j: nat)
    requires i <= j <= |s|
    ensures s == s[..i] + (s[i..j] + s[j..]) == (s[..i] + s[i..j]) + s[j..]
  {
  }

  /** A piece between separators holds none, and its literals are closed. */
  lemma PieceIsClean(s: string, start: nat, end: nat)
    requires start <= end <= |s| && !OpenAt(s, start) && !OpenAt(s, end)
    requires forall j :: start <= j < end ==> !SepAt(Comma, s, j)
    ensures Clean(Comma, s[start..end])
  {
    var a, p, b := s[..start], s[start..end], s[end..];
    CutInThree(s, start, end);
    OpenInFront(a, p + b, start);
    OpenInFront(a + p, b, end);
    OpenConcat(a, p);
    forall i | 0 <= i < |p| ensures !SepAt(Comma, p, i) {
      SepInFront(Comma, p, b, i);
      SepBehind(Comma, a, p + b, i);
    }
  }

  /** Whatever splitCSV makes of a text with closed literals are single parts. */
  lemma {:induction false} PiecesAreClean(s: string, start: nat, idx: nat)
    requires start <= idx <= |s| && !Open(s) && !OpenAt(s, start)
    requires forall j :: start <= j < idx ==> !SepAt(Comma, s, j)
    ensures forall p :: p in SplitFrom(Comma, s, start, idx) ==> Clean(Comma, p) && Trimmed(p)
    decreases |s| - idx
  {
    hide Clean, Trim, Trimmed;
    if idx == |s| || SepAt(Comma, s, idx) {
      PieceIsClean(s, start, idx);
      TrimIsClean(s[start..idx]);
      TrimFacts(s[start..idx]);
      if idx == |s| {
        assert s[start..idx] == s[start..];
      } else {
        PiecesAreClean(s, idx + 1, idx + 1);
      }
    } else {
      PiecesAreClean(s, start, idx + 1);
    }
  }

  lemma ListIsClean(t: string, open: nat, close: nat)
    requires open < close < |t| && t[open] == '(' && Closing(t[open..]) == Some(close - open)
    ensures forall p :: p in Split(Comma, t[open + 1..close]) ==> Clean(Comma, p) && Trimmed(p)
  {
    hide Clean, Closing, Trimmed;
    var body := t[open + 1..close];
    ClosingEncloses(t[open..]);
    assert t[open..][1..close - open] == body;
    PiecesAreClean(body, 0, 0);
  }

  /** In a text that ends in no white space, what is trimmed behind a place is a rest of the text. */
  lemma TrimmedRest(t: string, k: nat)
    requires k <= |t| && (t == "" || !IsSpace(t[|t| - 1]))
    ensures var r := Trim(t[k..]); |r| <= |t| - k && r == t[|t| - |r|..]
  {
    var left := TrimLeft(t[k..]);
    TrimLeftFacts(t[k..]);
    assert left == t[|t| - |left|..];
    assert TrimRight(left) == left;
  }

  lemma ValuesOpenThere(t: string, closeCols: nat)
    requires closeCols < |t| && !IsSpace(t[|t| - 1]) && ValueSpan(t, closeCols).Some?
    ensures var v := ValueSpan(t, closeCols).value;
      t[v.open] == '(' && Closing(t[v.open..]) == Some(v.close - v.open)
  {
    hide Trim, Closing, Lower;
    var afterCols := Trim(t[closeCols + 1..]);
    TrimmedRest(t, closeCols + 1);
    var k := |t| - |afterCols| + 6;
    assert afterCols[6..] == t[k..];
    TrimmedRest(t, k);
    var afterValues := Trim(afterCols[6..]);
    assert afterValues[..1] == "(" && afterValues[0] == t[|t| - |afterValues|];
  }

  /** Every statement that is read has clean, trimmed parts in both lists and a table without parentheses. */
  lemma ReadIsClean(sql: string)
    requires ParseInsert(sql).Some?
    ensures var ins := ParseInsert(sql).value;
      && Trimmed(ins.table) && '(' !in ins.table && |ins.columns| == |ins.values| >= 1
      && (forall p :: p in ins.columns ==> Clean(Comma, p) && Trimmed(p))
      && (forall p :: p in ins.values ==> Clean(Comma, p) && Trimmed(p))
  {
    hide Clean, Closing, Split, Lower, ValueSpan, IndexOf;
    var t := Trim(sql);
    TrimFacts(sql);
    var cols := ColumnSpan(t).value;
    var vals := ValueSpan(t, cols.close).value;
    TableAt(t);
    ValuesOpenThere(t, cols.close);
    ListIsClean(t, cols.open, cols.close);
    ListIsClean(t, vals.open, vals.close);
    TrimFacts(t[12..cols.open]);
    TrimSubset(t[12..cols.open], '(');
  }

  lemma TableAt(t: string)
    requires ColumnSpan(t).Some?
    ensures var cols := ColumnSpan(t).value; '(' !in t[12..cols.open]
    ensures var cols := ColumnSpan(t).value;
      t[cols.open] == '(' && Closing(t[cols.open..]) == Some(cols.close - cols.open)
  {
    hide Closing, Lower;
    var cols := ColumnSpan(t).value;
    FoundFirst(t[12..], '(');
    FoundThere(t[12..], '(');
    assert t[12..][..cols.open - 12] == t[12..cols.open];
  }

  lemma {:induction false} FoundThere(s: string, c: char)
    ensures match IndexOf(s, c) { case None => true case Some(n) => s[n] == c }
    decreases |s|
  {
    if s != "" && s[0] != c {
      FoundThere(s[1..], c);
    }
  }

  // ---------- rewriting twice ----------

  /** What the rewrite prints can be read again: the names and the values still make two lists. */
  ghost predicate StaysListed(prefix: string, numeric: string -> bool, ins: Insert) {
    && Listed(Normalized(prefix, numeric, ins).columns)
    && Nested(Join(Normalized(prefix, numeric, ins).values, ", "))
  }

  lemma ValueStaysClean(numeric: string -> bool, value: string)
    requires NumbersArePlain(numeric) && Clean(Comma, value)
    ensures Clean(Comma, NormalizeValue(numeric, value)) && Trimmed(NormalizeValue(numeric, value))
  {
    var trimmed := Trim(value);
    TrimIsClean(value);
    TrimFacts(value);
    match StripSqlString(trimmed)
    case None =>
    case Some(unquoted) =>
      LiteralStaysClosed(numeric, unquoted);
  }

  lemma LiteralStaysClosed(numeric: string -> bool, unquoted: string)
    requires NumbersArePlain(numeric)
    ensures var content := Trim(unquoted);
      Atomic(if Bare(numeric, content) then Lower(content) else QuoteLiteral(content))
  {
    var content := Trim(unquoted);
    TrimFacts(unquoted);
    if Bare(numeric, content) {
      BareIsPlain(numeric, content);
      LowerKeeps(content);
      PlainIsClosed(Lower(content));
    } else {
      LiteralIsAtomic(content);
    }
  }

  lemma NormalizedIsPrintable(prefix: string, numeric: string -> bool, sql: string)
    requires '(' !in prefix && NumbersArePlain(numeric) && ParseInsert(sql).Some?
    requires StaysListed(prefix, numeric, ParseInsert(sql).value)
    ensures Printable(prefix, numeric, Normalized(prefix, numeric, ParseInsert(sql).value))
  {
    hide Clean, Nested, NormalizeColumn, NormalizeValue, QualifyPath, Shortened, ParseInsert, Trimmed;
    var ins := ParseInsert(sql).value;
    ReadIsClean(sql);
    QualifyPathTwice(prefix, ins.table);
    QualifiedHasNoParen(prefix, ins.table);
    forall i | 0 <= i < |ins.columns| ensures Shortened(NormalizeColumn(ins.columns[i])) {
      NormalizedIsShortened(ins.columns[i]);
    }
    forall i | 0 <= i < |ins.values|
      ensures var v := NormalizeValue(numeric, ins.values[i]);
        Clean(Comma, v) && Trimmed(v) && NormalizeValue(numeric, v) == v
    {
      assert ins.values[i] in ins.values;
      ValueStaysClean(numeric, ins.values[i]);
      NormalizeValueTwice(numeric, ins.values[i]);
    }
  }

  /**
   * Rewriting any INSERT yields the normalised statement, whose lists are as long and in the same order, and which
   * reads back; and rewriting the outcome changes nothing more if and only if every column is settled. A statement
   * that is not read stays as it is.
   */
  lemma InsertRewriteTwiceIff(prefix: string, numeric: string -> bool, sql: string)
    requires '(' !in prefix && NumbersArePlain(numeric)
    requires ParseInsert(sql).Some? ==> StaysListed(prefix, numeric, ParseInsert(sql).value)
    ensures var once := InsertRewrite(prefix, numeric, sql);
      match ParseInsert(sql) {
        case None => once == sql
        case Some(ins) =>
          && once == Print(Normalized(prefix, numeric, ins))
          && ParseInsert(once) == Some(TrimmedLists(Normalized(prefix, numeric, ins)))
          && (InsertRewrite(prefix, numeric, once) == once
              <==> forall i :: 0 <= i < |ins.columns| ==> Settled(ins.columns[i]))
      }
  {
    hide NormalizeColumn, NormalizeColumns, NormalizeValues, WellFormed, Settled, Bounded, Print, ParseInsert,
         Printable, TrimmedLists, StaysListed;
    if ParseInsert(sql).Some? {
      NormalizedIsPrintable(prefix, numeric, sql);
      PrintedStaysIff(prefix, numeric, Normalized(prefix, numeric, ParseInsert(sql).value));
      NamesBoundedIff(prefix, numeric, ParseInsert(sql).value);
    }
  }

  lemma NamesBoundedIff(prefix: string, numeric: string -> bool, ins: Insert)
    ensures var n := Normalized(prefix, numeric, ins).columns;
      |n| == |ins.columns| && forall i :: 0 <= i < |n| ==> (Settled(ins.columns[i]) <==> Bounded(n[i]))
  {
    hide NormalizeColumn, Settled, Bounded;
    forall i | 0 <= i < |ins.columns| ensures Settled(ins.columns[i]) <==> Bounded(NormalizeColumn(ins.columns[i])) {
      NormalizedIsShortened(ins.columns[i]);
    }
  }

  // ---------- when the outcome reads back ----------

  lemma TrimIsLonger(a: string, b: string)
    requires b != "" && b[0] == ')'
    ensures |Trim(a + b)| > |Trim(a)|
  {
    var front, back := TrimmedPart(a);
    var core := Trim(a);
    TrimFacts(a);
    if core == "" {
      assert a + b == (front + back) + b;
      TrimLeftSkips(front + back, b);
      EndsBehind("", b);
      assert "" + b == b;
    } else {
      assert a + b == front + (core + (back + b));
      TrimLeftSkips(front, core + (back + b));
      assert core + (back + b) == (core + back) + b;
      EndsBehind(core + back, b);
    }
  }

  lemma {:induction false} EndsBehind(a: string, b: string)
    requires b != "" && b[0] == ')'
    ensures |TrimRight(a + b)| > |a|
    decreases |b|
  {
    var s := a + b;
    if IsSpace(s[|s| - 1]) {
      assert s[..|s| - 1] == a + b[..|b| - 1];
      EndsBehind(a, b[..|b| - 1]);
    }
  }

  predicate IsCut(s: string, idx: nat, e: int) {
    idx <= e <= |s| && (e < |s| ==> SepAt(Comma, s, e))
  }

  /** The first piece reaches at least to the place the splitter has come to, or to the next separator behind it. */
  lemma {:induction false} FirstPiece(s: string, start: nat, idx: nat)
    requires start <= idx <= |s|
    ensures SplitFrom(Comma, s, start, idx) != []
    ensures exists e :: IsCut(s, idx, e) && SplitFrom(Comma, s, start, idx)[0] == Trim(s[start..e])
    decreases |s| - idx
  {
    hide Trim;
    if idx == |s| || SepAt(Comma, s, idx) {
      assert idx == |s| ==> s[start..] == s[start..idx];
      assert IsCut(s, idx, idx);
      assert SplitFrom(Comma, s, start, idx)[0] == Trim(s[start..idx]);
    } else {
      FirstPiece(s, start, idx + 1);
    }
  }

  /** Going on behind a list with a parenthesis changes what it splits into. */
  lemma {:induction false} LongerSplitsOtherwise(x: string, b: string, start: nat, idx: nat)
    requires b != "" && b[0] == ')' && start <= idx <= |x|
    ensures SplitFrom(Comma, x, start, idx) != SplitFrom(Comma, x + b, start, idx)
    decreases |x| - idx
  {
    hide Trim;
    var y := x + b;
    if idx == |x| {
      FirstPiece(y, start, idx);
      var e :| IsCut(y, idx, e) && SplitFrom(Comma, y, start, idx)[0] == Trim(y[start..e]);
      assert y[start..e] == x[start..] + b[..e - |x|];
      assert y[|x|] == ')';
      TrimIsLonger(x[start..], b[..e - |x|]);
    } else {
      SepInFront(Comma, x, b, idx);
      if SepAt(Comma, x, idx) {
        LongerSplitsOtherwise(x, b, idx + 1, idx + 1);
        assert SplitFrom(Comma, x, start, idx)[1..] == SplitFrom(Comma, x, idx + 1, idx + 1);
        assert SplitFrom(Comma, y, start, idx)[1..] == SplitFrom(Comma, y, idx + 1, idx + 1);
      } else {
        LongerSplitsOtherwise(x, b, start, idx + 1);
      }
    }
  }

  /** Two texts in front of parentheses in one text that split alike are one. */
  lemma SameList(x: string, y: string, restX: string, restY: string)
    requires x + restX == y + restY && Split(Comma, x) == Split(Comma, y)
    requires restX != "" && restX[0] == ')' && restY != "" && restY[0] == ')'
    ensures x == y
  {
    hide SplitFrom;
    if |x| < |y| {
      PrefixGoesOn(x, restX, y, restY);
      LongerSplitsOtherwise(x, y[|x|..], 0, 0);
    } else if |y| < |x| {
      PrefixGoesOn(y, restY, x, restX);
      LongerSplitsOtherwise(y, x[|y|..], 0, 0);
    } else {
      assert (x + restX)[..|x|] == x && (y + restY)[..|y|] == y;
    }
  }

  lemma PrefixGoesOn(x: string, restX: string, y: string, restY: string)
    requires x + restX == y + restY && |x| < |y| && restX != "" && restX[0] == ')'
    ensures y == x + y[|x|..] && y[|x|..] != "" && y[|x|..][0] == ')'
  {
    assert (x + restX)[..|x|] == x && (y + restY)[..|x|] == y[..|x|];
    assert (x + restX)[|x|] == restX[0];
  }

  lemma ListBack(t: string, i: nat, parts: seq<string>, close: nat)
    requires ListAt(t, i, parts) && i < close < |t| && Closing(t[i..]) == Some(close - i)
    requires |parts| >= 1 && forall k :: 0 <= k < |parts| ==> Clean(Comma, parts[k])
    requires Split(Comma, t[i + 1..close]) == TrimAll(parts)
    ensures close == i + |Join(parts, ", ")| + 1 && Nested(Join(parts, ", "))
  {
    hide Clean, Nested, Split, Join;
    var body := Join(parts, ", ");
    AtSlice(t, i + 1, body);
    ClosingFacts(t[i..], 0);
    assert t[close] == t[i..][close - i];
    SplitTrimsJoin(parts);
    assert t[i + 1..close] + t[close..] == t[i + 1..] == body + t[i + |body| + 1..];
    SameList(t[i + 1..close], body, t[close..], t[i + |body| + 1..]);
    ClosingEncloses(t[i..]);
    assert t[i..][1..close - i] == t[i + 1..close];
  }

  lemma UntrimmedIsClean(v: string)
    requires Clean(Comma, Trim(v))
    ensures Clean(Comma, v)
  {
    var front, back := TrimmedPart(v);
    PlainIsClosed(front);
    PlainIsClosed(back);
    CleanConcat(Trim(v), back);
    CleanConcat(front, Trim(v) + back);
  }

  lemma {:induction false} PartsAreClean(parts: seq<string>)
    requires forall p :: p in TrimAll(parts) ==> Clean(Comma, p)
    ensures forall i :: 0 <= i < |parts| ==> Clean(Comma, parts[i])
  {
    hide Clean;
    forall i | 0 <= i < |parts| ensures Clean(Comma, parts[i]) {
      assert TrimAll(parts)[i] in TrimAll(parts);
      UntrimmedIsClean(parts[i]);
    }
  }

  lemma ColumnsReadBack(t: string, n: Insert, cols: nat, word: nat, row: nat)
    requires Shape(t, n, cols, word, row) && |n.columns| >= 1 && ColumnSpan(t).Some?
    requires forall k :: 0 <= k < |n.columns| ==> Clean(Comma, n.columns[k])
    requires var span := ColumnSpan(t).value; Split(Comma, t[span.open + 1..span.close]) == TrimAll(n.columns)
    ensures Nested(Join(n.columns, ", "))
    ensures ColumnSpan(t).value.close == cols + |Join(n.columns, ", ")| + 1
  {
    hide Clean, Nested, Split, Join, Trim, Closing, Lower, At, IndexOf, BlankBetween;
    var span := ColumnSpan(t).value;
    TableAt(t);
    ParenAt(t, cols);
    ListBack(t, cols, n.columns, span.close);
  }

  lemma ValuesStart(t: string, close: nat, word: nat, row: nat)
    requires close < |t| && BlankBetween(t, close + 1, word) && word + 6 <= |t| && Lower(t[word..word + 6]) == "values"
    requires BlankBetween(t, word + 6, row) && row < |t| && t[row] == '(' && !IsSpace(t[|t| - 1])
    requires ValueSpan(t, close).Some?
    ensures ValueSpan(t, close).value.open == row
  {
    hide Trim, Closing, Lower;
    WordAt(t, word);
    TrimsTo(t, close + 1, word);
    TrimsTo(t, word + 6, row);
    assert |t| - |t[row..]| == row;
  }

  lemma ValuesReadBack(t: string, n: Insert, cols: nat, word: nat, row: nat, close: nat)
    requires Shape(t, n, cols, word, row) && |n.values| >= 1 && close == cols + |Join(n.columns, ", ")| + 1 < |t|
    requires forall k :: 0 <= k < |n.values| ==> Clean(Comma, n.values[k])
    requires ValueSpan(t, close).Some?
    requires var span := ValueSpan(t, close).value; Split(Comma, t[span.open + 1..span.close]) == TrimAll(n.values)
    ensures Nested(Join(n.values, ", "))
  {
    hide Clean, Nested, Split, Join, Trim, Closing, Lower, At, ValueSpan, BlankBetween;
    ValuesOpenThere(t, close);
    ValuesStart(t, close, word, row);
    ListBack(t, row, n.values, ValueSpan(t, close).value.close);
  }

  lemma ShapeReadsBack(t: string, n: Insert, cols: nat, word: nat, row: nat)
    requires Shape(t, n, cols, word, row) && |n.columns| == |n.values| >= 1
    requires forall k :: 0 <= k < |n.columns| ==> Clean(Comma, n.columns[k])
    requires forall k :: 0 <= k < |n.values| ==> Clean(Comma, n.values[k])
    requires ParseTrimmed(t) == Some(TrimmedLists(n))
    ensures Nested(Join(n.columns, ", ")) && Nested(Join(n.values, ", "))
  {
    hide Clean, Nested, Split, Join, Trim, ColumnSpan, ValueSpan, Shape;
    ColumnsReadBack(t, n, cols, word, row);
    ValuesReadBack(t, n, cols, word, row, ColumnSpan(t).value.close);
  }

  lemma BackIsListed(n: Insert)
    requires TableFits(n) && |n.columns| == |n.values| >= 1 && ParseInsert(Print(n)) == Some(TrimmedLists(n))
    ensures Listed(n.columns) && Nested(Join(n.values, ", "))
  {
    hide Clean, Nested, Print, Shape, InsertText, HeadText, ColumnsText, ValuesText, ParseTrimmed;
    PrintedText(n);
    ReadIsClean(Print(n));
    PartsAreClean(n.columns);
    PartsAreClean(n.values);
    TrimmedStatement(n, PRINTED);
    var t := Trim(Print(n));
    var cols, word, row := TextHasShape(t, n, PRINTED, "");
    ShapeReadsBack(t, n, cols, word, row);
  }

  /** The outcome of the rewrite reads back as the normalised lists exactly when the names and values make two lists. */
  lemma ReadsBackIff(prefix: string, numeric: string -> bool, sql: string)
    requires '(' !in prefix && NumbersArePlain(numeric) && ParseInsert(sql).Some?
    ensures var ins := ParseInsert(sql).value;
      var n := Normalized(prefix, numeric, ins);
      ParseInsert(InsertRewrite(prefix, numeric, sql)) == Some(TrimmedLists(n)) <==> StaysListed(prefix, numeric, ins)
  {
    hide Nested, Clean, NormalizeColumns, NormalizeValues, Print, ParseInsert, Trimmed, QualifyPath, Listed,
         TrimmedLists;
    var ins := ParseInsert(sql).value;
    var n := Normalized(prefix, numeric, ins);
    ReadIsClean(sql);
    QualifyPathTwice(prefix, ins.table);
    QualifiedHasNoParen(prefix, ins.table);
    if StaysListed(prefix, numeric, ins) {
      NormalizedIsPrintable(prefix, numeric, sql);
      PrintedStaysIff(prefix, numeric, n);
    } else if ParseInsert(Print(n)) == Some(TrimmedLists(n)) {
      BackIsListed(n);
    }
  }

  // ---------- closed parts ----------

  /** That holds for closed parts, as long as a path from the root has no quote, comma or parenthesis to be cut at. */
  lemma ClosedStayListed(prefix: string, numeric: string -> bool, ins: Insert)
    requires NumbersArePlain(numeric)
    requires forall i :: 0 <= i < |ins.columns| ==>
      Closed(ins.columns[i]) && (IsRootPath(ins.columns[i]) ==> Plain(ins.columns[i]))
    requires forall i :: 0 <= i < |ins.values| ==> Closed(ins.values[i])
    ensures StaysListed(prefix, numeric, ins)
  {
    hide Closed, NormalizeColumn, NormalizeValue, IsRootPath, Plain, Listed;
    var n := Normalized(prefix, numeric, ins);
    forall i | 0 <= i < |ins.columns| ensures Closed(n.columns[i]) {
      NameIsClosed(ins.columns[i]);
    }
    forall i | 0 <= i < |ins.values| ensures Closed(n.values[i]) {
      NormalizeValueAtomic(numeric, ins.values[i]);
      AtomicIsClosed(n.values[i]);
    }
    ClosedAreListed(n.columns);
    ClosedAreListed(n.values);
    ListedIsNested(n.values);
  }

  lemma ListedIsNested(parts: seq<string>)
    requires Listed(parts)
    ensures Nested(Join(parts, ", "))
  {
  }

  const QUOTED_NODE := Insert("t", ["root.s.`b`"], ["1"])

  /** A quoted node in a statement: the first rewrite leaves its opening mark, the second takes that off too. */
  lemma QuotedNodeIsRewrittenTwice(numeric: string -> bool)
    requires NumbersArePlain(numeric)
    ensures var once := InsertRewrite("", numeric, Print(QUOTED_NODE));
      InsertRewrite("", numeric, once) != once
  {
    hide NormalizeColumn, Print, ParseInsert, StaysListed, WellFormed, Settled;
    QuotedNodeIsRead();
    QuotedNodeExample();
    ClosedStayListed("", numeric, QUOTED_NODE);
    InsertRewriteTwiceIff("", numeric, Print(QUOTED_NODE));
    NormalizeColumnTwiceIff(QUOTED_NODE.columns[0]);
  }

  lemma QuotedNodeIsRead()
    ensures Closed(QUOTED_NODE.columns[0]) && Plain(QUOTED_NODE.columns[0]) && Closed(QUOTED_NODE.values[0])
    ensures ParseInsert(Print(QUOTED_NODE)) == Some(QUOTED_NODE)
  {
    hide Closed, Print, ParseInsert, InsertText, Listed;
    PlainIsClosed(QUOTED_NODE.columns[0]);
    PlainIsClosed(QUOTED_NODE.values[0]);
    ClosedAreListed(QUOTED_NODE.columns);
    ClosedAreListed(QUOTED_NODE.values);
    PrintedText(QUOTED_NODE);
    ParsePrinted(QUOTED_NODE, PRINTED);
    TrimAllSame(QUOTED_NODE.columns);
    TrimAllSame(QUOTED_NODE.values);
  }

  const CUT := Insert("t", ["root.f(a.b)"], ["1"])

  /** What fails: a dot between parentheses. Cutting the path there leaves `b)`, which ends the list too early. */
  lemma CutParenDoesNotReadBack(numeric: string -> bool)
    requires NumbersArePlain(numeric)
    ensures NormalizeColumn("root.f(a.b)") == "b)" && ParseInsert(Print(CUT)) == Some(CUT)
    ensures var n := Normalized("", numeric, CUT);
      ParseInsert(InsertRewrite("", numeric, Print(CUT))) != Some(TrimmedLists(n))
  {
    hide NormalizeColumn, NormalizeValue, Print, ParseInsert, Nested, Clean, TrimmedLists;
    CutName();
    CutIsRead();
    ReadsBackIff("", numeric, Print(CUT));
    var names := Normalized("", numeric, CUT).columns;
    assert names == ["b)"];
    CutIsNotNested();
  }

  lemma CutName()
    ensures NormalizeColumn("root.f(a.b)") == "b)"
  {
    hide Inside, AfterLastDot;
    assert "root." + "f(a" + "." + "b)" == "root.f(a.b)";
    RootPathName("f(a", "b)");
    NormalizedIs("root.f(a.b)");
    assert |Lower("b)")| == 2 && |Lower("time")| == 4 && |Lower("timestamp")| == 9;
  }

  lemma CutIsNotNested()
    ensures !Nested("b)")
  {
    PlainCloses("b)");
    assert DepthAt("b)", 1) == 0 && DepthAt("b)", 2) == -1;
  }

  lemma CutIsRead()
    ensures ParseInsert(Print(CUT)) == Some(CUT)
  {
    hide Print, ParseInsert, InsertText, Clean, Nested;
    CutIsClosed();
    PlainIsClosed("1");
    ClosedAreListed(CUT.columns);
    ClosedAreListed(CUT.values);
    PrintedText(CUT);
    ParsePrinted(CUT, PRINTED);
    TrimAllSame(CUT.columns);
    TrimAllSame(CUT.values);
  }

  lemma CutIsClosed()
    ensures Closed("root.f(a.b)")
  {
    hide Nested, Clean, Plain;
    var front, list := "root.f", "(" + "a.b" + ")";
    ArePlain();
    PlainIsClosed("a.b");
    PlainIsClosed(front);
    InParens("a.b");
    NestedConcat(front, list);
    CleanConcat(front, list);
    assert front + list == "root.f(a.b)";
  }

  lemma ArePlain()
    ensures Plain("a.b") && Plain("root.f")
  {
  }
}
