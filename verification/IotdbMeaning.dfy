/**
 * What the rewritten statement says, read back from its text: which table it names, what each column and each value has
 * become. The statements name none of the functions that do the rewriting.
 */
module IotdbMeaning {
  import opened Wrappers
  import opened Text
  import opened SqlScan
  import opened SqlWords
  import opened SqlLists
  import opened SqlParts
  import opened IotdbInsert
  import opened IotdbColumns
  import opened IotdbInsertLaws
  import opened IotdbInsertTwice
  import opened IotdbUpdate
  import opened IotdbUpdateLaws

  // ---------- tables ----------

  predicate StartsWith(s: string, front: string) {
    |front| <= |s| && s[..|front|] == front
  }

  /** The path is the prefix or lies below it. */
  predicate Below(path: string, prefix: string) {
    path == prefix || StartsWith(path, prefix + ".")
  }

  /** The path needs no prefix: it starts at the root, or there is none to put in front, or it has it already. */
  predicate Complete(path: string, prefix: string) {
    StartsWith(path, "root.") || prefix == "" || Below(path, prefix)
  }

  /**
   * What a table name must have become: itself when it was complete, and else the prefix, a dot and itself; so under a
   * prefix it is always rooted or below it, and it always ends as it did.
   */
  predicate Qualifies(prefix: string, path: string, table: string) {
    && (Complete(path, prefix) ==> table == path)
    && (!Complete(path, prefix) ==>
          |table| == |prefix| + 1 + |path| && StartsWith(table, prefix + ".") && table[|prefix| + 1..] == path)
    && (prefix != "" ==> StartsWith(table, "root.") || Below(table, prefix))
  }

  lemma QualifiedPath(prefix: string, path: string)
    ensures Qualifies(Trim(prefix), Trim(path), QualifyPath(prefix, path))
  {
    var pre, p, q := Trim(prefix), Trim(path), QualifyPath(prefix, path);
    hide Trim;
    if !Complete(p, pre) {
      assert q == (pre + ".") + p;
      assert q[..|pre| + 1] == pre + "." && q[|pre| + 1..] == p;
    }
  }

  // ---------- columns ----------

  /** What a column is called: the timestamp under its one name, any other by the name in it. */
  function NameOf(column: string): string {
    if IsStamp(NameIn(column)) then "timestamp" else NameIn(column)
  }

  // ---------- values ----------

  predicate IsQuoted(v: string) {
    |v| >= 2 && v[0] == '\'' && v[|v| - 1] == '\''
  }

  predicate ReadsAsBareWord(numeric: string -> bool, content: string) {
    Lower(content) == "true" || Lower(content) == "false" || numeric(content)
  }

  /**
   * What a value must have become: text that is no literal stays; a literal stays one, with its content trimmed, unless
   * that reads as a boolean or a number, which it then is, in lower case.
   */
  predicate ValueBecomes(numeric: string -> bool, v: string, after: string) {
    if !IsQuoted(v) then after == v
    else
      var content := Trim(Undoubled(v[1..|v| - 1]));
      if ReadsAsBareWord(numeric, content) then after == Lower(content)
      else IsQuoted(after) && Undoubled(after[1..|after| - 1]) == content
  }

  lemma TruthWords()
    ensures Lower("true") == "true" && Lower("false") == "false"
  {
  }

  lemma NormalizedValue(numeric: string -> bool, value: string)
    ensures ValueBecomes(numeric, Trim(value), NormalizeValue(numeric, value))
  {
    hide Trim;
    TruthWords();
    var v := Trim(value);
    if IsQuoted(v) {
      var content := Trim(Undoubled(v[1..|v| - 1]));
      LiteralReadsBack(content);
    }
  }

  /** Quotes that stand alone stay when pairs are taken for one. */
  lemma {:induction false} SingleQuotesStay(s: string)
    requires forall i :: 0 <= i < |s| - 1 ==> !(s[i] == '\'' && s[i + 1] == '\'')
    ensures Undoubled(s) == s
    decreases |s|
  {
    if s != "" {
      var rest := s[1..];
      forall i | 0 <= i < |rest| - 1 ensures !(rest[i] == '\'' && rest[i + 1] == '\'') {
        assert rest[i] == s[i + 1] && rest[i + 1] == s[i + 2];
      }
      assert |s| > 1 ==> !(s[0] == '\'' && s[0 + 1] == '\'');
      SingleQuotesStay(rest);
    }
  }

  // ---------- INSERT ----------

  /**
   * For every INSERT whose rewrite reads back: the table qualified, the same number of columns and values, and at every
   * place the column's name and what the value must become.
   */
  lemma InsertMeans(prefix: string, numeric: string -> bool, sql: string)
    requires '(' !in prefix && NumbersArePlain(numeric) && ParseInsert(sql).Some?
    requires StaysListed(prefix, numeric, ParseInsert(sql).value)
    ensures ParseInsert(InsertRewrite(prefix, numeric, sql)).Some?
    ensures var ins, out := ParseInsert(sql).value, ParseInsert(InsertRewrite(prefix, numeric, sql)).value;
      && Qualifies(Trim(prefix), ins.table, out.table)
      && |out.columns| == |ins.columns| == |out.values| == |ins.values|
      && forall k :: 0 <= k < |ins.columns| ==>
           out.columns[k] == Trim(NameOf(ins.columns[k])) && ValueBecomes(numeric, ins.values[k], out.values[k])
  {
    hide Trim, Trimmed, ParseInsert, StaysListed, Qualifies, NormalizeColumn, NormalizeValue, NameIn, IsStamp, Print,
         ValueBecomes, Clean, QualifyPath;
    var ins := ParseInsert(sql).value;
    ReadIsClean(sql);
    InsertRewriteTwiceIff(prefix, numeric, sql);
    QualifiedPath(prefix, ins.table);
    TrimFacts(ins.table);
    forall k | 0 <= k < |ins.columns|
      ensures NormalizeColumn(ins.columns[k]) == NameOf(ins.columns[k])
      ensures ValueBecomes(numeric, ins.values[k], Trim(NormalizeValue(numeric, ins.values[k])))
    {
      NormalizedIs(ins.columns[k]);
      assert ins.values[k] in ins.values;
      ValueStaysClean(numeric, ins.values[k]);
      TrimFacts(ins.values[k]);
      TrimFacts(NormalizeValue(numeric, ins.values[k]));
      NormalizedValue(numeric, ins.values[k]);
    }
  }

  // ---------- UPDATE ----------

  predicate IsOther(a: Assignment) {
    !IsStamp(NameIn(a.column))
  }

  /** How many assignments are to other columns than the timestamp. */
  function Others(assignments: seq<Assignment>): nat {
    if assignments == [] then 0
    else Others(assignments[..|assignments| - 1]) + if IsOther(assignments[|assignments| - 1]) then 1 else 0
  }

  lemma OtherIff(a: Assignment, numeric: string -> bool)
    ensures IsTimestamp(Assignment(NormalizeColumn(a.column), NormalizeValue(numeric, a.value))) <==> !IsOther(a)
  {
    hide NormalizeValue, NameIn, NormalizeColumn;
    NormalizedIs(a.column);
  }

  lemma {:induction false} OthersAreKept(assignments: seq<Assignment>, numeric: string -> bool)
    ensures KeptCount(ReadAll(assignments, numeric)) == Others(assignments)
    decreases |assignments|
  {
    hide NormalizeValue, NormalizeColumn, IsTimestamp, IsOther;
    if assignments != [] {
      var n := |assignments| - 1;
      OthersAreKept(assignments[..n], numeric);
      OtherIff(assignments[n], numeric);
      assert ReadAll(assignments, numeric)[..n] == ReadAll(assignments[..n], numeric);
    }
  }

  /** White space and semicolons around what the timestamp is compared with go. */
  lemma StampIs(front: string, core: string, gap: string, semicolons: string, back: string)
    requires IsBlank(front) && IsBlank(gap) && IsBlank(back) && EndsWell(core)
    requires semicolons != "" && forall i :: 0 <= i < |semicolons| ==> semicolons[i] == ';'
    ensures TrimTrailingSemicolon(front + (core + gap + semicolons) + back) == core
    ensures TrimTrailingSemicolon(front + core + back) == core
  {
    var inner, body := core + gap + semicolons, core + gap;
    assert inner[0] == core[0] && inner[|inner| - 1] == ';';
    TrimCore(front, inner, back);
    assert gap != "" ==> body[|body| - 1] == gap[|gap| - 1] && IsSpace(gap[|gap| - 1]);
    assert gap == "" ==> body == core;
    SemicolonsTrimmed(body, semicolons);
    TrimCore("", core, gap);
    assert "" + core + gap == body;
    TrimCore(front, core, back);
    SemicolonsTrimmed(core, "");
    assert core + "" == core;
    TrimFacts(core);
  }

  /**
   * For every well-formed UPDATE that assigns to another column: the INSERT read from its rewrite names the qualified
   * table, has the timestamp first with what it was compared with, and then every other assignment in its place.
   */
  lemma UpdateMeans(u: Update, l: UpdateLayout, prefix: string, numeric: string -> bool)
    requires SimpleUpdate(u, prefix, numeric) && l.Fits() && Others(u.assignments) > 0
    ensures var r := UpdateRewrite(prefix, numeric, UpdateText(u, l));
      r.Some? && ParseInsert(r.value).Some?
    ensures var out := ParseInsert(UpdateRewrite(prefix, numeric, UpdateText(u, l)).value).value;
      && Qualifies(Trim(prefix), u.table, out.table)
      && |out.columns| == |out.values| == 1 + Others(u.assignments)
      && out.columns[0] == "timestamp"
      && ValueBecomes(numeric, TrimTrailingSemicolon(u.stamp), out.values[0])
      && forall i :: 0 <= i < |u.assignments| && IsOther(u.assignments[i]) ==>
           && Others(u.assignments[..i]) + 1 < |out.columns|
           && out.columns[Others(u.assignments[..i]) + 1] == Trim(NameOf(u.assignments[i].column))
           && ValueBecomes(numeric, Trim(u.assignments[i].value), out.values[Others(u.assignments[..i]) + 1])
  {
    hide SimpleUpdate, UpdateText, UpdateRewrite, Print, ParseInsert, Qualifies, ValueBecomes, NormalizeColumn,
         NormalizeValue, QualifyPath, Trim, TrimTrailingSemicolon, Kept, KeptCount, NameOf, IsOther, Settled, Others;
    var ins := Asked(u, prefix, numeric);
    UpdateBecomesInsert(u, l, prefix, numeric);
    AskedIsPrintable(u, prefix, numeric);
    KeptAre(u, numeric);
    TableOf(u, prefix, numeric);
    FirstEntry(u, prefix, numeric);
    forall i | 0 <= i < |u.assignments| && IsOther(u.assignments[i])
      ensures var k := Others(u.assignments[..i]) + 1;
        && k < |ins.columns| && Trim(ins.columns[k]) == Trim(NameOf(u.assignments[i].column))
        && ValueBecomes(numeric, Trim(u.assignments[i].value), Trim(ins.values[k]))
    {
      OtherEntry(u, prefix, numeric, i);
    }
  }

  lemma KeptAre(u: Update, numeric: string -> bool)
    ensures |Kept(ReadAll(u.assignments, numeric))| == Others(u.assignments)
  {
    hide ReadAll, Others;
    KeptLength(ReadAll(u.assignments, numeric));
    OthersAreKept(u.assignments, numeric);
  }

  lemma TableOf(u: Update, prefix: string, numeric: string -> bool)
    requires SimpleUpdate(u, prefix, numeric)
    ensures Qualifies(Trim(prefix), u.table, Asked(u, prefix, numeric).table)
  {
    hide Trim, Qualifies, QualifyPath;
    QualifiedPath(prefix, u.table);
    TrimFacts(u.table);
  }

  lemma FirstEntry(u: Update, prefix: string, numeric: string -> bool)
    requires SimpleUpdate(u, prefix, numeric)
    ensures var ins := Asked(u, prefix, numeric);
      && Trim(ins.columns[0]) == "timestamp"
      && ValueBecomes(numeric, TrimTrailingSemicolon(u.stamp), Trim(ins.values[0]))
  {
    hide Trim, ValueBecomes, NormalizeValue, Closed, SimpleSet, WordsStandOnce, Conditions, AllClean, Kept, ReadAll;
    TrimFacts("timestamp");
    var stamp := TrimTrailingSemicolon(u.stamp);
    StampIsPrintable(numeric, u.stamp);
    NormalizedValue(numeric, stamp);
    TrimFacts(stamp);
    TrimFacts(TrimRightOf(Trim(u.stamp), ";"));
    TrimFacts(NormalizeValue(numeric, stamp));
  }

  lemma OtherEntry(u: Update, prefix: string, numeric: string -> bool, i: nat)
    requires SimpleUpdate(u, prefix, numeric) && i < |u.assignments| && IsOther(u.assignments[i])
    ensures var ins, k := Asked(u, prefix, numeric), Others(u.assignments[..i]) + 1;
      && k < |ins.columns| && Trim(ins.columns[k]) == Trim(NameOf(u.assignments[i].column))
      && ValueBecomes(numeric, Trim(u.assignments[i].value), Trim(ins.values[k]))
  {
    hide Trim, ValueBecomes, NormalizeValue, NormalizeColumn, NameIn, Closed, WordsStandOnce, SimpleConditions, Kept,
         KeptCount, Others, IsOther, IsTimestamp, Equation;
    var all, a := ReadAll(u.assignments, numeric), u.assignments[i];
    OtherIff(a, numeric);
    KeptInOrder(all, i);
    OthersAreKept(u.assignments[..i], numeric);
    assert all[..i] == ReadAll(u.assignments[..i], numeric);
    NormalizedIs(a.column);
    NormalizedValue(numeric, a.value);
    assert SimpleEquation(a);
    ValueIsPrintable(numeric, a.value);
    TrimFacts(NormalizeValue(numeric, a.value));
  }

  // ---------- what stays as it is ----------

  lemma RestIs(t: string, k: nat) returns (front: string)
    requires k <= |t| && (t == "" || !IsSpace(t[|t| - 1]))
    ensures t[k..] == front + Trim(t[k..]) && IsBlank(front)
  {
    hide Trim;
    var back;
    front, back := TrimmedPart(t[k..]);
    assert Trim(t[k..]) + back == Trim(t[k..]);
  }

  lemma ValuesWord(rest: string)
    requires HasPrefix(Lower(rest), "values")
    ensures |rest| >= 6 && Lower(rest[..6]) == "values" && Trimmed(rest[..6])
  {
    var v := rest[..6];
    assert Lower(rest)[..6] == Lower(v);
    assert LowerChar(v[0]) == Lower(v)[0] && LowerChar(v[5]) == Lower(v)[5];
  }

  lemma WordSlice(t: string, i: nat, front: string, rest: string, v: string, behind: string, gap: string, tail: string)
    requires i <= |t| && t[i..] == front + rest && rest == v + behind && behind == gap + tail
    ensures var open := |t| - |tail|; i + |front| + |v| <= open && t[i..open] == front + v + gap
  {
    var open := |t| - |tail|;
    assert t[i..] == (front + v + gap) + tail;
    assert t[i..open] == t[i..][..open - i];
  }

  lemma BehindWord(t: string, i: nat, front: string, rest: string, v: string, behind: string)
    requires i <= |t| && t[i..] == front + rest && rest == v + behind
    ensures i + |front| + |v| <= |t| && t[i + |front| + |v|..] == behind
  {
    assert t[i..] == (front + v) + behind;
    assert t[i + |front| + |v|..] == t[i..][|front| + |v|..];
  }

  /** Between the lists stands the word, in white space. */
  lemma WordStands(t: string, close: nat) returns (word: string)
    requires close < |t| && !IsSpace(t[|t| - 1]) && ValueSpan(t, close).Some?
    ensures var open := ValueSpan(t, close).value.open;
      close < open && t[close + 1..open] == word && Lower(Trim(word)) == "values"
  {
    hide *;
    ValueSpanStarts(t, close);
    word := WordBetween(t, close + 1, Trim(t[close + 1..]));
  }

  lemma WordBetween(t: string, i: nat, rest: string) returns (word: string)
    requires i <= |t| && !(t == "") && !IsSpace(t[|t| - 1]) && rest == Trim(t[i..])
    requires HasPrefix(Lower(rest), "values") && |rest| >= 6
    ensures var open := |t| - |Trim(rest[6..])|;
      i < open <= |t| && t[i..open] == word && Lower(Trim(word)) == "values"
  {
    hide *;
    var front := RestIs(t, i);
    ValuesWord(rest);
    var v, behind := rest[..6], rest[6..];
    BehindWord(t, i, front, rest, v, behind);
    var gap := RestIs(t, i + |front| + |v|);
    WordSlice(t, i, front, rest, v, behind, gap, Trim(behind));
    word := front + v + gap;
    TrimCore(front, v, gap);
  }

  lemma ValueSpanStarts(t: string, close: nat)
    requires close < |t| && ValueSpan(t, close).Some?
    ensures HasPrefix(Lower(Trim(t[close + 1..])), "values") && |Trim(t[close + 1..])| >= 6
    ensures ValueSpan(t, close).value.open == |t| - |Trim(Trim(t[close + 1..])[6..])|
  {
    hide Trim, Closing;
  }

  /**
   * Whatever is read of an INSERT stands so in the text: the words, a name up to the first parenthesis, the two lists
   * with their parentheses paired, and only white space around the word between them.
   */
  lemma ReadStandsThere(sql: string)
    returns (head: string, name: string, columns: string, word: string, values: string, tail: string)
    requires ParseInsert(sql).Some?
    ensures Lower(head) == "insert into " && '(' !in name && Lower(Trim(word)) == "values"
    ensures Trim(sql) == head + name + "(" + columns + ")" + word + "(" + values + ")" + tail
    ensures Nested(columns) && Nested(values)
    ensures ParseInsert(sql).value == Insert(Trim(name), Split(Comma, columns), Split(Comma, values))
  {
    hide *;
    var t := Trim(sql);
    var cols, vals := SpansOf(sql);
    word := WordStands(t, cols.close);
    ClosedThere(t, cols.open, cols.close);
    ClosedThere(t, vals.open, vals.close);
    head, name, columns, values, tail := CutUp(t, 12, cols.open, cols.close, vals.open, vals.close, word);
  }

  lemma SpansOf(sql: string) returns (cols: Span, vals: Span)
    requires ParseInsert(sql).Some?
    ensures var t := Trim(sql);
      && 12 <= cols.open < cols.close < |t| && cols.close < vals.open < vals.close < |t| && !IsSpace(t[|t| - 1])
      && ValueSpan(t, cols.close) == Some(vals)
      && Lower(t[..12]) == "insert into " && '(' !in t[12..cols.open]
      && t[cols.open] == '(' && Closing(t[cols.open..]) == Some(cols.close - cols.open)
      && t[vals.open] == '(' && Closing(t[vals.open..]) == Some(vals.close - vals.open)
      && ParseInsert(sql).value == Insert(Trim(t[12..cols.open]), Split(Comma, t[cols.open + 1..cols.close]),
           Split(Comma, t[vals.open + 1..vals.close]))
  {
    hide Trim, Closing, Split, ValueSpan, ColumnSpan, Lower;
    var t := Trim(sql);
    cols := ColumnSpan(t).value;
    vals := ValueSpan(t, cols.close).value;
    TrimFacts(sql);
    TableAt(t);
    InsertHead(t);
    ValuesOpenThere(t, cols.close);
    var word := WordStands(t, cols.close);
  }

  lemma InsertHead(t: string)
    requires ColumnSpan(t).Some?
    ensures |t| >= 12 && Lower(t[..12]) == "insert into "
  {
    hide Closing;
    assert Lower(t)[..12] == Lower(t[..12]);
  }

  lemma ClosedThere(t: string, open: nat, close: nat)
    requires open < close < |t| && t[open] == '(' && Closing(t[open..]) == Some(close - open)
    ensures t[close] == ')' && Nested(t[open + 1..close])
  {
    hide Nested;
    ClosingFacts(t[open..], 0);
    ClosingEncloses(t[open..]);
    assert t[open..][close - open] == t[close];
    assert t[open..][1..close - open] == t[open + 1..close];
  }

  lemma CutUp(t: string, a: nat, b: nat, c: nat, d: nat, e: nat, word: string)
    returns (head: string, name: string, columns: string, values: string, tail: string)
    requires a <= b < c < d < e < |t| && t[b] == '(' && t[c] == ')' && t[d] == '(' && t[e] == ')'
    requires t[c + 1..d] == word
    ensures head == t[..a] && name == t[a..b] && columns == t[b + 1..c] && values == t[d + 1..e]
    ensures t == head + name + "(" + columns + ")" + word + "(" + values + ")" + tail
  {
    head, name, columns, values, tail := t[..a], t[a..b], t[b + 1..c], t[d + 1..e], t[e + 1..];
    assert t[..a] + t[a..b] == t[..b] && t[..b] + "(" == t[..b + 1];
    assert t[..b + 1] + t[b + 1..c] == t[..c] && t[..c] + ")" == t[..c + 1];
    assert t[..c + 1] + t[c + 1..d] == t[..d] && t[..d] + "(" == t[..d + 1];
    assert t[..d + 1] + t[d + 1..e] == t[..e] && t[..e] + ")" == t[..e + 1];
  }

  /** A text that is no INSERT or UPDATE, or an UPDATE without one of its words outside literals, stays as it is. */
  lemma OthersStay(prefix: string, numeric: string -> bool, sql: string)
    ensures !StartsWith(Lower(Trim(sql)), "insert into ") ==> InsertRewrite(prefix, numeric, sql) == sql
    ensures !StartsWith(Lower(Trim(sql)), "update ") || Free(Trim(sql), "set") || Free(Trim(sql), "where") ==>
              UpdateRewrite(prefix, numeric, sql) == Some(sql)
  {
    hide Trim, Lower, KeywordAt;
    var t := Trim(sql);
    KeywordFacts(t, "set", 0);
    KeywordFacts(t, "where", 0);
  }

  predicate Unusable(parts: UpdateParts) {
    || (forall i :: 0 <= i < |Split(And, parts.whereClause)| ==> !OnTimestamp(Split(And, parts.whereClause)[i]))
    || exists i :: 0 <= i < |Split(Comma, parts.setClause)| && '=' !in Split(Comma, parts.setClause)[i]
  }

  /** So does an UPDATE whose WHERE clause holds no condition on the timestamp, or whose SET list has no equals sign. */
  lemma UnusableStays(prefix: string, numeric: string -> bool, sql: string)
    requires ReadParts(Trim(sql)).Some?
    requires !Overlap(ReadParts(Trim(sql)).value.whereClause) && Unusable(ReadParts(Trim(sql)).value)
    ensures UpdateRewrite(prefix, numeric, sql) == Some(sql)
  {
    hide Split, ReadParts, Trim, Overlap;
    var parts := ReadParts(Trim(sql)).value;
    var conditions, items := Split(And, parts.whereClause), Split(Comma, parts.setClause);
    if forall i :: 0 <= i < |conditions| ==> !OnTimestamp(conditions[i]) {
      NoTimestamp(conditions);
    } else {
      var i :| 0 <= i < |items| && '=' !in items[i];
      NoIndex(items[i], '=');
      UnreadableItem(numeric, items, i);
    }
  }

  /** The condition has an equals sign, and the timestamp in front of the first. */
  predicate OnTimestamp(condition: string) {
    exists i :: 0 <= i < |condition| && condition[i] == '=' && '=' !in condition[..i] && IsStamp(NameIn(condition[..i]))
  }

  lemma {:induction false} NoIndex(s: string, c: char)
    requires c !in s
    ensures IndexOf(s, c) == None
    decreases |s|
  {
    if s != "" {
      NoIndex(s[1..], c);
    }
  }

  lemma {:induction false} NoTimestamp(conditions: seq<string>)
    requires forall i :: 0 <= i < |conditions| ==> !OnTimestamp(conditions[i])
    ensures TimestampIn(conditions) == None
    decreases |conditions|
  {
    hide OnTimestamp, NamesTimestamp;
    if conditions != [] {
      NamedIsOn(conditions[0]);
      NoTimestamp(conditions[1..]);
    }
  }

  lemma NamedIsOn(condition: string)
    ensures NamesTimestamp(condition) ==> OnTimestamp(condition)
  {
    hide NameIn, NormalizeColumn;
    FoundFirst(condition, '=');
    FoundThere(condition, '=');
    match IndexOf(condition, '=')
    case None =>
    case Some(i) => NormalizedIs(condition[..i]);
  }
}
