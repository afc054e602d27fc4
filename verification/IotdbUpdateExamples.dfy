/** UPDATE statements written out: one that meets the conditions, one that panics and one that is misread. */
module IotdbUpdateExamples {
  import opened Wrappers
  import opened Text
  import opened SqlScan
  import opened SqlWords
  import opened SqlLists
  import opened SqlParts
  import opened IotdbInsert
  import opened IotdbColumns
  import opened IotdbInsertLaws
  import opened IotdbUpdate
  import opened IotdbUpdateLaws

  const LAYOUT := UpdateLayout("UPDATE ", "SET", "WHERE", " and ", "")
  const EXAMPLE := Update("t", [Assignment("a ", " 1")], [], "time ", " 5", ["b = 2"])
  const DOUBLED := EXAMPLE.(before := ["x = 1"], stampColumn := "and time ", after := [])
  const QUOTED := EXAMPLE.(assignments := [Assignment("`where` ", " 1")], after := [])

  lemma LayoutFits()
    ensures LAYOUT.Fits()
  {
    assert Lower("UPDATE ") == "update ";
    assert Lower("SET") == "set";
    assert Lower("WHERE") == "where";
  }

  /** The conditions on an UPDATE are met by `t`, `a = 1`, `time = 5` and `b = 2`. */
  lemma ExampleIsSimple()
    ensures SimpleUpdate(EXAMPLE, "root.db", s => false)
  {
    hide SimpleSet, WordsStandOnce, SimpleConditions;
    ExampleSet();
    ExampleConditions();
  }

  lemma ExampleSet()
    ensures SimpleSet(EXAMPLE) && WordsStandOnce(EXAMPLE)
    ensures SimpleSet(DOUBLED) && WordsStandOnce(DOUBLED)
  {
    hide SimpleEquation, Free, OpenAt;
    FreeShort("t", "set");
    FreeShort("t", "where");
    FreeShort("a ", "where");
    FreeShort(" 1", "where");
    PlainCloses("t");
    PlainEquation("a ", " 1");
  }

  lemma ExampleConditions()
    ensures SimpleConditions(EXAMPLE) && SimpleConditions(QUOTED)
  {
    hide Free, Clean, NormalizeColumn, SimpleEquation, AllClean;
    PlainEquation("time ", " 5");
    StampColumn();
    ExampleIsClean();
    ConditionTexts();
  }

  lemma ConditionTexts()
    ensures Conditions(EXAMPLE) == ["time = 5", "b = 2"] && Conditions(QUOTED) == ["time = 5"]
    ensures Conditions(DOUBLED) == ["x = 1", "and time = 5"]
  {
    assert "time " + "=" + " 5" == "time = 5";
    assert "and time " + "=" + " 5" == "and time = 5";
  }

  lemma ExampleIsClean()
    ensures AllClean(And, ["time = 5", "b = 2"]) && AllClean(And, ["time = 5"])
  {
    hide OpenAt, Clean;
    CleanCondition("time = 5");
    CleanCondition("b = 2");
  }

  lemma CleanCondition(c: string)
    requires forall k :: 0 <= k < |c| ==> c[k] != '\'' && LowerChar(c[k]) != 'a'
    ensures Clean(And, c)
  {
    var s := " " + c + " ";
    PlainCloses(c);
    forall i | 0 <= i < |s| ensures !SepAt(And, s, i) {
      assert i + 1 < |s| ==> LowerChar(s[i + 1]) != 'a';
    }
  }

  lemma PlainEquation(column: string, value: string)
    requires Plain(column) && '=' !in column && Plain(value) && Trimmed(Equation(Assignment(column, value)))
    ensures SimpleEquation(Assignment(column, value))
  {
    hide Closed, NormalizeColumn;
    PlainIsClosed(column);
    PlainIsClosed(value);
    NameIsClosed(column);
  }

  lemma StampColumn()
    ensures NormalizeColumn("time ") == "timestamp"
  {
    hide Trim, TrimRightOf, TrimLeftOf, AfterLastDot;
    var front, back := CutPart("time ", IDENTIFIER_MARKS);
    var front', back' := CutPart("time", IDENTIFIER_MARKS);
    assert "" + "time" + " " == "time ";
    TrimCore("", "time", " ");
  }

  const DOUBLED_WHERE := "x = 1 and and time = 5"
  const DOUBLED_TEXT := "UPDATE t SET a = 1 WHERE " + DOUBLED_WHERE

  /** The panic is real: an UPDATE with the word `and` twice in a row, on every connection. */
  lemma DoubledAndPanics(prefix: string, numeric: string -> bool)
    ensures UpdateText(DOUBLED, LAYOUT) == DOUBLED_TEXT
    ensures UpdateRewrite(prefix, numeric, DOUBLED_TEXT) == None
  {
    hide *;
    ExampleSet();
    LayoutFits();
    DoubledText();
    DoubledClause();
    PanicsIff(DOUBLED, LAYOUT, prefix, numeric);
  }

  lemma DoubledText()
    ensures WhereText(DOUBLED, LAYOUT) == DOUBLED_WHERE && UpdateText(DOUBLED, LAYOUT) == DOUBLED_TEXT
  {
    hide Conditions, Equation, SetText, UpdateText, Join;
    DoubledIs();
    EquationIs("a ", " 1", "a = 1");
    SetOfOne(DOUBLED, "a = 1");
    TextIs(DOUBLED, "t", "a = 1", DOUBLED_WHERE);
    assert "UPDATE " + "t" + " SET " + "a = 1" + " WHERE " == "UPDATE t SET a = 1 WHERE ";
  }

  lemma DoubledIs()
    ensures WhereText(DOUBLED, LAYOUT) == DOUBLED_WHERE
  {
    hide Conditions, Join;
    ConditionTexts();
    JoinOfTwo("x = 1", "and time = 5", " and ");
  }

  lemma DoubledClause()
    ensures Overlap(DOUBLED_WHERE) && EndsWell(DOUBLED_WHERE)
  {
    hide Overlap, OpenAt;
    PlainCloses("x = 1");
    DoubledOverlaps("x = 1", "time = 5");
    assert "x = 1" + (" and and " + "time = 5") == DOUBLED_WHERE;
  }

  /** The word twice in a row behind closed quotes makes two separators that share a blank. */
  lemma DoubledOverlaps(a: string, b: string)
    requires !Open(a)
    ensures Overlap(a + (" and and " + b))
  {
    hide OpenAt;
    var word := " and and ";
    PlainCloses(word);
    VisibleInFront(word, b, 0);
    VisibleInFront(word, b, 4);
    VisibleBehind(a, word + b, 0);
    VisibleBehind(a, word + b, 4);
    assert AndAndAt(a + (word + b), |a|) by {
      assert forall k :: 0 <= k < 9 ==> (a + (word + b))[|a| + k] == word[k];
    }
  }

  lemma EquationIs(column: string, value: string, text: string)
    requires column + "=" + value == text
    ensures Equation(Assignment(column, value)) == text
  {
  }

  lemma JoinOfTwo(a: string, b: string, glue: string)
    ensures Join([a, b], glue) == a + glue + b
  {
    assert [a, b][1..] == [b];
  }

  lemma TextIs(u: Update, table: string, setText: string, whereText: string)
    requires u.table == table && SetText(u) == setText && WhereText(u, LAYOUT) == whereText
    ensures UpdateText(u, LAYOUT) == "UPDATE " + table + " SET " + setText + " WHERE " + whereText
  {
    hide SetText, WhereText;
  }

  lemma SetOfOne(u: Update, item: string)
    requires |u.assignments| == 1 && Equation(u.assignments[0]) == item
    ensures SetText(u) == item
  {
    assert Equations(u.assignments) == [item];
  }

  const QUOTED_WHERE := "` = 1 WHERE time = 5"
  const QUOTED_TEXT := "UPDATE t SET `" + ("where" + QUOTED_WHERE)

  /**
   * The scanner does not know the quotes of a name: `where` in back quotes is taken for the key word, so this UPDATE of
   * a column of that name is not turned into an INSERT but handed on as it is.
   */
  lemma QuotedWhereIsTaken(prefix: string, numeric: string -> bool)
    ensures SimpleSet(QUOTED) && SimpleConditions(QUOTED) && !WordsStandOnce(QUOTED)
    ensures UpdateText(QUOTED, LAYOUT) == QUOTED_TEXT
    ensures UpdateRewrite(prefix, numeric, QUOTED_TEXT) == Some(QUOTED_TEXT)
  {
    hide *;
    QuotedSet();
    ExampleConditions();
    QuotedText();
    QuotedParts();
    QuotedWhereClause();
    assert UpdateRewrite(prefix, numeric, QUOTED_TEXT) == Some(QUOTED_TEXT) by {
      StaysAsItIs(prefix, numeric, QUOTED_TEXT, UpdateParts("t", "`", QUOTED_WHERE));
    }
  }

  lemma QuotedText()
    ensures UpdateText(QUOTED, LAYOUT) == QUOTED_TEXT
  {
    hide Conditions, Equation, SetText, UpdateText, WhereText;
    QuotedClauses();
    TextIs(QUOTED, "t", "`" + "where" + "` = 1", "time = 5");
    Assembled("UPDATE " + "t" + " SET ", "`", "where", "` = 1", " WHERE ", "time = 5");
    assert "UPDATE " + "t" + " SET " + "`" == "UPDATE t SET `";
    assert "` = 1" + " WHERE " + "time = 5" == QUOTED_WHERE;
  }

  lemma QuotedClauses()
    ensures SetText(QUOTED) == "`" + "where" + "` = 1" && WhereText(QUOTED, LAYOUT) == "time = 5"
  {
    hide Conditions, Equation, SetText;
    ConditionTexts();
    EquationIs("`where` ", " 1", "`" + "where" + "` = 1");
    SetOfOne(QUOTED, "`" + "where" + "` = 1");
  }

  lemma Assembled(a: string, b: string, c: string, d: string, e: string, f: string)
    ensures a + (b + c + d) + e + f == (a + b) + (c + (d + e + f))
  {
  }

  lemma QuotedSet()
    ensures SimpleSet(QUOTED) && !WordsStandOnce(QUOTED)
  {
    hide SimpleEquation, OpenAt, Free;
    PlainCloses("t");
    PlainEquation("`where` ", " 1");
    QuotedIsTaken();
    assert !Free(QUOTED.assignments[0].column, "where");
  }

  lemma QuotedIsTaken()
    ensures !Free("`where` ", "where")
  {
    hide KeywordAt, OpenAt;
    PlainCloses("`");
    LowerOfWord("where");
    StandsThere("`", "where", "` ", "where");
    assert "`" + ("where" + "` ") == "`where` ";
  }

  lemma QuotedWords()
    ensures FirstKeyword(QUOTED_TEXT, "set") == Some(9) && FirstKeyword(QUOTED_TEXT, "where") == Some(14)
  {
    hide KeywordAt, KeywordFrom, OpenAt, FirstKeyword;
    var rest := "where" + QUOTED_WHERE;
    QuotedSetWord("UPDATE t ", " `" + rest);
    QuotedWhereWord("UPDATE t SET `", QUOTED_WHERE);
    AroundSet(rest);
  }

  lemma AroundSet(rest: string)
    ensures "UPDATE t " + ("SET" + (" `" + rest)) == "UPDATE t SET `" + rest
  {
    assert "UPDATE t " + "SET" + " `" == "UPDATE t SET `";
    assert "UPDATE t " + ("SET" + (" `" + rest)) == ("UPDATE t " + "SET" + " `") + rest;
  }

  lemma QuotedSetWord(a: string, b: string)
    requires a == "UPDATE t " && b != "" && b[0] == ' '
    ensures FirstKeyword(a + ("SET" + b), "set") == Some(9)
  {
    hide KeywordAt, KeywordFrom, OpenAt, FirstKeyword;
    FreeWithout(a, "set");
    PlainCloses(a);
    assert Lower("SET") == "set";
    KeywordFoundIff(a, "SET", b, "set");
  }

  lemma QuotedWhereWord(a: string, b: string)
    requires a == "UPDATE t SET `" && b != "" && b[0] == '`'
    ensures FirstKeyword(a + ("where" + b), "where") == Some(14)
  {
    hide KeywordAt, KeywordFrom, OpenAt, FirstKeyword;
    FreeWithout(a, "where");
    PlainCloses(a);
    LowerOfWord("where");
    KeywordFoundIff(a, "where", b, "where");
  }

  lemma QuotedParts()
    ensures ReadParts(Trim(QUOTED_TEXT)) == Some(UpdateParts("t", "`", QUOTED_WHERE))
  {
    hide *;
    QuotedWords();
    QuotedIs();
    QuotedSlices("UPDATE t SET `", "where", QUOTED_WHERE);
    QuotedEnds();
    TrimCore("", "t", " ");
    TrimCore(" ", "`", "");
    PartsAt(QUOTED_TEXT, 9, 14, "t", "`", QUOTED_WHERE, QUOTED_WHERE);
  }

  lemma QuotedIs()
    ensures QUOTED_TEXT == "UPDATE t SET `" + ("where" + QUOTED_WHERE)
  {
  }

  lemma QuotedEnds()
    ensures Trim(QUOTED_TEXT) == QUOTED_TEXT && Trim(QUOTED_WHERE) == QUOTED_WHERE
    ensures TrimTrailingSemicolon(QUOTED_WHERE) == QUOTED_WHERE
    ensures IsBlank("") && IsBlank(" ") && Trimmed("t") && Trimmed("`")
  {
    hide TrimLeft, TrimRight, TrimTrailingSemicolon;
    TrimFacts(QUOTED_TEXT);
    TrimFacts(QUOTED_WHERE);
    SemicolonsGo(QUOTED_WHERE, "");
    assert QUOTED_WHERE + "" == QUOTED_WHERE;
  }

  lemma QuotedSlices(a: string, b: string, c: string)
    requires a == "UPDATE t SET `" && |b| == 5
    ensures var t := a + (b + c);
      t[7..9] == "" + "t" + " " && t[12..14] == " " + "`" + "" && t[19..] == c && |t| >= 19
    ensures HasPrefix(Lower(a + (b + c)), "update ")
  {
    var t := a + (b + c);
    assert t[7..9] == [t[7], t[8]] && "" + "t" + " " == ['t', ' '];
    assert t[12..14] == [t[12], t[13]] && " " + "`" + "" == [' ', '`'];
    LowerHead(t);
  }

  lemma LowerHead(t: string)
    requires |t| > 7 && t[0] == 'U' && t[1] == 'P' && t[2] == 'D' && t[3] == 'A' && t[4] == 'T' && t[5] == 'E'
    requires t[6] == ' '
    ensures HasPrefix(Lower(t), "update ")
  {
    assert Lower(t)[..7] == "update ";
  }

  /** What follows the quoted name is one condition, and it is not one on the timestamp. */
  lemma QuotedWhereClause()
    ensures !Overlap(QUOTED_WHERE) && TimestampIn(Split(And, QUOTED_WHERE)) == None
  {
    hide TrimLeft, TrimRight, NormalizeColumn, IndexOf, SplitFrom, OpenAt;
    var c := QUOTED_WHERE;
    forall i ensures !SepAt(And, c, i) {
      assert 0 <= i && i + 1 < |c| ==> LowerChar(c[i + 1]) != 'a';
    }
    SplitSkip(And, c, 0, 0, |c|);
    NothingLeft();
    assert Split(And, c) == [c] by {
      LastPiece(c);
    }
    FirstIndex(c, '=', 2);
    assert c[..2] == "` ";
    assert |Lower("")| == 0 && |Lower("timestamp")| == 9;
    assert !NamesTimestamp(c);
  }

  lemma LastPiece(c: string)
    requires Trimmed(c)
    ensures SplitFrom(And, c, 0, |c|) == [c]
  {
    assert c[0..] == c;
    TrimFacts(c);
  }

  lemma NothingLeft()
    ensures NormalizeColumn("` ") == ""
  {
    assert "` "[1..] == " ";
    assert TrimOf("` ", IDENTIFIER_MARKS) == " ";
    TrimBlank(" ");
    assert Trim(" ") == "";
    assert |Lower("")| == 0 && |Lower("time")| == 4 && |Lower("timestamp")| == 9;
  }

  lemma StaysAsItIs(prefix: string, numeric: string -> bool, sql: string, parts: UpdateParts)
    requires ReadParts(Trim(sql)) == Some(parts) && !Overlap(parts.whereClause)
    requires TimestampIn(Split(And, parts.whereClause)) == None
    ensures UpdateRewrite(prefix, numeric, sql) == Some(sql)
  {
    hide ReadParts, Trim, Overlap, TimestampIn, Split;
  }
}
