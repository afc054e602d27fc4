/** What turning an UPDATE into an INSERT keeps, for statements printed from their parts. */
module IotdbUpdateLaws {
  import opened Wrappers
  import opened Text
  import opened SqlScan
  import opened SqlWords
  import opened SqlLists
  import opened SqlParts
  import opened IotdbInsert
  import opened IotdbColumns
  import opened IotdbInsertLaws
  import opened IotdbUpdate

  // ---------- the assignments that are kept ----------

  /** How many of the assignments are kept. */
  function KeptCount(assignments: seq<Assignment>): nat {
    if assignments == [] then 0
    else
      KeptCount(assignments[..|assignments| - 1]) + if IsTimestamp(assignments[|assignments| - 1]) then 0 else 1
  }

  /**
   * Every assignment to another column is kept exactly once, at the place its predecessors leave it, and nothing
   * else is kept.
   */
  lemma {:induction false} KeptInOrder(assignments: seq<Assignment>, i: nat)
    requires i < |assignments|
    ensures |Kept(assignments)| == KeptCount(assignments) <= |assignments|
    ensures KeptCount(assignments[..i]) <= KeptCount(assignments)
    ensures !IsTimestamp(assignments[i]) ==>
      && KeptCount(assignments[..i]) < KeptCount(assignments)
      && Kept(assignments)[KeptCount(assignments[..i])] == assignments[i]
    decreases |assignments|
  {
    hide IsTimestamp;
    var n := |assignments| - 1;
    var front := assignments[..n];
    KeptLength(front);
    if i < n {
      KeptInOrder(front, i);
      assert front[..i] == assignments[..i];
    }
  }

  lemma {:induction false} KeptLength(assignments: seq<Assignment>)
    ensures |Kept(assignments)| == KeptCount(assignments) <= |assignments|
    decreases |assignments|
  {
    if assignments != [] {
      KeptLength(assignments[..|assignments| - 1]);
    }
  }

  lemma {:induction false} KeptAreOthers(assignments: seq<Assignment>, k: nat)
    requires k < |Kept(assignments)|
    ensures !IsTimestamp(Kept(assignments)[k]) && Kept(assignments)[k] in assignments
    decreases |assignments|
  {
    var front := assignments[..|assignments| - 1];
    if k < |Kept(front)| {
      KeptAreOthers(front, k);
    }
  }

  /** For every statement that is rewritten: equally long lists, the timestamp first and only first. */
  lemma UpdateListsAgree(prefix: string, numeric: string -> bool, parts: UpdateParts, k: nat)
    requires var r := UpdateInsert(prefix, numeric, parts); r.Some? && k < |r.value.columns|
    ensures var ins := UpdateInsert(prefix, numeric, parts).value;
      && |ins.columns| == |ins.values| >= 2
      && (ins.columns[k] == "timestamp" <==> k == 0)
  {
    hide Split, TimestampIn, ReadAssignments, QualifyPath, NormalizeValue;
    var kept := Kept(ReadAssignments(numeric, Split(Comma, parts.setClause)).value);
    if k > 0 {
      KeptAreOthers(ReadAssignments(numeric, Split(Comma, parts.setClause)).value, k - 1);
    }
  }

  // ---------- a printed UPDATE ----------

  /** The conditions before the one on the timestamp, that one, and those after it. */
  datatype Update = Update(table: string, assignments: seq<Assignment>, before: seq<string>, stampColumn: string,
                           stamp: string, after: seq<string>)

  datatype UpdateLayout = UpdateLayout(head: string, setWord: string, whereWord: string, glue: string,
                                       semicolons: string) {
    ghost predicate Fits() {
      && Lower(head) == "update " && Lower(setWord) == "set" && Lower(whereWord) == "where"
      && |glue| == 5 && SepText(And, glue, 0)
      && forall i :: 0 <= i < |semicolons| ==> semicolons[i] == ';'
    }
  }

  /** The text in front of the equals sign and the text behind it, white space included. */
  function Equation(a: Assignment): string {
    a.column + "=" + a.value
  }

  function Equations(assignments: seq<Assignment>): (r: seq<string>)
    ensures |r| == |assignments| && forall i :: 0 <= i < |r| ==> r[i] == Equation(assignments[i])
  {
    seq(|assignments|, i requires 0 <= i < |assignments| => Equation(assignments[i]))
  }

  function Conditions(u: Update): seq<string> {
    u.before + [Equation(Assignment(u.stampColumn, u.stamp))] + u.after
  }

  function SetText(u: Update): string {
    Join(Equations(u.assignments), ", ")
  }

  function WhereText(u: Update, l: UpdateLayout): string {
    Join(Conditions(u), l.glue)
  }

  /** Everything in front of the word `set`. */
  function BeforeSet(u: Update, l: UpdateLayout): string {
    l.head + u.table + " "
  }

  function BeforeWhere(u: Update, l: UpdateLayout): string {
    BeforeSet(u, l) + (l.setWord + (" " + SetText(u) + " "))
  }

  function UpdateText(u: Update, l: UpdateLayout): string {
    BeforeWhere(u, l) + (l.whereWord + (" " + (WhereText(u, l) + l.semicolons)))
  }

  /** A column and a value as they may stand around an equals sign: closed, and closed once the column is shortened. */
  ghost predicate SimpleEquation(a: Assignment) {
    && '=' !in a.column && Closed(a.column) && Closed(a.value) && Trimmed(Equation(a))
    && Closed(NormalizeColumn(a.column))
  }

  /** Up to the word `where` the statement is a table and a list of equations with closed quotes. */
  ghost predicate SimpleSet(u: Update) {
    && Trimmed(u.table) && !Open(u.table) && |u.assignments| >= 1
    && forall i :: 0 <= i < |u.assignments| ==> SimpleEquation(u.assignments[i])
  }

  /** Outside literals no key word stands in front of its own place, not even inside a quoted name. */
  ghost predicate WordsStandOnce(u: Update) {
    Free(u.table, "set") && NoWhereYet(u)
  }

  ghost predicate NoWhereYet(u: Update) {
    && Free(u.table, "where")
    && forall i :: 0 <= i < |u.assignments| ==>
      Free(u.assignments[i].column, "where") && Free(u.assignments[i].value, "where")
  }

  /** The conditions end in something that is neither white space nor a semicolon. */
  predicate EndsWell(whereText: string) {
    whereText != "" && Trimmed(whereText) && whereText[|whereText| - 1] != ';'
  }

  ghost predicate SimpleConditions(u: Update) {
    && SimpleEquation(Assignment(u.stampColumn, u.stamp)) && NormalizeColumn(u.stampColumn) == "timestamp"
    && AllClean(And, Conditions(u))
    && (forall i :: 0 <= i < |Conditions(u)| ==> Conditions(u)[i] != "")
    && Conditions(u)[|Conditions(u)| - 1][|Conditions(u)[|Conditions(u)| - 1]| - 1] != ';'
    && forall i :: 0 <= i < |u.before| ==> !NamesTimestamp(u.before[i])
  }

  ghost predicate SimpleUpdate(u: Update, prefix: string, numeric: string -> bool) {
    && SimpleSet(u) && WordsStandOnce(u) && SimpleConditions(u)
    && '(' !in u.table && '(' !in prefix && NumbersArePlain(numeric)
  }

  /** The text the timestamp is compared with. */
  function StampOf(u: Update): string {
    TrimTrailingSemicolon(u.stamp)
  }

  // ---------- one equation ----------

  lemma EquationReads(a: Assignment, numeric: string -> bool)
    requires SimpleEquation(a)
    ensures var e, n := Equation(a), |a.column|;
      IndexOf(e, '=') == Some(n) && e[..n] == a.column && e[n + 1..] == a.value
    ensures ReadAssignment(numeric, Equation(a))
      == Some(Assignment(NormalizeColumn(a.column), NormalizeValue(numeric, a.value)))
  {
    hide Closed, Trimmed, NormalizeColumn, NormalizeValue, IndexOf;
    FirstIndex(Equation(a), '=', |a.column|);
  }

  lemma EquationIsClean(a: Assignment)
    requires SimpleEquation(a)
    ensures Clean(Comma, Equation(a)) && Trimmed(Equation(a)) && Equation(a) != ""
  {
    PlainCloses("=");
    CleanConcat(a.column, "=");
    CleanConcat(a.column + "=", a.value);
  }

  lemma EquationIsFree(a: Assignment)
    requires SimpleEquation(a)
    ensures Free(Equation(a), "where") <==> Free(a.column, "where") && Free(a.value, "where")
  {
    hide Free;
    PlainCloses("=");
    FreeShort("=", "where");
    FreeConcat(a.column, "=", "where");
    OpenConcat(a.column, "=");
    FreeConcat(a.column + "=", a.value, "where");
  }

  // ---------- lists of equations ----------

  lemma {:induction false} JoinIsFree(parts: seq<string>)
    requires forall i :: 0 <= i < |parts| ==> !Open(parts[i])
    ensures Free(Join(parts, ", "), "where") <==> forall i :: 0 <= i < |parts| ==> Free(parts[i], "where")
    ensures !Open(Join(parts, ", "))
    decreases |parts|
  {
    hide Free, OpenAt;
    if |parts| == 0 {
      FreeShort("", "where");
      PlainCloses("");
    } else if |parts| > 1 {
      JoinIsFree(parts[1..]);
      PlainCloses(", ");
      FreeShort(", ", "where");
      FreeConcat(parts[0], ", ", "where");
      OpenConcat(parts[0], ", ");
      FreeConcat(parts[0] + ", ", Join(parts[1..], ", "), "where");
      OpenConcat(parts[0] + ", ", Join(parts[1..], ", "));
      assert forall i :: 0 < i < |parts| ==> parts[i] == parts[1..][i - 1];
    }
  }

  lemma {:induction false} JoinEnds(parts: seq<string>, glue: string)
    requires |parts| >= 1 && forall i :: 0 <= i < |parts| ==> Trimmed(parts[i]) && parts[i] != ""
    ensures var j := Join(parts, glue); var last := parts[|parts| - 1];
      j != "" && j[0] == parts[0][0] && j[|j| - 1] == last[|last| - 1] && Trimmed(j)
    decreases |parts|
  {
    if |parts| > 1 {
      JoinEnds(parts[1..], glue);
    }
  }

  function ReadAll(assignments: seq<Assignment>, numeric: string -> bool): (r: seq<Assignment>)
    ensures |r| == |assignments|
    ensures forall i :: 0 <= i < |r| ==>
      r[i] == Assignment(NormalizeColumn(assignments[i].column), NormalizeValue(numeric, assignments[i].value))
  {
    seq(|assignments|, i requires 0 <= i < |assignments| =>
      Assignment(NormalizeColumn(assignments[i].column), NormalizeValue(numeric, assignments[i].value)))
  }

  lemma {:induction false} EquationsRead(assignments: seq<Assignment>, numeric: string -> bool)
    requires forall i :: 0 <= i < |assignments| ==> SimpleEquation(assignments[i])
    ensures ReadAssignments(numeric, Equations(assignments)) == Some(ReadAll(assignments, numeric))
    decreases |assignments|
  {
    hide NormalizeColumn, NormalizeValue, ReadAssignment, SimpleEquation;
    if assignments != [] {
      var n := |assignments| - 1;
      EquationsRead(assignments[..n], numeric);
      EquationReads(assignments[n], numeric);
      assert Equations(assignments)[..n] == Equations(assignments[..n]);
      assert ReadAll(assignments, numeric) == ReadAll(assignments[..n], numeric) + [ReadAll(assignments, numeric)[n]];
    }
  }

  // ---------- the two clauses ----------

  lemma SetClauseReads(u: Update, numeric: string -> bool)
    requires SimpleSet(u)
    ensures ReadAssignments(numeric, Split(Comma, SetText(u))) == Some(ReadAll(u.assignments, numeric))
  {
    hide Split, ReadAssignments, Equation, SimpleEquation;
    var items := Equations(u.assignments);
    forall i | 0 <= i < |items| ensures Clean(Comma, items[i]) && Trimmed(items[i]) {
      EquationIsClean(u.assignments[i]);
    }
    SplitUndoesJoin(items);
    EquationsRead(u.assignments, numeric);
  }

  lemma SetClauseFacts(u: Update)
    requires SimpleSet(u)
    ensures !Open(SetText(u)) && Trimmed(SetText(u)) && SetText(u) != ""
    ensures Free(SetText(u), "where") <==> forall i :: 0 <= i < |u.assignments| ==>
      Free(u.assignments[i].column, "where") && Free(u.assignments[i].value, "where")
  {
    hide Equation, SimpleEquation, Free;
    var items := Equations(u.assignments);
    forall i | 0 <= i < |items|
      ensures !Open(items[i]) && Trimmed(items[i]) && items[i] != ""
      ensures Free(items[i], "where") <==>
        Free(u.assignments[i].column, "where") && Free(u.assignments[i].value, "where")
    {
      EquationIsClean(u.assignments[i]);
      EquationIsFree(u.assignments[i]);
    }
    JoinIsFree(items);
    JoinEnds(items, ", ");
  }

  lemma {:induction false} FirstTimestamp(before: seq<string>, condition: string, after: seq<string>)
    requires NamesTimestamp(condition) && forall i :: 0 <= i < |before| ==> !NamesTimestamp(before[i])
    ensures TimestampIn(before + [condition] + after) == Some(ComparedWith(condition))
    decreases |before|
  {
    hide NamesTimestamp, ComparedWith;
    var all := before + [condition] + after;
    if before != [] {
      assert all[1..] == before[1..] + [condition] + after;
      FirstTimestamp(before[1..], condition, after);
    }
  }

  lemma {:induction false} SemicolonsTrimmed(core: string, semicolons: string)
    requires core != "" && core[|core| - 1] != ';'
    requires forall i :: 0 <= i < |semicolons| ==> semicolons[i] == ';'
    ensures TrimRightOf(core + semicolons, ";") == core
    decreases |semicolons|
  {
    if semicolons == "" {
      assert core + semicolons == core;
    } else {
      var n := |semicolons| - 1;
      assert (core + semicolons)[..|core| + n] == core + semicolons[..n];
      SemicolonsTrimmed(core, semicolons[..n]);
    }
  }

  lemma SemicolonsGo(core: string, semicolons: string)
    requires EndsWell(core) && forall i :: 0 <= i < |semicolons| ==> semicolons[i] == ';'
    ensures Trimmed(core + semicolons) && TrimTrailingSemicolon(core + semicolons) == core
  {
    var s := core + semicolons;
    assert semicolons != "" ==> s[|s| - 1] == ';';
    assert s[0] == core[0];
    TrimFacts(s);
    SemicolonsTrimmed(core, semicolons);
    TrimFacts(core);
  }

  lemma StampIsRead(u: Update, numeric: string -> bool)
    requires SimpleConditions(u)
    ensures TimestampIn(Conditions(u)) == Some(StampOf(u))
  {
    hide NormalizeColumn, Equation, TrimTrailingSemicolon, SimpleEquation;
    var a := Assignment(u.stampColumn, u.stamp);
    EquationReads(a, numeric);
    StampNamed(Equation(a), |u.stampColumn|, u.stamp);
    FirstTimestamp(u.before, Equation(a), u.after);
  }

  lemma StampNamed(condition: string, n: nat, stamp: string)
    requires IndexOf(condition, '=') == Some(n) && NormalizeColumn(condition[..n]) == "timestamp"
    requires condition[n + 1..] == stamp
    ensures NamesTimestamp(condition) && ComparedWith(condition) == TrimTrailingSemicolon(stamp)
  {
    TrimFacts(stamp);
  }

  lemma StampIsClosed(stamp: string)
    requires Closed(stamp)
    ensures Closed(TrimTrailingSemicolon(stamp))
  {
    hide Closed, TrimRightOf, Trim;
    var v := Trim(stamp);
    TrimIsAtomic(stamp);
    AtomicIsClosed(v);
    var back := TrimRightOfFacts(v, ";");
    var core := TrimRightOf(v, ";");
    assert "" + (core + back) == v;
    CoreIsClosed("", core, back);
    TrimIsAtomic(core);
    AtomicIsClosed(Trim(core));
  }

  lemma WhereClauseReads(u: Update, l: UpdateLayout, numeric: string -> bool)
    requires SimpleConditions(u) && l.Fits()
    ensures TimestampIn(Split(And, WhereText(u, l))) == Some(StampOf(u))
    ensures !Overlap(WhereText(u, l)) && EndsWell(WhereText(u, l))
  {
    hide Split, Equation, TimestampIn;
    SplitAndUndoesJoin(Conditions(u), l.glue);
    StampIsRead(u, numeric);
    JoinEnds(Conditions(u), l.glue);
  }

  // ---------- the statement ----------

  /** The word `set` of the statement is the one that is found if and only if the table does not hold it. */
  lemma SetIsFoundIff(u: Update, l: UpdateLayout)
    requires SimpleSet(u) && l.Fits()
    ensures var first := FirstKeyword(UpdateText(u, l), "set"); var place := |BeforeSet(u, l)|;
      first.Some? && first.value <= place && (first.value == place <==> Free(u.table, "set"))
  {
    hide Join, KeywordAt, FirstKeyword, SimpleEquation, OpenAt, Free;
    BeforeSetIsFree(u, l, "set");
    var rest := " " + SetText(u) + " " + (l.whereWord + (" " + (WhereText(u, l) + l.semicolons)));
    assert UpdateText(u, l) == BeforeSet(u, l) + (l.setWord + rest);
    KeywordFoundIff(BeforeSet(u, l), l.setWord, rest, "set");
  }

  lemma BeforeSetIsFree(u: Update, l: UpdateLayout, word: string)
    requires !Open(u.table) && l.Fits() && word in {"set", "where"}
    ensures Free(BeforeSet(u, l), word) <==> Free(u.table, word)
    ensures !Open(BeforeSet(u, l))
  {
    hide KeywordAt, Free, OpenAt;
    FreeHead(l.head);
    HeadSpells(l.head + "", 6);
    FreeShort(" ", word);
    FreeConcat(l.head, u.table, word);
    OpenConcat(l.head, u.table);
    FreeConcat(l.head + u.table, " ", word);
    BlankIsClosed();
    OpenConcat(l.head + u.table, " ");
  }

  /** The word `where` of the statement is the one that is found if and only if nothing in front holds it. */
  lemma WhereIsFoundIff(u: Update, l: UpdateLayout)
    requires SimpleSet(u) && l.Fits()
    ensures var first := FirstKeyword(UpdateText(u, l), "where"); var place := |BeforeWhere(u, l)|;
      first.Some? && first.value <= place && (first.value == place <==> NoWhereYet(u))
  {
    hide SetText, KeywordAt, FirstKeyword, OpenAt, BeforeSet, Free, WhereText, SimpleEquation;
    BeforeSetIsFree(u, l, "where");
    SetClauseFacts(u);
    EndsInBlank(u, l);
    var middle := " " + SetText(u) + " ";
    BlankAround(SetText(u));
    SetIsClosed(l.setWord);
    FreeShort(l.setWord, "where");
    FreeConcat(l.setWord, middle, "where");
    OpenConcat(l.setWord, middle);
    FreeConcat(BeforeSet(u, l), l.setWord + middle, "where");
    OpenConcat(BeforeSet(u, l), l.setWord + middle);
    KeywordFoundIff(BeforeWhere(u, l), l.whereWord, " " + (WhereText(u, l) + l.semicolons), "where");
  }

  lemma FreeHead(head: string)
    requires Lower(head) == "update "
    ensures Free(head, "set") && Free(head, "where") && !Open(head)
  {
    assert head == head + "";
    forall k: nat | k < |head| ensures head[k] != '\'' && LowerChar(head[k]) == "update "[k] {
      HeadSpells(head, k);
    }
    FreeWithout(head, "set");
    FreeWithout(head, "where");
    PlainCloses(head);
  }

  lemma EndsInBlank(u: Update, l: UpdateLayout)
    ensures var s := BeforeSet(u, l); s != "" && s[|s| - 1] == ' '
  {
  }

  lemma BlankAround(s: string)
    requires !Open(s)
    ensures Free(" " + s + " ", "where") <==> Free(s, "where")
    ensures !Open(" " + s + " ")
  {
    hide Free;
    BlankIsClosed();
    FreeShort(" ", "where");
    FreeConcat(" ", s, "where");
    OpenConcat(" ", s);
    FreeConcat(" " + s, " ", "where");
    OpenConcat(" " + s, " ");
  }

  lemma SetIsClosed(word: string)
    requires Lower(word) == "set"
    ensures !Open(word)
  {
    forall k | 0 <= k < 3 ensures word[k] != '\'' {
      assert Lower(word)[k] == LowerChar(word[k]);
    }
    PlainCloses(word);
  }

  /** Trimming a slice that holds a trimmed text between blanks. */
  lemma TrimmedSlice(t: string, i: nat, p: nat, core: string, j: nat)
    requires BlankBetween(t, i, p) && At(t, p, core) && BlankBetween(t, p + |core|, j) && Trimmed(core)
    ensures Trim(t[i..j]) == core
  {
    AtSlice(t, p, core);
    assert t[i..j] == t[i..p] + core + t[p + |core|..j];
    TrimCore(t[i..p], core, t[p + |core|..j]);
  }

  lemma OneBlank(t: string, i: nat)
    requires At(t, i, " ")
    ensures BlankBetween(t, i, i + 1)
  {
    assert " "[0] == ' ' && t[i + 0] == ' ';
  }

  lemma HeadPlaces(u: Update, l: UpdateLayout, t: string)
    requires l.Fits() && At(t, 0, BeforeSet(u, l))
    ensures |BeforeSet(u, l)| == 7 + |u.table| + 1 && HasPrefix(Lower(t), "update ")
    ensures At(t, 7, u.table) && BlankBetween(t, 7 + |u.table|, |BeforeSet(u, l)|)
  {
    AtSplit(t, 0, l.head + u.table, " ");
    OneBlank(t, 7 + |u.table|);
    AtSplit(t, 0, l.head, u.table);
    AtSlice(t, 0, l.head);
    assert Lower(t)[..7] == Lower(l.head);
  }

  lemma SetPlaces(u: Update, l: UpdateLayout, t: string)
    requires l.Fits() && At(t, 0, BeforeWhere(u, l))
    ensures At(t, 0, BeforeSet(u, l))
    ensures var s, w := |BeforeSet(u, l)|, |BeforeWhere(u, l)|;
      && w == s + 4 + |SetText(u)| + 1 && BlankBetween(t, s + 3, s + 4) && At(t, s + 4, SetText(u))
      && BlankBetween(t, s + 4 + |SetText(u)|, w)
  {
    hide SetText, BeforeSet;
    var s := |BeforeSet(u, l)|;
    AtSplit(t, 0, BeforeSet(u, l), l.setWord + (" " + SetText(u) + " "));
    AtSplit(t, s, l.setWord, " " + SetText(u) + " ");
    AtSplit(t, s + 3, " " + SetText(u), " ");
    OneBlank(t, s + 4 + |SetText(u)|);
    AtSplit(t, s + 3, " ", SetText(u));
    OneBlank(t, s + 3);
  }

  /** A text whose key words stand at s and w, with one blank on either side of each of the three clauses. */
  ghost predicate ClauseShape(t: string, s: int, w: int, table: string, setText: string, tail: string) {
    && s == 7 + |table| + 1 && w == s + 4 + |setText| + 1
    && At(t, 7, table) && BlankBetween(t, 7 + |table|, s)
    && BlankBetween(t, s + 3, s + 4) && At(t, s + 4, setText) && BlankBetween(t, s + 4 + |setText|, w)
    && BlankBetween(t, w + 5, w + 6) && At(t, w + 6, tail) && |t| == w + 6 + |tail|
  }

  lemma TextPlaces(u: Update, l: UpdateLayout)
    requires l.Fits()
    ensures var t, s, w := UpdateText(u, l), |BeforeSet(u, l)|, |BeforeWhere(u, l)|;
      && HasPrefix(Lower(t), "update ")
      && ClauseShape(t, s, w, u.table, SetText(u), WhereText(u, l) + l.semicolons)
  {
    hide WhereText, SetText, BeforeSet, BeforeWhere, Lower, At, BlankBetween;
    var t, w := UpdateText(u, l), |BeforeWhere(u, l)|;
    var tail := WhereText(u, l) + l.semicolons;
    WordLength(l);
    AtWhole(t);
    AtSplit(t, 0, BeforeWhere(u, l), l.whereWord + (" " + tail));
    AtSplit(t, w, l.whereWord, " " + tail);
    AtSplit(t, w + 5, " ", tail);
    OneBlank(t, w + 5);
    SetPlaces(u, l, t);
    HeadPlaces(u, l, t);
  }

  lemma WordLength(l: UpdateLayout)
    requires l.Fits()
    ensures |l.whereWord| == 5 && |l.setWord| == 3 && |l.head| == 7
  {
  }

  lemma TextIsTrimmed(u: Update, l: UpdateLayout)
    requires l.Fits() && var w := WhereText(u, l) + l.semicolons; w != "" && Trimmed(w)
    ensures Trim(UpdateText(u, l)) == UpdateText(u, l)
  {
    hide Join, WhereText, SetText, Trim;
    var t := UpdateText(u, l);
    var w := WhereText(u, l) + l.semicolons;
    assert t[|t| - 1] == w[|w| - 1];
    assert t[0] == l.head[0] && Lower(l.head)[0] == LowerChar(l.head[0]);
    TrimFacts(t);
  }

  /** The clauses as they lie in a text at known places. */
  lemma ClausesAt(t: string, s: nat, w: nat, table: string, setText: string, tail: string)
    requires ClauseShape(t, s, w, table, setText, tail) && Trimmed(table) && Trimmed(setText) && Trimmed(tail)
    ensures 7 <= s && s + 3 <= w && w + 5 <= |t|
    ensures Trim(t[7..s]) == table && Trim(t[s + 3..w]) == setText && Trim(t[w + 5..]) == tail
  {
    hide At, Trimmed, Trim;
    BlankNothing(t, 7);
    TrimmedSlice(t, 7, 7, table, s);
    TrimmedSlice(t, s + 3, s + 4, setText, w);
    BlankNothing(t, |t|);
    TrimmedSlice(t, w + 5, w + 6, tail, |t|);
    assert t[w + 5..|t|] == t[w + 5..];
  }

  lemma PartsAt(t: string, s: nat, w: nat, table: string, setText: string, tail: string, whereText: string)
    requires HasPrefix(Lower(t), "update ") && FirstKeyword(t, "set") == Some(s) && FirstKeyword(t, "where") == Some(w)
    requires 7 <= s && s + 3 <= w && w + 5 <= |t|
    requires Trim(t[7..s]) == table && Trim(t[s + 3..w]) == setText && Trim(t[w + 5..]) == tail
    requires TrimTrailingSemicolon(tail) == whereText
    ensures ReadParts(t) == Some(UpdateParts(table, setText, whereText))
  {
    hide Trim, TrimTrailingSemicolon, Lower, FirstKeyword;
  }

  lemma ClausesRead(u: Update, l: UpdateLayout)
    requires l.Fits() && Trimmed(u.table) && Trimmed(SetText(u)) && Trimmed(WhereText(u, l) + l.semicolons)
    ensures var t, s, w := UpdateText(u, l), |BeforeSet(u, l)|, |BeforeWhere(u, l)|;
      && HasPrefix(Lower(t), "update ") && 7 <= s && s + 3 <= w && w + 5 <= |t|
      && ClauseShape(t, s, w, u.table, SetText(u), WhereText(u, l) + l.semicolons)
      && Trim(t[7..s]) == u.table && Trim(t[s + 3..w]) == SetText(u)
      && Trim(t[w + 5..]) == WhereText(u, l) + l.semicolons
  {
    hide *;
    TextPlaces(u, l);
    ClausesAt(UpdateText(u, l), |BeforeSet(u, l)|, |BeforeWhere(u, l)|, u.table, SetText(u),
      WhereText(u, l) + l.semicolons);
  }

  /** A key word found too early cuts a clause short. */
  lemma TooEarly(t: string, s: nat, w: nat, table: string, setText: string, tail: string, whereText: string)
    requires ClauseShape(t, s, w, table, setText, tail) && HasPrefix(Lower(t), "update ")
    requires var i, j := FirstKeyword(t, "set"), FirstKeyword(t, "where");
      && i.Some? && j.Some? && i.value <= s && j.value <= w && !(i.value == s && j.value == w)
    ensures ReadParts(t) != Some(UpdateParts(table, setText, whereText))
  {
    hide KeywordAt, KeywordFrom, TrimLeft, TrimRight, Lower, TrimTrailingSemicolon;
    var i, j := FirstKeyword(t, "set").value, FirstKeyword(t, "where").value;
    KeywordFacts(t, "set", 0);
    KeywordFacts(t, "where", 0);
    KeywordPlaces(t);
    if i < s {
      WordAvoidsBlank(t, "set", i, s - 1);
      TrimShrinks(t[7..i]);
    } else if i < j {
      WordAvoidsBlank(t, "where", j, w - 1);
      TrimShrinks(t[s + 3..j]);
    }
  }

  lemma TrimShrinks(s: string)
    ensures |Trim(s)| <= |s|
  {
    TrimLeftFacts(s);
    TrimRightFacts(TrimLeft(s));
  }

  /** The three clauses come back as they were written if and only if no key word stands in front of its own place. */
  lemma PartsAreReadIff(u: Update, l: UpdateLayout)
    requires SimpleSet(u) && EndsWell(WhereText(u, l)) && l.Fits()
    ensures ReadParts(Trim(UpdateText(u, l))) == Some(UpdateParts(u.table, SetText(u), WhereText(u, l)))
      <==> WordsStandOnce(u)
  {
    hide UpdateText, BeforeSet, BeforeWhere, WhereText, SetText, ClauseShape, ReadParts, NoWhereYet, Trim, Lower,
         TrimTrailingSemicolon, FirstKeyword, SimpleEquation, OpenAt;
    var t, s, w := UpdateText(u, l), |BeforeSet(u, l)|, |BeforeWhere(u, l)|;
    var tail := WhereText(u, l) + l.semicolons;
    SemicolonsGo(WhereText(u, l), l.semicolons);
    TextIsTrimmed(u, l);
    SetClauseFacts(u);
    ClausesRead(u, l);
    SetIsFoundIff(u, l);
    WhereIsFoundIff(u, l);
    if WordsStandOnce(u) {
      PartsAt(t, s, w, u.table, SetText(u), tail, WhereText(u, l));
    } else {
      TooEarly(t, s, w, u.table, SetText(u), tail, WhereText(u, l));
    }
  }

  lemma BlankNothing(t: string, i: nat)
    requires i <= |t|
    ensures BlankBetween(t, i, i)
  {
  }

  // ---------- the main results ----------

  /** The INSERT the statement asks for. */
  function Asked(u: Update, prefix: string, numeric: string -> bool): Insert {
    InsertOf(prefix, numeric, u.table, StampOf(u), Kept(ReadAll(u.assignments, numeric)))
  }

  lemma KeptComesFrom(u: Update, numeric: string -> bool, k: nat) returns (i: nat)
    requires k < |Kept(ReadAll(u.assignments, numeric))|
    ensures i < |u.assignments|
    ensures Kept(ReadAll(u.assignments, numeric))[k] ==
      Assignment(NormalizeColumn(u.assignments[i].column), NormalizeValue(numeric, u.assignments[i].value))
  {
    hide NormalizeColumn, NormalizeValue;
    var all := ReadAll(u.assignments, numeric);
    KeptAreOthers(all, k);
    i :| 0 <= i < |all| && all[i] == Kept(all)[k];
  }

  lemma SimpleParts(u: Update, prefix: string, numeric: string -> bool)
    requires SimpleUpdate(u, prefix, numeric)
    ensures SimpleSet(u) && WordsStandOnce(u) && SimpleConditions(u)
  {
  }

  lemma AskedIsPrintable(u: Update, prefix: string, numeric: string -> bool)
    requires SimpleUpdate(u, prefix, numeric)
    ensures Printable(prefix, numeric, Asked(u, prefix, numeric))
  {
    hide NormalizeColumn, NormalizeValue, Atomic, Closed, Listed, Shortened, QualifyPath, Free, Kept,
         TrimTrailingSemicolon;
    var ins := Asked(u, prefix, numeric);
    QualifyPathTwice(prefix, u.table);
    QualifiedHasNoParen(prefix, u.table);
    StampIsPrintable(numeric, u.stamp);
    forall i | 0 < i < |ins.columns|
      ensures Closed(ins.columns[i]) && Shortened(ins.columns[i])
      ensures Trimmed(ins.values[i]) && Closed(ins.values[i])
      ensures NormalizeValue(numeric, ins.values[i]) == ins.values[i]
    {
      var k := KeptComesFrom(u, numeric, i - 1);
      assert SimpleEquation(u.assignments[k]);
      NormalizedIsShortened(u.assignments[k].column);
      ValueIsPrintable(numeric, u.assignments[k].value);
    }
    ClosedAreListed(ins.columns);
    ClosedAreListed(ins.values);
  }

  lemma ValueIsPrintable(numeric: string -> bool, value: string)
    requires NumbersArePlain(numeric) && Closed(value)
    ensures var v := NormalizeValue(numeric, value); Trimmed(v) && Closed(v) && NormalizeValue(numeric, v) == v
  {
    hide NormalizeValue, Atomic, Closed;
    NormalizeValueAtomic(numeric, value);
    NormalizeValueTwice(numeric, value);
    AtomicIsClosed(NormalizeValue(numeric, value));
  }

  lemma StampIsPrintable(numeric: string -> bool, stamp: string)
    requires NumbersArePlain(numeric) && Closed(stamp)
    ensures Closed("timestamp") && Shortened("timestamp")
    ensures var v := NormalizeValue(numeric, TrimTrailingSemicolon(stamp));
      Trimmed(v) && Closed(v) && NormalizeValue(numeric, v) == v
  {
    hide NormalizeValue, Atomic, Closed, TrimTrailingSemicolon;
    PlainIsClosed("timestamp");
    assert "timestamp"[..5][0] == 't';
    StampIsClosed(stamp);
    ValueIsPrintable(numeric, TrimTrailingSemicolon(stamp));
  }

  lemma TimestampIsBounded()
    ensures Bounded("timestamp")
  {
    StampIsBounded("timestamp");
  }

  lemma TimestampIs(a: Assignment)
    requires IsTimestamp(a)
    ensures Bounded(a.column)
  {
    StampIsBounded(a.column);
  }

  /** The printed columns are bounded exactly when the written ones are settled; the timestamp always is. */
  lemma BoundedIffSettled(u: Update, prefix: string, numeric: string -> bool)
    ensures (forall k :: 0 <= k < |Asked(u, prefix, numeric).columns| ==> Bounded(Asked(u, prefix, numeric).columns[k]))
      <==> forall i :: 0 <= i < |u.assignments| ==> Settled(u.assignments[i].column)
  {
    hide NormalizeColumn, NormalizeValue, Bounded, Settled, StampOf, QualifyPath, EqualFold, Kept, KeptCount;
    var columns := Asked(u, prefix, numeric).columns;
    var all := ReadAll(u.assignments, numeric);
    TimestampIsBounded();
    forall i | 0 <= i < |u.assignments|
      ensures Settled(u.assignments[i].column) || exists k :: 0 <= k < |columns| && !Bounded(columns[k])
    {
      NormalizedIsShortened(u.assignments[i].column);
      KeptInOrder(all, i);
      if IsTimestamp(all[i]) {
        TimestampIs(all[i]);
      } else {
        assert columns[KeptCount(all[..i]) + 1] == all[i].column;
      }
    }
    forall k | 0 < k < |columns|
      ensures Bounded(columns[k]) || exists i :: 0 <= i < |u.assignments| && !Settled(u.assignments[i].column)
    {
      var i := KeptComesFrom(u, numeric, k - 1);
      NormalizedIsShortened(u.assignments[i].column);
    }
  }

  /**
   * A well-formed UPDATE becomes the INSERT that holds the timestamp and exactly the other assignments in order; when
   * it assigns to nothing but the timestamp it stays an UPDATE. That text reads back as that INSERT, and the INSERT
   * rewrite that runs next leaves it alone if and only if every assigned column is settled.
   */
  lemma UpdateBecomesInsert(u: Update, l: UpdateLayout, prefix: string, numeric: string -> bool)
    requires SimpleUpdate(u, prefix, numeric) && l.Fits()
    ensures var kept := Kept(ReadAll(u.assignments, numeric));
      var ins := InsertOf(prefix, numeric, u.table, StampOf(u), kept);
      && UpdateRewrite(prefix, numeric, UpdateText(u, l)) == Some(if kept == [] then UpdateText(u, l) else Print(ins))
      && ParseInsert(Print(ins)) == Some(TrimmedLists(ins))
      && (InsertRewrite(prefix, numeric, Print(ins)) == Print(ins)
          <==> forall i :: 0 <= i < |u.assignments| ==> Settled(u.assignments[i].column))
  {
    hide SimpleUpdate, Printable, UpdateText, SetText, WhereText, Split, Trim, ReadParts, Overlap, TimestampIn, Bounded,
         ReadAssignments, Kept, ReadAll, Print, InsertOf, Normalized, ParseInsert, WellFormed, TrimmedLists, Settled;
    SimpleParts(u, prefix, numeric);
    WhereClauseReads(u, l, numeric);
    PartsAreReadIff(u, l);
    SetClauseReads(u, numeric);
    AskedIsPrintable(u, prefix, numeric);
    PrintedStaysIff(prefix, numeric, Asked(u, prefix, numeric));
    BoundedIffSettled(u, prefix, numeric);
  }

  /**
   * Conditions other than the one on the timestamp are dropped: two statements that differ in nothing else become the
   * same INSERT, so `time=5 and b=2` inserts whatever b is.
   */
  lemma OtherConditionsAreDropped(u: Update, v: Update, l: UpdateLayout, prefix: string, numeric: string -> bool)
    requires SimpleUpdate(u, prefix, numeric) && SimpleUpdate(v, prefix, numeric) && l.Fits()
    requires v == u.(before := v.before, after := v.after) && Kept(ReadAll(u.assignments, numeric)) != []
    ensures UpdateRewrite(prefix, numeric, UpdateText(u, l)) == UpdateRewrite(prefix, numeric, UpdateText(v, l))
  {
    hide SimpleUpdate, UpdateText, UpdateRewrite, Print, InsertOf, Kept, ReadAll, StampOf;
    UpdateBecomesInsert(u, l, prefix, numeric);
    UpdateBecomesInsert(v, l, prefix, numeric);
    assert StampOf(u) == StampOf(v) by {
      SameStamp(u, v);
    }
  }

  lemma SameStamp(u: Update, v: Update)
    requires u.stamp == v.stamp
    ensures StampOf(u) == StampOf(v)
  {
  }

  // ---------- what fails ----------

  /** The rewrite panics if and only if two separators of the WHERE clause share a blank. */
  lemma PanicsIff(u: Update, l: UpdateLayout, prefix: string, numeric: string -> bool)
    requires SimpleSet(u) && WordsStandOnce(u) && EndsWell(WhereText(u, l)) && l.Fits()
    ensures UpdateRewrite(prefix, numeric, UpdateText(u, l)) == None <==> Overlap(WhereText(u, l))
  {
    hide SimpleSet, WordsStandOnce, EndsWell, UpdateText, ReadParts, WhereText, SetText, Trim, Overlap, UpdateInsert;
    PartsAreReadIff(u, l);
  }
}
