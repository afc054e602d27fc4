/**
 * UPDATE statements, which IoTDB does not have: the driver turns one that names a timestamp into an INSERT that
 * overwrites the values at that timestamp.
 */
module IotdbUpdate {
  import opened Wrappers
  import opened Text
  import opened SqlScan
  import opened SqlWords
  import opened SqlLists
  import opened IotdbInsert

  /** The three parts of a statement between its key words. */
  datatype UpdateParts = UpdateParts(table: string, setClause: string, whereClause: string)

  datatype Assignment = Assignment(column: string, value: string)

  function TrimTrailingSemicolon(value: string): string {
    Trim(TrimRightOf(Trim(value), ";"))
  }

  /** A key word never starts inside `update ` nor overlaps the one before it, so no slice below is inverted. */
  lemma KeywordPlaces(t: string)
    requires HasPrefix(Lower(t), "update ")
    ensures var s, w := FirstKeyword(t, "set"), FirstKeyword(t, "where");
      && (s.Some? ==> 7 <= s.value && s.value + 3 <= |t|)
      && (w.Some? ==> w.value + 5 <= |t|)
      && (s.Some? && w.Some? && s.value < w.value ==> s.value + 3 <= w.value)
  {
    hide Lower;
    KeywordFacts(t, "set", 0);
    KeywordFacts(t, "where", 0);
    var s, w := FirstKeyword(t, "set"), FirstKeyword(t, "where");
    if s.Some? {
      SetBehindHead(t, s.value);
      if w.Some? && s.value < w.value {
        WhereBehindSet(t, s.value, w.value);
      }
    }
  }

  lemma SetBehindHead(t: string, i: nat)
    requires HasPrefix(Lower(t), "update ") && KeywordAt(t, "set", i)
    ensures i >= 7
  {
    Spells(t, "set", i, 0);
    HeadSpells(t, i);
  }

  lemma HeadSpells(t: string, i: nat)
    requires HasPrefix(Lower(t), "update ") && i < |t|
    ensures i < 7 ==> LowerChar(t[i]) == "update "[i]
  {
    assert i < 7 ==> Lower(t)[..7][i] == Lower(t)[i];
  }

  lemma WhereBehindSet(t: string, i: nat, j: nat)
    requires KeywordAt(t, "set", i) && KeywordAt(t, "where", j) && i < j
    ensures i + 3 <= j
  {
    Spells(t, "where", j, 0);
    Spells(t, "set", i, 1);
    Spells(t, "set", i, 2);
  }

  /** None where the source hands the statement back unchanged. */
  function ReadParts(trimmed: string): Option<UpdateParts> {
    if !HasPrefix(Lower(trimmed), "update ") then None
    else
      var setIdx, whereIdx := FirstKeyword(trimmed, "set"), FirstKeyword(trimmed, "where");
      if setIdx.None? || whereIdx.None? || whereIdx.value <= setIdx.value then None
      else
        KeywordPlaces(trimmed);
        Some(UpdateParts(
          Trim(trimmed[7..setIdx.value]),
          Trim(trimmed[setIdx.value + 3..whereIdx.value]),
          TrimTrailingSemicolon(Trim(trimmed[whereIdx.value + 5..]))))
  }

  /** The condition compares the timestamp column. */
  predicate NamesTimestamp(condition: string) {
    match IndexOf(condition, '=')
    case None => false
    case Some(i) => EqualFold(NormalizeColumn(condition[..i]), "timestamp")
  }

  function ComparedWith(condition: string): string
    requires IndexOf(condition, '=').Some?
  {
    TrimTrailingSemicolon(Trim(condition[IndexOf(condition, '=').value + 1..]))
  }

  /** What the first condition on the timestamp compares it with. */
  function TimestampIn(conditions: seq<string>): Option<string> {
    if conditions == [] then None
    else if NamesTimestamp(conditions[0]) then Some(ComparedWith(conditions[0]))
    else TimestampIn(conditions[1..])
  }

  /** One item of the SET list; None when it has no equals sign. */
  function ReadAssignment(numeric: string -> bool, item: string): Option<Assignment> {
    match IndexOf(item, '=')
    case None => None
    case Some(i) => Some(Assignment(NormalizeColumn(item[..i]), NormalizeValue(numeric, item[i + 1..])))
  }

  function ReadAssignments(numeric: string -> bool, items: seq<string>): Option<seq<Assignment>> {
    if items == [] then Some([])
    else
      match ReadAssignment(numeric, items[|items| - 1])
      case None => None
      case Some(a) =>
        match ReadAssignments(numeric, items[..|items| - 1])
        case None => None
        case Some(before) => Some(before + [a])
  }

  predicate IsTimestamp(a: Assignment) {
    EqualFold(a.column, "timestamp")
  }

  /** The assignments to other columns, in order. */
  function Kept(assignments: seq<Assignment>): seq<Assignment> {
    if assignments == [] then []
    else
      var last := assignments[|assignments| - 1];
      Kept(assignments[..|assignments| - 1]) + if IsTimestamp(last) then [] else [last]
  }

  function Columns(assignments: seq<Assignment>): (r: seq<string>)
    ensures |r| == |assignments| && forall i :: 0 <= i < |r| ==> r[i] == assignments[i].column
  {
    seq(|assignments|, i requires 0 <= i < |assignments| => assignments[i].column)
  }

  function Values(assignments: seq<Assignment>): (r: seq<string>)
    ensures |r| == |assignments| && forall i :: 0 <= i < |r| ==> r[i] == assignments[i].value
  {
    seq(|assignments|, i requires 0 <= i < |assignments| => assignments[i].value)
  }

  /** The INSERT with the timestamp first and then the kept assignments. */
  function InsertOf(prefix: string, numeric: string -> bool, table: string, stamp: string,
    kept: seq<Assignment>): Insert {
    Insert(QualifyPath(prefix, table), ["timestamp"] + Columns(kept), [NormalizeValue(numeric, stamp)] + Values(kept))
  }

  /** What the statement asks for, or None where it stays as it is. */
  function UpdateInsert(prefix: string, numeric: string -> bool, parts: UpdateParts): Option<Insert> {
    match TimestampIn(Split(And, parts.whereClause))
    case None => None
    case Some(stamp) =>
      match ReadAssignments(numeric, Split(Comma, parts.setClause))
      case None => None
      case Some(assignments) =>
        var kept := Kept(assignments);
        if kept == [] then None else Some(InsertOf(prefix, numeric, parts.table, stamp, kept))
  }

  /** The whole rewrite; None is the run-time panic of splitAnd. */
  ghost function UpdateRewrite(prefix: string, numeric: string -> bool, sql: string): Option<string> {
    match ReadParts(Trim(sql))
    case None => Some(sql)
    case Some(parts) =>
      if Overlap(parts.whereClause) then None
      else match UpdateInsert(prefix, numeric, parts) {
        case None => Some(sql)
        case Some(ins) => Some(Print(ins))
      }
  }

  // ---------- the code ----------

  method ExtractTimestampPredicate(whereClause: string) returns (panics: bool, stamp: Option<string>)
    ensures panics <==> Overlap(whereClause)
    ensures !panics ==> stamp == TimestampIn(Split(And, whereClause))
  {
    var parts := SplitAnd(whereClause);
    if parts.None? {
      return true, None;
    }
    var conditions := parts.value;
    var n := 0;
    while n < |conditions|
      invariant 0 <= n <= |conditions|
      invariant TimestampIn(conditions[n..]) == TimestampIn(conditions)
    {
      var predicateText := conditions[n];
      var eqIdx := IndexOf(predicateText, '=');
      assert conditions[n..][0] == predicateText && conditions[n..][1..] == conditions[n + 1..];
      if eqIdx.Some? {
        var left := NormalizeColumn(predicateText[..eqIdx.value]);
        if EqualFold(left, "timestamp") {
          return false, Some(TrimTrailingSemicolon(Trim(predicateText[eqIdx.value + 1..])));
        }
      }
      n := n + 1;
    }
    return false, None;
  }

  /** The loop over the SET list, which skips assignments to the timestamp. */
  method CollectAssignments(setClause: string, numeric: string -> bool, stampValue: string)
    returns (ok: bool, columns: seq<string>, values: seq<string>)
    ensures ok <==> ReadAssignments(numeric, Split(Comma, setClause)).Some?
    ensures ok ==>
      var kept := Kept(ReadAssignments(numeric, Split(Comma, setClause)).value);
      columns == ["timestamp"] + Columns(kept) && values == [stampValue] + Values(kept)
  {
    hide ReadAssignments, Kept, Columns, Values, NormalizeValue, NormalizeColumn, Split, EqualFold;
    var items := SplitCsv(setClause);
    KeptOfNothing(numeric);
    columns, values := ["timestamp"], [stampValue];
    ok := true;
    ghost var read: seq<Assignment> := [];
    var n := 0;
    while n < |items|
      invariant 0 <= n <= |items|
      invariant ReadAssignments(numeric, items[..n]) == Some(read)
      invariant columns == ["timestamp"] + Columns(Kept(read)) && values == [stampValue] + Values(Kept(read))
    {
      var assignment := items[n];
      var eqIdx := IndexOf(assignment, '=');
      if eqIdx.None? {
        UnreadableItem(numeric, items, n);
        ok := false;
        return;
      }
      var column := NormalizeColumn(assignment[..eqIdx.value]);
      ghost var a := Assignment(column, NormalizeValue(numeric, assignment[eqIdx.value + 1..]));
      ReadMore(numeric, items, n, read, a);
      KeptMore(read, a);
      if !EqualFold(column, "timestamp") {
        columns := columns + [column];
        values := values + [NormalizeValue(numeric, assignment[eqIdx.value + 1..])];
      }
      read := read + [a];
      n := n + 1;
    }
    assert items[..n] == items;
  }

  lemma KeptOfNothing(numeric: string -> bool)
    ensures ReadAssignments(numeric, []) == Some([])
    ensures Columns(Kept([])) == [] && Values(Kept([])) == []
  {
  }

  lemma ReadMore(numeric: string -> bool, items: seq<string>, n: nat, read: seq<Assignment>, a: Assignment)
    requires n < |items| && ReadAssignments(numeric, items[..n]) == Some(read)
    requires ReadAssignment(numeric, items[n]) == Some(a)
    ensures ReadAssignments(numeric, items[..n + 1]) == Some(read + [a])
  {
    assert items[..n + 1][..n] == items[..n];
  }

  lemma KeptMore(read: seq<Assignment>, a: Assignment)
    ensures Columns(Kept(read + [a])) == Columns(Kept(read)) + if IsTimestamp(a) then [] else [a.column]
    ensures Values(Kept(read + [a])) == Values(Kept(read)) + if IsTimestamp(a) then [] else [a.value]
  {
    assert (read + [a])[..|read|] == read;
  }

  lemma {:induction false} UnreadableItem(numeric: string -> bool, items: seq<string>, n: nat)
    requires n < |items| && ReadAssignment(numeric, items[n]) == None
    ensures ReadAssignments(numeric, items) == None
    decreases |items|
  {
    if n < |items| - 1 {
      UnreadableItem(numeric, items[..|items| - 1], n);
    }
  }

  method NormalizeUpdateStatement(prefix: string, sql: string, numeric: string -> bool) returns (r: Option<string>)
    ensures r == UpdateRewrite(prefix, numeric, sql)
  {
    hide Trim, Split, TrimRightOf, FirstKeyword, Overlap;
    var trimmed := Trim(sql);
    if !HasPrefix(Lower(trimmed), "update ") {
      return Some(sql);
    }
    var setIdx := FindKeyword(trimmed, "set");
    if setIdx.None? {
      return Some(sql);
    }
    var whereIdx := FindKeyword(trimmed, "where");
    if whereIdx.None? || whereIdx.value <= setIdx.value {
      return Some(sql);
    }
    KeywordPlaces(trimmed);
    var table := Trim(trimmed[|"update "|..setIdx.value]);
    var setClause := Trim(trimmed[setIdx.value + |"set"|..whereIdx.value]);
    var whereClause := TrimTrailingSemicolon(Trim(trimmed[whereIdx.value + |"where"|..]));
    assert ReadParts(trimmed) == Some(UpdateParts(table, setClause, whereClause));
    var panics, stamp := ExtractTimestampPredicate(whereClause);
    if panics {
      return None;
    }
    if stamp.None? {
      return Some(sql);
    }
    var ok, columns, values := CollectAssignments(setClause, numeric, NormalizeValue(numeric, stamp.value));
    if !ok || |columns| <= 1 {
      return Some(sql);
    }
    return Some(Print(Insert(QualifyPath(prefix, table), columns, values)));
  }
}
