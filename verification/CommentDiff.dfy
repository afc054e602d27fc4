/** The comment part of an ALTER: both diff compilers carry the same `diff_comments`. */
module CommentDiff {
  import opened Wrappers
  import opened AlterTable
  import opened AlterPlan

  /** The column a hash map built from the list holds under a name: the last one of that name. */
  function LastNamed(columns: seq<ColumnSpec>, name: string): Option<ColumnSpec>
    decreases |columns|
  {
    if columns == [] then None
    else if columns[|columns| - 1].name == name then Some(columns[|columns| - 1])
    else LastNamed(columns[..|columns| - 1], name)
  }

  /** The comment a specification has under a name, if it has the name. */
  function CommentUnder(from: seq<ColumnSpec>, name: string): Option<string> {
    match LastNamed(from, name)
    case None => None
    case Some(c) => Some(c.comment)
  }

  predicate CommentDiffers(from: seq<ColumnSpec>, c: ColumnSpec) {
    c.name != "" && LastNamed(from, c.name).Some? && LastNamed(from, c.name).value.comment != c.comment
  }

  function CommentDiffs(from: seq<ColumnSpec>, to: seq<ColumnSpec>): seq<CommentChange>
    decreases |to|
  {
    if to == [] then []
    else
      var c, rest := to[|to| - 1], CommentDiffs(from, to[..|to| - 1]);
      if CommentDiffers(from, c) then
        rest + [CommentChange(c.name, LastNamed(from, c.name).value.comment, c.comment)]
      else
        rest
  }

  function DiffChanges(from: TableSpec, to: TableSpec): seq<Change> {
    TableCommentChanges(from.comment, to.comment) + CommentChanges(CommentDiffs(from.columns, to.columns))
  }

  lemma CommentsGrow(comments: seq<CommentChange>, c: CommentChange)
    ensures Forward(CommentChanges(comments + [c]))
      == Forward(CommentChanges(comments)) + [CommentOnColumn(c.name, c.after)]
    ensures Rollback(CommentChanges(comments + [c]))
      == [CommentOnColumn(c.name, c.before)] + Rollback(CommentChanges(comments))
  {
    assert (comments + [c])[..|comments|] == comments;
    var change := Change([CommentOnColumn(c.name, c.after)], [CommentOnColumn(c.name, c.before)]);
    OneChange(change);
    ForwardAppend(CommentChanges(comments), [change]);
    RollbackAppend(CommentChanges(comments), [change]);
  }

  lemma DiffsGrow(from: seq<ColumnSpec>, to: seq<ColumnSpec>, i: nat)
    requires i < |to|
    ensures CommentDiffs(from, to[..i + 1]) ==
            if CommentDiffers(from, to[i]) then
              CommentDiffs(from, to[..i])
              + [CommentChange(to[i].name, LastNamed(from, to[i].name).value.comment, to[i].comment)]
            else
              CommentDiffs(from, to[..i])
  {
    assert to[..i + 1][..i] == to[..i];
  }

  function CommentStatement(from: seq<ColumnSpec>, c: ColumnSpec): seq<Statement> {
    if CommentDiffers(from, c) then [CommentOnColumn(c.name, c.comment)] else []
  }

  function RestoreStatement(from: seq<ColumnSpec>, c: ColumnSpec): seq<Statement> {
    if CommentDiffers(from, c) then [CommentOnColumn(c.name, LastNamed(from, c.name).value.comment)] else []
  }

  lemma NothingToDiff(from: seq<ColumnSpec>)
    ensures Forward(CommentChanges(CommentDiffs(from, []))) == []
    ensures Rollback(CommentChanges(CommentDiffs(from, []))) == []
  {
  }

  lemma Prepended(a: seq<Statement>, b: seq<Statement>, c: seq<Statement>)
    ensures a + (b + c) == (a + b) + c
  {
  }

  lemma StatementsGrow(from: seq<ColumnSpec>, to: seq<ColumnSpec>, i: nat)
    requires i < |to|
    ensures Forward(CommentChanges(CommentDiffs(from, to[..i + 1])))
            == Forward(CommentChanges(CommentDiffs(from, to[..i]))) + CommentStatement(from, to[i])
    ensures Rollback(CommentChanges(CommentDiffs(from, to[..i + 1])))
            == RestoreStatement(from, to[i]) + Rollback(CommentChanges(CommentDiffs(from, to[..i])))
  {
    DiffsGrow(from, to, i);
    if CommentDiffers(from, to[i]) {
      CommentsGrow(CommentDiffs(from, to[..i]),
        CommentChange(to[i].name, LastNamed(from, to[i].name).value.comment, to[i].comment));
    }
  }

  lemma NoChanges()
    ensures Forward([]) == [] && Rollback([]) == []
  {
  }

  method DiffComments(statements: seq<Statement>, rollback: seq<Statement>, from: TableSpec, to: TableSpec,
                      withRollback: bool)
    returns (outStatements: seq<Statement>, outRollback: seq<Statement>)
    ensures outStatements == statements + Forward(DiffChanges(from, to))
    ensures outRollback == if withRollback then Rollback(DiffChanges(from, to)) + rollback else rollback
  {
    hide Forward, Rollback, CommentChanges, CommentDiffs, TableCommentChanges;
    outStatements, outRollback := statements, rollback;
    TableChangesAre(from.comment, to.comment);
    if from.comment != to.comment {
      outStatements := outStatements + [CommentOnTable(to.comment)];
      if withRollback {
        outRollback := [CommentOnTable(from.comment)] + outRollback;
      }
    }
    outStatements, outRollback := DiffColumnComments(outStatements, outRollback, from.columns, to.columns,
      withRollback);
    ForwardAppend(TableCommentChanges(from.comment, to.comment),
      CommentChanges(CommentDiffs(from.columns, to.columns)));
    RollbackAppend(TableCommentChanges(from.comment, to.comment),
      CommentChanges(CommentDiffs(from.columns, to.columns)));
    ghost var table, columns := TableCommentChanges(from.comment, to.comment),
      CommentChanges(CommentDiffs(from.columns, to.columns));
    Grouped(statements, Forward(table), Forward(columns));
    Grouped(Rollback(columns), Rollback(table), rollback);
  }

  lemma TableChangesAre(before: string, after: string)
    ensures Forward(TableCommentChanges(before, after)) == if before == after then [] else [CommentOnTable(after)]
    ensures Rollback(TableCommentChanges(before, after)) == if before == after then [] else [CommentOnTable(before)]
  {
    if before == after {
      NoChanges();
    } else {
      OneChange(Change([CommentOnTable(after)], [CommentOnTable(before)]));
    }
  }

  method DiffColumnComments(statements: seq<Statement>, rollback: seq<Statement>, from: seq<ColumnSpec>,
                            to: seq<ColumnSpec>, withRollback: bool)
    returns (outStatements: seq<Statement>, outRollback: seq<Statement>)
    ensures outStatements == statements + Forward(CommentChanges(CommentDiffs(from, to)))
    ensures outRollback == if withRollback then Rollback(CommentChanges(CommentDiffs(from, to))) + rollback
      else rollback
  {
    hide Forward, Rollback, CommentChanges, CommentDiffs;
    outStatements, outRollback := statements, rollback;
    var fromCols := BuildMap(from);
    NothingToDiff(from);
    assert to[..0] == [];
    ghost var forward: seq<Statement>, undo: seq<Statement> := [], [];
    var i := 0;
    while i < |to|
      invariant 0 <= i <= |to|
      invariant forward == Forward(CommentChanges(CommentDiffs(from, to[..i])))
      invariant undo == Rollback(CommentChanges(CommentDiffs(from, to[..i])))
      invariant outStatements == statements + forward
      invariant withRollback ==> outRollback == undo + rollback
      invariant !withRollback ==> outRollback == rollback
    {
      var c := to[i];
      StatementsGrow(from, to, i);
      ghost var restore := RestoreStatement(from, c);
      Prepended(restore, undo, rollback);
      forward, undo := forward + CommentStatement(from, c), restore + undo;
      if c.name != "" && c.name in fromCols && fromCols[c.name].comment != c.comment {
        outStatements := outStatements + [CommentOnColumn(c.name, c.comment)];
        if withRollback {
          outRollback := [CommentOnColumn(c.name, fromCols[c.name].comment)] + outRollback;
        }
      } else {
        assert restore == [];
      }
      i := i + 1;
    }
    assert to[..i] == to;
  }

  method BuildMap(columns: seq<ColumnSpec>) returns (m: map<string, ColumnSpec>)
    ensures forall name :: name in m <==> LastNamed(columns, name).Some?
    ensures forall name :: name in m ==> m[name] == LastNamed(columns, name).value
  {
    m := map[];
    var i := 0;
    while i < |columns|
      invariant 0 <= i <= |columns|
      invariant forall name :: name in m <==> LastNamed(columns[..i], name).Some?
      invariant forall name :: name in m ==> m[name] == LastNamed(columns[..i], name).value
    {
      assert columns[..i + 1][..i] == columns[..i];
      m := m[columns[i].name := columns[i]];
      i := i + 1;
    }
    assert columns[..i] == columns;
  }

  // ---------- what the diff holds ----------

  lemma {:induction false} NamedFacts(columns: seq<ColumnSpec>, name: string)
    ensures LastNamed(columns, name).Some? <==> HasName(columns, name)
    ensures LastNamed(columns, name).Some? ==> LastNamed(columns, name).value.name == name
    ensures DistinctSpecs(columns) ==>
              forall i :: 0 <= i < |columns| && columns[i].name == name ==> LastNamed(columns, name) == Some(columns[i])
    decreases |columns|
  {
    if columns != [] {
      var front := columns[..|columns| - 1];
      assert forall i :: 0 <= i < |front| ==> front[i] == columns[i];
      NamedFacts(front, name);
      assert columns[|columns| - 1].name == name ==> HasName(columns, name);
      if HasName(columns, name) && columns[|columns| - 1].name != name {
        var i :| 0 <= i < |columns| && columns[i].name == name;
        assert front[i].name == name;
      }
    }
  }

  predicate ChangesComment(comments: seq<CommentChange>, x: string) {
    exists i :: 0 <= i < |comments| && comments[i].name == x
  }

  /** An entry of the diff names a column of both tables and holds its old comment. */
  ghost predicate EntryIsOf(from: seq<ColumnSpec>, to: seq<ColumnSpec>, entry: CommentChange) {
    && HasName(from, entry.name) && HasName(to, entry.name)
    && LastNamed(from, entry.name).Some? && LastNamed(from, entry.name).value.comment == entry.before
  }

  /** Everything the diff says about one column of the target. */
  ghost predicate ColumnIsListed(from: seq<ColumnSpec>, diffs: seq<CommentChange>, c: ColumnSpec) {
    && (CommentDiffers(from, c) ==> ChangesComment(diffs, c.name))
    && (forall i :: 0 <= i < |diffs| && diffs[i].name == c.name ==>
          diffs[i].after == c.comment && CommentDiffers(from, c))
  }

  /** The diff lists exactly the columns of both tables whose comments differ, each once, with both comments. */
  lemma {:induction false} DiffFacts(from: seq<ColumnSpec>, to: seq<ColumnSpec>)
    requires DistinctSpecs(from) && DistinctSpecs(to)
    ensures var diffs := CommentDiffs(from, to);
            && (forall i, j :: 0 <= i < j < |diffs| ==> diffs[i].name != diffs[j].name)
            && (forall i :: 0 <= i < |diffs| ==> EntryIsOf(from, to, diffs[i]))
            && (forall k :: 0 <= k < |to| ==> ColumnIsListed(from, diffs, to[k]))
    decreases |to|
  {
    hide HasName, LastNamed, EntryIsOf, ColumnIsListed, CommentDiffers;
    if to != [] {
      var c, front := to[|to| - 1], to[..|to| - 1];
      assert forall k :: 0 <= k < |front| ==> front[k] == to[k];
      DiffFacts(from, front);
      var rest, diffs := CommentDiffs(from, front), CommentDiffs(from, to);
      assert forall i :: 0 <= i < |rest| ==> diffs[i] == rest[i];
      forall i | 0 <= i < |diffs|
        ensures EntryIsOf(from, to, diffs[i]) && (i < |rest| ==> diffs[i].name != c.name)
      {
        if i < |rest| {
          EntryStays(from, to, rest[i]);
        } else {
          EntryIsNew(from, to);
        }
      }
      forall k | 0 <= k < |to| ensures ColumnIsListed(from, diffs, to[k]) {
        if k < |front| {
          ListedStays(from, rest, diffs, c, to[k]);
        } else {
          LastIsListed(from, rest, diffs, c);
        }
      }
    }
  }

  lemma EntryStays(from: seq<ColumnSpec>, to: seq<ColumnSpec>, entry: CommentChange)
    requires DistinctSpecs(to) && to != [] && EntryIsOf(from, to[..|to| - 1], entry)
    ensures EntryIsOf(from, to, entry) && entry.name != to[|to| - 1].name
  {
    NamedSplit(to, entry.name);
    var front := to[..|to| - 1];
    var k :| 0 <= k < |front| && front[k].name == entry.name;
    assert to[k].name == entry.name;
  }

  lemma EntryIsNew(from: seq<ColumnSpec>, to: seq<ColumnSpec>)
    requires to != [] && CommentDiffers(from, to[|to| - 1])
    ensures var c := to[|to| - 1];
            EntryIsOf(from, to, CommentChange(c.name, LastNamed(from, c.name).value.comment, c.comment))
  {
    NamedSplit(to, to[|to| - 1].name);
    NamedFacts(from, to[|to| - 1].name);
  }

  lemma ListedStays(from: seq<ColumnSpec>, rest: seq<CommentChange>, diffs: seq<CommentChange>, last: ColumnSpec,
                    c: ColumnSpec)
    requires ColumnIsListed(from, rest, c) && last.name != c.name
    requires diffs == rest || (|diffs| == |rest| + 1 && diffs[..|rest|] == rest && diffs[|rest|].name == last.name)
    ensures ColumnIsListed(from, diffs, c)
  {
    assert forall i :: 0 <= i < |rest| ==> diffs[i] == rest[i];
    if CommentDiffers(from, c) {
      var i :| 0 <= i < |rest| && rest[i].name == c.name;
      assert diffs[i].name == c.name;
    }
  }

  lemma LastIsListed(from: seq<ColumnSpec>, rest: seq<CommentChange>, diffs: seq<CommentChange>, c: ColumnSpec)
    requires forall i :: 0 <= i < |rest| ==> rest[i].name != c.name
    requires if CommentDiffers(from, c) then
               diffs == rest + [CommentChange(c.name, LastNamed(from, c.name).value.comment, c.comment)]
             else diffs == rest
    ensures ColumnIsListed(from, diffs, c)
  {
    if CommentDiffers(from, c) {
      assert diffs[|rest|].name == c.name;
    }
  }

  lemma DiffEntry(from: seq<ColumnSpec>, to: seq<ColumnSpec>, i: nat)
    requires DistinctSpecs(from) && DistinctSpecs(to) && i < |CommentDiffs(from, to)|
    ensures var c := CommentDiffs(from, to)[i];
            HasName(from, c.name) && HasName(to, c.name)
            && LastNamed(from, c.name).Some? && LastNamed(from, c.name).value.comment == c.before
  {
    DiffFacts(from, to);
  }

  lemma DiffSource(from: seq<ColumnSpec>, to: seq<ColumnSpec>, i: nat)
    requires DistinctSpecs(from) && DistinctSpecs(to) && i < |CommentDiffs(from, to)|
    ensures exists k :: 0 <= k < |to| && to[k].name == CommentDiffs(from, to)[i].name && CommentDiffers(from, to[k])
  {
    DiffFacts(from, to);
    DiffEntry(from, to, i);
    var k :| 0 <= k < |to| && to[k].name == CommentDiffs(from, to)[i].name;
  }

  lemma DiffIsOf(from: seq<ColumnSpec>, to: seq<ColumnSpec>, i: nat, k: nat)
    requires DistinctSpecs(from) && DistinctSpecs(to) && i < |CommentDiffs(from, to)| && k < |to|
    requires CommentDiffs(from, to)[i].name == to[k].name
    ensures CommentDiffers(from, to[k]) && CommentDiffs(from, to)[i].after == to[k].comment
  {
    DiffFacts(from, to);
  }

  lemma DiffNamesDistinct(from: seq<ColumnSpec>, to: seq<ColumnSpec>)
    requires DistinctSpecs(from) && DistinctSpecs(to)
    ensures forall i, j :: 0 <= i < j < |CommentDiffs(from, to)| ==>
      CommentDiffs(from, to)[i].name != CommentDiffs(from, to)[j].name
  {
    DiffFacts(from, to);
  }

  predicate DiffersAt(from: seq<ColumnSpec>, to: seq<ColumnSpec>, x: string) {
    exists k :: 0 <= k < |to| && to[k].name == x && CommentDiffers(from, to[k])
  }

  /** The names in the diff are those of the target columns whose comments differ. */
  lemma DiffNames(from: seq<ColumnSpec>, to: seq<ColumnSpec>)
    requires DistinctSpecs(from) && DistinctSpecs(to)
    ensures forall i :: 0 <= i < |CommentDiffs(from, to)| ==> DiffersAt(from, to, CommentDiffs(from, to)[i].name)
    ensures forall k :: 0 <= k < |to| && CommentDiffers(from, to[k]) ==>
              ChangesComment(CommentDiffs(from, to), to[k].name)
  {
    forall i | 0 <= i < |CommentDiffs(from, to)| ensures DiffersAt(from, to, CommentDiffs(from, to)[i].name) {
      DiffSource(from, to, i);
    }
    DiffFacts(from, to);
  }

  // ---------- tables that match a specification ----------

  /** The table has exactly the columns and comments the specification lists. */
  ghost predicate Matches(t: Table, spec: TableSpec) {
    && t.comment == spec.comment
    && |t.columns| == |spec.columns|
    && forall i :: 0 <= i < |t.columns| ==>
         t.columns[i].name == spec.columns[i].name && t.columns[i].comment == spec.columns[i].comment
  }

  lemma MatchedLookup(t: Table, spec: TableSpec, x: string)
    requires Matches(t, spec) && DistinctSpecs(spec.columns)
    ensures Distinct(t.columns)
    ensures Lookup(t.columns, x).Some? <==> HasName(spec.columns, x)
    ensures Lookup(t.columns, x).Some? ==>
              LastNamed(spec.columns, x).Some?
                && Lookup(t.columns, x).value.comment == LastNamed(spec.columns, x).value.comment
  {
    NamedFacts(spec.columns, x);
    LookupAbsent(t.columns, x);
    if Lookup(t.columns, x).Some? {
      assert spec.columns[Index(t.columns, x)].name == x;
    }
    if HasName(spec.columns, x) {
      var i :| 0 <= i < |spec.columns| && spec.columns[i].name == x;
      assert t.columns[i].name == x;
    }
  }

  /** The comment part is accepted exactly when every column whose comment it changes is in the table. */
  lemma DiffLegal(d: Dialect, t: Table, from: TableSpec, to: TableSpec)
    requires Distinct(t.columns) && t.comment == from.comment
    ensures ExecAll(d, t, Forward(DiffChanges(from, to))).Some?
            <==> AllPresent(t.columns, CommentDiffs(from.columns, to.columns))
  {
    hide Forward, TableCommentChanges, CommentChanges, ExecAll, AllPresent;
    var diffs := CommentDiffs(from.columns, to.columns);
    var tableChanges, changes := TableCommentChanges(from.comment, to.comment), CommentChanges(diffs);
    var t' := t.(comment := to.comment);
    assert t'.columns == t.columns;
    ForwardAppend(tableChanges, changes);
    ExecAllAppend(d, t, Forward(tableChanges), Forward(changes));
    TableCommentEffect(d, t, from.comment, to.comment);
    assert ExecAll(d, t, Forward(DiffChanges(from, to))) == ExecAll(d, t', Forward(changes));
    CommentsLegal(d, t', diffs);
  }

  lemma DiffEffect(d: Dialect, t: Table, from: TableSpec, to: TableSpec, x: string)
    requires Distinct(t.columns) && t.comment == from.comment
    requires ExecAll(d, t, Forward(DiffChanges(from, to))).Some?
    ensures var t' := ExecAll(d, t, Forward(DiffChanges(from, to))).value;
            t'.comment == to.comment
            && Lookup(t'.columns, x) == CommentedLookup(CommentDiffs(from.columns, to.columns), Lookup(t.columns, x), x)
  {
    var tableChanges, changes := TableCommentChanges(from.comment, to.comment),
      CommentChanges(CommentDiffs(from.columns, to.columns));
    ForwardAppend(tableChanges, changes);
    ExecAllAppend(d, t, Forward(tableChanges), Forward(changes));
    TableCommentEffect(d, t, from.comment, to.comment);
    CommentsEffect(d, t.(comment := to.comment), CommentDiffs(from.columns, to.columns), x);
  }

  lemma DiffUndone(d: Dialect, t: Table, from: TableSpec, to: TableSpec)
    requires Distinct(t.columns) && t.comment == from.comment
    requires CommentsMatch(t.columns, CommentDiffs(from.columns, to.columns))
    ensures Undoes(d, t, DiffChanges(from, to))
  {
    TableCommentsUndone(d, t, to.comment);
    TableCommentEffect(d, t, from.comment, to.comment);
    CommentsUndone(d, t.(comment := to.comment), CommentDiffs(from.columns, to.columns));
    UndoesBoth(d, t, TableCommentChanges(from.comment, to.comment),
      CommentChanges(CommentDiffs(from.columns, to.columns)));
  }

  lemma {:induction false} CommentsKeepDefinition(comments: seq<CommentChange>, before: Option<Column>, x: string)
    requires before.Some?
    ensures CommentedLookup(comments, before, x).Some?
    ensures CommentedLookup(comments, before, x).value.definition == before.value.definition
    decreases |comments|
  {
    if comments != [] {
      CommentsKeepDefinition(comments[..|comments| - 1], before, x);
    }
  }

  /** The comment part sets the comment of a column where the specifications differ, and of no other. */
  lemma CommentDiffAt(from: seq<ColumnSpec>, to: seq<ColumnSpec>, k: nat, before: Option<Column>)
    requires DistinctSpecs(from) && DistinctSpecs(to) && k < |to| && before.Some?
    ensures var after := CommentedLookup(CommentDiffs(from, to), before, to[k].name);
            after.Some?
            && after.value.definition == before.value.definition
            && after.value.comment == if CommentDiffers(from, to[k]) then to[k].comment else before.value.comment
  {
    hide CommentDiffers;
    CommentsKeepDefinition(CommentDiffs(from, to), before, to[k].name);
    var diffs := CommentDiffs(from, to);
    DiffNamesDistinct(from, to);
    CommentedFacts(diffs, before, to[k].name);
    CommentedPresence(diffs, before, to[k].name);
    forall i | 0 <= i < |diffs| && diffs[i].name == to[k].name
      ensures CommentDiffers(from, to[k]) && diffs[i].after == to[k].comment
    {
      DiffIsOf(from, to, i, k);
    }
    if CommentDiffers(from, to[k]) {
      DiffNames(from, to);
    }
  }
}
