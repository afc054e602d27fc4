/** What a rollback list does on its own, on any table: how many columns it takes, and what it determines. */
module AlterUndo {
  import opened Wrappers
  import opened AlterTable
  import opened AlterPlan
  import opened CommentDiff

  // ---------- how many columns ----------

  lemma {:induction false} RenamesBalance(renames: seq<Rename>)
    ensures Balanced(RenameChanges(renames))
    decreases |renames|
  {
    if renames != [] {
      RenamesBalance(renames[..|renames| - 1]);
    }
  }

  lemma {:induction false} AddsBalance(added: seq<NewColumn>)
    ensures Balanced(AddChanges(added))
    decreases |added|
  {
    if added != [] {
      AddsBalance(added[..|added| - 1]);
      var c := added[|added| - 1];
      assert Balance([DropColumn(c.name)]) == -1;
      OneAdded(c.name, c.definition, c.comment);
    }
  }

  lemma OneAdded(name: string, definition: string, comment: string)
    ensures Balance(AddWithComment(name, definition, comment)) == 1
  {
    var add := [AddColumn(name, definition)];
    assert Balance(add) == 1 && Balance([CommentOnColumn(name, comment)]) == 0;
    assert add + [CommentOnColumn(name, comment)] == [AddColumn(name, definition), CommentOnColumn(name, comment)];
    BalanceAppend(add, [CommentOnColumn(name, comment)]);
  }

  lemma {:induction false} CommentsBalance(comments: seq<CommentChange>)
    ensures Balanced(CommentChanges(comments))
    decreases |comments|
  {
    if comments != [] {
      CommentsBalance(comments[..|comments| - 1]);
    }
  }

  lemma {:induction false} RenamesCountNothing(renames: seq<Rename>)
    ensures Balance(Forward(RenameChanges(renames))) == 0
    decreases |renames|
  {
    if renames != [] {
      var r, front := renames[|renames| - 1], renames[..|renames| - 1];
      RenamesCountNothing(front);
      BalanceAppend(Forward(RenameChanges(front)), [RenameColumn(r.oldName, r.newName)]);
    }
  }

  lemma {:induction false} AddsCount(added: seq<NewColumn>)
    ensures Balance(Forward(AddChanges(added))) == |added|
    decreases |added|
  {
    if added != [] {
      var c, front := added[|added| - 1], added[..|added| - 1];
      AddsCount(front);
      OneAdded(c.name, c.definition, c.comment);
      BalanceAppend(Forward(AddChanges(front)), AddWithComment(c.name, c.definition, c.comment));
    }
  }

  lemma {:induction false} CommentsCountNothing(comments: seq<CommentChange>)
    ensures Balance(Forward(CommentChanges(comments))) == 0
    decreases |comments|
  {
    if comments != [] {
      var c, front := comments[|comments| - 1], comments[..|comments| - 1];
      CommentsCountNothing(front);
      BalanceAppend(Forward(CommentChanges(front)), [CommentOnColumn(c.name, c.after)]);
    }
  }

  lemma DiffBalance(from: TableSpec, to: TableSpec)
    ensures Balance(Forward(DiffChanges(from, to))) == 0
  {
    var tableChanges, changes := TableCommentChanges(from.comment, to.comment),
      CommentChanges(CommentDiffs(from.columns, to.columns));
    ForwardAppend(tableChanges, changes);
    CommentsCountNothing(CommentDiffs(from.columns, to.columns));
    if tableChanges != [] {
      OneChange(tableChanges[0]);
    }
    BalanceAppend(Forward(tableChanges), Forward(changes));
  }

  // ---------- what it determines ----------

  /** Undoing renames loses nothing: the renames lead back to the table it was run on. */
  lemma {:induction false} RenamesUndoDetermines(d: Dialect, t: Table, renames: seq<Rename>)
    requires Distinct(t.columns) && forall i :: 0 <= i < |renames| ==> renames[i].newName != ""
    requires ExecAll(d, t, Rollback(RenameChanges(renames))).Some?
    ensures var before := ExecAll(d, t, Rollback(RenameChanges(renames))).value;
            ExecAll(d, before, Forward(RenameChanges(renames))) == Some(t)
    decreases |renames|
  {
    if renames != [] {
      var r, front := renames[|renames| - 1], renames[..|renames| - 1];
      var back, forth := RenameColumn(r.newName, r.oldName), RenameColumn(r.oldName, r.newName);
      assert r == renames[|renames| - 1];
      ExecAllAppend(d, t, [back], Rollback(RenameChanges(front)));
      ExecOne(d, t, back);
      var mid := Exec(d, t, back).value;
      ExecLookup(d, t, back, "");
      RenamesUndoDetermines(d, mid, front);
      RenameUndone(d, t, r.newName, r.oldName);
      OneChange(Change([back], [forth]));
      ExecAllAppend(d, ExecAll(d, mid, Rollback(RenameChanges(front))).value, Forward(RenameChanges(front)), [forth]);
    }
  }

  /** Undoing additions leaves every other column as it is. */
  lemma {:induction false} AddsUndoLookup(d: Dialect, t: Table, added: seq<NewColumn>, x: string)
    requires Distinct(t.columns) && ExecAll(d, t, Rollback(AddChanges(added))).Some?
    ensures var t' := ExecAll(d, t, Rollback(AddChanges(added))).value;
            Distinct(t'.columns) && (!IsAdded(added, x) ==> Lookup(t'.columns, x) == Lookup(t.columns, x))
    decreases |added|
  {
    if added != [] {
      var c, front := added[|added| - 1], added[..|added| - 1];
      var drop := DropColumn(c.name);
      assert c == added[|added| - 1];
      assert forall i :: 0 <= i < |front| ==> front[i] == added[i];
      ExecAllAppend(d, t, [drop], Rollback(AddChanges(front)));
      ExecOne(d, t, drop);
      ExecLookup(d, t, drop, x);
      AddsUndoLookup(d, Exec(d, t, drop).value, front, x);
    }
  }

  /** Undoing comment changes sets the comments from before, whatever was there, and no other. */
  lemma {:induction false} CommentsUndoSets(d: Dialect, t: Table, comments: seq<CommentChange>, x: string)
    requires Distinct(t.columns) && ExecAll(d, t, Rollback(CommentChanges(comments))).Some?
    requires forall i, j :: 0 <= i < j < |comments| ==> comments[i].name != comments[j].name
    ensures var t' := ExecAll(d, t, Rollback(CommentChanges(comments))).value;
            && Distinct(t'.columns)
            && (forall i :: 0 <= i < |comments| && comments[i].name == x ==>
                  Lookup(t'.columns, x).Some? && Lookup(t'.columns, x).value.comment == comments[i].before)
            && (!ChangesComment(comments, x) ==> Lookup(t'.columns, x) == Lookup(t.columns, x))
    decreases |comments|
  {
    if comments != [] {
      var c, front := comments[|comments| - 1], comments[..|comments| - 1];
      var undo := CommentOnColumn(c.name, c.before);
      assert c == comments[|comments| - 1];
      assert forall i :: 0 <= i < |front| ==> front[i] == comments[i];
      ExecAllAppend(d, t, [undo], Rollback(CommentChanges(front)));
      ExecOne(d, t, undo);
      ExecLookup(d, t, undo, x);
      CommentsUndoSets(d, Exec(d, t, undo).value, front, x);
      assert c.name == x ==> !ChangesComment(front, x);
    }
  }

  lemma DiffUndoSets(d: Dialect, t: Table, from: TableSpec, to: TableSpec, i: nat)
    requires Distinct(t.columns) && ExecAll(d, t, Rollback(DiffChanges(from, to))).Some?
    requires DistinctSpecs(from.columns) && DistinctSpecs(to.columns) && i < |CommentDiffs(from.columns, to.columns)|
    ensures var t' := ExecAll(d, t, Rollback(DiffChanges(from, to))).value;
            var c := CommentDiffs(from.columns, to.columns)[i];
            && Distinct(t'.columns) && Lookup(t'.columns, c.name).Some?
            && Lookup(t'.columns, c.name).value.comment == c.before
  {
    var changes, tableChanges := CommentChanges(CommentDiffs(from.columns, to.columns)),
      TableCommentChanges(from.comment, to.comment);
    RollbackAppend(tableChanges, changes);
    ExecAllAppend(d, t, Rollback(changes), Rollback(tableChanges));
    DiffNamesDistinct(from.columns, to.columns);
    CommentsUndoSets(d, t, CommentDiffs(from.columns, to.columns), CommentDiffs(from.columns, to.columns)[i].name);
    TableUndoKeepsColumns(d, ExecAll(d, t, Rollback(changes)).value, from.comment, to.comment);
  }

  lemma TableUndoKeepsColumns(d: Dialect, t: Table, before: string, after: string)
    ensures var t' := ExecAll(d, t, Rollback(TableCommentChanges(before, after)));
            t'.Some? && t'.value.columns == t.columns
  {
    if before != after {
      OneChange(Change([CommentOnTable(after)], [CommentOnTable(before)]));
      ExecOne(d, t, CommentOnTable(before));
    }
  }
}
