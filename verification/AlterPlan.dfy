/**
 * What the four parts of an ALTER plan do to a table: for each part, the column behind every name afterwards,
 * and when the whole part is legal.
 */
module AlterPlan {
  import opened Wrappers
  import opened Text
  import opened AlterTable

  datatype NewColumn = NewColumn(name: string, definition: string, comment: string)

  datatype CommentChange = CommentChange(name: string, before: string, after: string)

  function RenameChanges(renames: seq<Rename>): seq<Change>
    decreases |renames|
  {
    if renames == [] then []
    else
      var r := renames[|renames| - 1];
      RenameChanges(renames[..|renames| - 1])
      + [Change([RenameColumn(r.oldName, r.newName)], [RenameColumn(r.newName, r.oldName)])]
  }

  function AddChanges(added: seq<NewColumn>): seq<Change>
    decreases |added|
  {
    if added == [] then []
    else
      var c := added[|added| - 1];
      AddChanges(added[..|added| - 1]) + [Change(AddWithComment(c.name, c.definition, c.comment), [DropColumn(c.name)])]
  }

  function DropStatements(drops: seq<string>): seq<Statement>
    decreases |drops|
  {
    if drops == [] then [] else DropStatements(drops[..|drops| - 1]) + [DropColumn(drops[|drops| - 1])]
  }

  function TableCommentChanges(before: string, after: string): seq<Change> {
    if before == after then [] else [Change([CommentOnTable(after)], [CommentOnTable(before)])]
  }

  function CommentChanges(comments: seq<CommentChange>): seq<Change>
    decreases |comments|
  {
    if comments == [] then []
    else
      var c := comments[|comments| - 1];
      CommentChanges(comments[..|comments| - 1])
      + [Change([CommentOnColumn(c.name, c.after)], [CommentOnColumn(c.name, c.before)])]
  }

  // ---------- the column behind a name ----------

  function RenamedTo(c: Option<Column>, name: string): Option<Column> {
    match c case None => None case Some(col) => Some(col.(name := name))
  }

  /** The name a column had before the renames. */
  function Origin(renames: seq<Rename>, x: string): Option<string>
    decreases |renames|
  {
    if renames == [] then Some(x)
    else
      var r, front := renames[|renames| - 1], renames[..|renames| - 1];
      if x == r.newName then Origin(front, r.oldName)
      else if x == r.oldName then None
      else Origin(front, x)
  }

  function RenamedLookup(columns: seq<Column>, renames: seq<Rename>, x: string): Option<Column> {
    match Origin(renames, x)
    case None => None
    case Some(y) => RenamedTo(Lookup(columns, y), x)
  }

  function AddedLookup(added: seq<NewColumn>, before: Option<Column>, x: string): Option<Column>
    decreases |added|
  {
    if added == [] then before
    else
      var c := added[|added| - 1];
      if c.name == x then Some(Column(x, c.definition, AddedComment(c.comment)))
      else AddedLookup(added[..|added| - 1], before, x)
  }

  function CommentedLookup(comments: seq<CommentChange>, before: Option<Column>, x: string): Option<Column>
    decreases |comments|
  {
    if comments == [] then before
    else
      var c := comments[|comments| - 1];
      var rest := CommentedLookup(comments[..|comments| - 1], before, x);
      if c.name == x && rest.Some? then Some(rest.value.(comment := c.after)) else rest
  }

  // ---------- the parts one by one ----------

  lemma LookupName(columns: seq<Column>, x: string)
    ensures Lookup(columns, x).Some? ==> Lookup(columns, x).value.name == x
  {
  }

  lemma {:induction false} RenamesEffect(d: Dialect, t: Table, renames: seq<Rename>, x: string)
    requires Distinct(t.columns) && ExecAll(d, t, Forward(RenameChanges(renames))).Some?
    ensures var t' := ExecAll(d, t, Forward(RenameChanges(renames))).value;
            Distinct(t'.columns) && t'.comment == t.comment
            && Lookup(t'.columns, x) == RenamedLookup(t.columns, renames, x)
    decreases |renames|
  {
    hide ExecAll, Lookup, Distinct;
    LookupName(t.columns, x);
    if renames == [] {
      NothingToRename(d, t);
    } else {
      var r, front := renames[|renames| - 1], renames[..|renames| - 1];
      var s := RenameColumn(r.oldName, r.newName);
      ExecLast(d, t, Forward(RenameChanges(front)), s);
      var mid := ExecAll(d, t, Forward(RenameChanges(front))).value;
      RenamesEffect(d, t, front, x);
      RenamesEffect(d, t, front, r.oldName);
      ExecLookup(d, mid, s, x);
      FoundOnExec(d, mid, r);
    }
  }

  lemma NothingToRename(d: Dialect, t: Table)
    ensures ExecAll(d, t, Forward(RenameChanges([]))) == Some(t)
  {
  }

  lemma FoundOnExec(d: Dialect, t: Table, r: Rename)
    requires Exec(d, t, RenameColumn(r.oldName, r.newName)).Some?
    ensures Lookup(t.columns, r.oldName).Some?
    ensures Exec(d, t, RenameColumn(r.oldName, r.newName)).value.comment == t.comment
  {
  }

  /** A rename leaves its column where it is. */
  lemma {:induction false} RenamesKeepPlaces(d: Dialect, t: Table, renames: seq<Rename>, x: string)
    requires Distinct(t.columns) && ExecAll(d, t, Forward(RenameChanges(renames))).Some?
    ensures var t' := ExecAll(d, t, Forward(RenameChanges(renames))).value;
            && |t'.columns| == |t.columns|
            && (Lookup(t'.columns, x).Some? ==>
                  && Origin(renames, x).Some?
                  && Index(t'.columns, x) == Index(t.columns, Origin(renames, x).value))
    decreases |renames|
  {
    if renames != [] {
      var r, front := renames[|renames| - 1], renames[..|renames| - 1];
      var s := RenameColumn(r.oldName, r.newName);
      ExecLast(d, t, Forward(RenameChanges(front)), s);
      var mid := ExecAll(d, t, Forward(RenameChanges(front))).value;
      RenamesEffect(d, t, front, "");
      RenamesKeepPlaces(d, t, front, r.oldName);
      RenamesKeepPlaces(d, t, front, x);
      OneKeepsPlace(d, mid, r, x);
    }
  }

  lemma OneKeepsPlace(d: Dialect, t: Table, r: Rename, x: string)
    requires Distinct(t.columns) && Exec(d, t, RenameColumn(r.oldName, r.newName)).Some?
    ensures var t' := Exec(d, t, RenameColumn(r.oldName, r.newName)).value;
            && |t'.columns| == |t.columns|
            && (Lookup(t'.columns, x).Some? ==>
                  && (x == r.newName || (x != r.oldName && Lookup(t.columns, x).Some?))
                  && Index(t'.columns, x) == Index(t.columns, if x == r.newName then r.oldName else x))
  {
    var s := RenameColumn(r.oldName, r.newName);
    var t' := Exec(d, t, s).value;
    ExecLookup(d, t, s, x);
    if Lookup(t'.columns, x).Some? {
      IndexIs(t'.columns, Index(t.columns, if x == r.newName then r.oldName else x));
    }
  }

  lemma {:induction false} AddsEffect(d: Dialect, t: Table, added: seq<NewColumn>, x: string)
    requires Distinct(t.columns) && ExecAll(d, t, Forward(AddChanges(added))).Some?
    ensures var t' := ExecAll(d, t, Forward(AddChanges(added))).value;
            Distinct(t'.columns) && t'.comment == t.comment
            && Lookup(t'.columns, x) == AddedLookup(added, Lookup(t.columns, x), x)
    decreases |added|
  {
    if added != [] {
      var c, front := added[|added| - 1], added[..|added| - 1];
      var last := AddWithComment(c.name, c.definition, c.comment);
      ExecAllAppend(d, t, Forward(AddChanges(front)), last);
      var mid := ExecAll(d, t, Forward(AddChanges(front))).value;
      AddsEffect(d, t, front, x);
      AddOneEffect(d, mid, c, x);
    }
  }

  lemma AddOneEffect(d: Dialect, t: Table, c: NewColumn, x: string)
    requires Distinct(t.columns)
    ensures ExecAll(d, t, AddWithComment(c.name, c.definition, c.comment)).Some?
            <==> Legal(d, t, AddColumn(c.name, c.definition))
    ensures Legal(d, t, AddColumn(c.name, c.definition)) ==>
              var t' := ExecAll(d, t, AddWithComment(c.name, c.definition, c.comment)).value;
              Distinct(t'.columns) && t'.comment == t.comment
              && Lookup(t'.columns, x) ==
                 (if c.name == x then Some(Column(x, c.definition, AddedComment(c.comment))) else Lookup(t.columns, x))
  {
    var add, comment := AddColumn(c.name, c.definition), CommentOnColumn(c.name, c.comment);
    ExecOne(d, t, add);
    ExecLast(d, t, [add], comment);
    assert [add] + [comment] == [add, comment];
    if Legal(d, t, add) {
      var t1 := Exec(d, t, add).value;
      ExecLookup(d, t, add, x);
      ExecLookup(d, t, add, c.name);
      if !IsBlank(c.comment) {
        ExecLookup(d, t1, comment, x);
      }
    }
  }

  lemma {:induction false} DropsEffect(d: Dialect, t: Table, drops: seq<string>, x: string)
    requires Distinct(t.columns) && ExecAll(d, t, DropStatements(drops)).Some?
    ensures var t' := ExecAll(d, t, DropStatements(drops)).value;
            Distinct(t'.columns) && t'.comment == t.comment
            && Lookup(t'.columns, x) == if x in drops then None else Lookup(t.columns, x)
    decreases |drops|
  {
    if drops != [] {
      var name, front := drops[|drops| - 1], drops[..|drops| - 1];
      ExecLast(d, t, DropStatements(front), DropColumn(name));
      DropsEffect(d, t, front, x);
      ExecLookup(d, ExecAll(d, t, DropStatements(front)).value, DropColumn(name), x);
      assert drops == front + [name];
    }
  }

  lemma {:induction false} CommentsEffect(d: Dialect, t: Table, comments: seq<CommentChange>, x: string)
    requires Distinct(t.columns) && ExecAll(d, t, Forward(CommentChanges(comments))).Some?
    ensures var t' := ExecAll(d, t, Forward(CommentChanges(comments))).value;
            Distinct(t'.columns) && t'.comment == t.comment
            && Lookup(t'.columns, x) == CommentedLookup(comments, Lookup(t.columns, x), x)
    decreases |comments|
  {
    if comments != [] {
      var c, front := comments[|comments| - 1], comments[..|comments| - 1];
      var s := CommentOnColumn(c.name, c.after);
      ExecLast(d, t, Forward(CommentChanges(front)), s);
      CommentsEffect(d, t, front, x);
      ExecLookup(d, ExecAll(d, t, Forward(CommentChanges(front))).value, s, x);
    }
  }

  lemma TableCommentEffect(d: Dialect, t: Table, before: string, after: string)
    requires t.comment == before
    ensures ExecAll(d, t, Forward(TableCommentChanges(before, after))) == Some(t.(comment := after))
  {
    if before != after {
      var changes := TableCommentChanges(before, after);
      assert changes[..0] == [] && Forward([]) == [];
      assert Forward(changes) == [CommentOnTable(after)];
      ExecOne(d, t, CommentOnTable(after));
    }
  }

  // ---------- when a part is legal ----------

  ghost predicate FreshColumns(columns: seq<Column>, added: seq<NewColumn>) {
    && (forall i, j :: 0 <= i < j < |added| ==> added[i].name != added[j].name)
    && (forall i :: 0 <= i < |added| ==> added[i].name != "" && Lookup(columns, added[i].name).None?)
  }

  lemma {:induction false} AddedFacts(added: seq<NewColumn>, before: Option<Column>, x: string)
    requires forall i, j :: 0 <= i < j < |added| ==> added[i].name != added[j].name
    ensures forall i :: 0 <= i < |added| && added[i].name == x ==>
              AddedLookup(added, before, x) == Some(Column(x, added[i].definition, AddedComment(added[i].comment)))
    ensures (forall i :: 0 <= i < |added| ==> added[i].name != x) ==> AddedLookup(added, before, x) == before
    decreases |added|
  {
    if added != [] {
      var front := added[..|added| - 1];
      assert forall i :: 0 <= i < |front| ==> front[i] == added[i];
      AddedFacts(front, before, x);
    }
  }

  lemma {:induction false} AddsLegal(d: Dialect, t: Table, added: seq<NewColumn>)
    requires Distinct(t.columns) && FreshColumns(t.columns, added)
    ensures ExecAll(d, t, Forward(AddChanges(added))).Some?
    decreases |added|
  {
    if added != [] {
      var c, front := added[|added| - 1], added[..|added| - 1];
      assert forall i :: 0 <= i < |front| ==> front[i] == added[i];
      assert c == added[|added| - 1];
      AddsLegal(d, t, front);
      ExecAllAppend(d, t, Forward(AddChanges(front)), AddWithComment(c.name, c.definition, c.comment));
      AddsEffect(d, t, front, c.name);
      AddedFacts(front, Lookup(t.columns, c.name), c.name);
      AddOneEffect(d, ExecAll(d, t, Forward(AddChanges(front))).value, c, c.name);
    }
  }

  lemma {:induction false} DropsBalance(drops: seq<string>)
    ensures Balance(DropStatements(drops)) == -|drops|
    decreases |drops|
  {
    if drops != [] {
      var last := [DropColumn(drops[|drops| - 1])];
      assert Balance(last) == -1;
      DropsBalance(drops[..|drops| - 1]);
      BalanceAppend(DropStatements(drops[..|drops| - 1]), last);
    }
  }

  predicate AllThere(columns: seq<Column>, names: seq<string>) {
    forall i :: 0 <= i < |names| ==> Lookup(columns, names[i]).Some?
  }

  /** Drops of distinct columns are accepted exactly when each is there and, in DuckDB, a column stays behind them. */
  lemma {:induction false} DropsRunIff(d: Dialect, t: Table, drops: seq<string>)
    requires Distinct(t.columns) && forall i, j :: 0 <= i < j < |drops| ==> drops[i] != drops[j]
    ensures ExecAll(d, t, DropStatements(drops)).Some?
      <==> AllThere(t.columns, drops) && (d.DuckDb? && drops != [] ==> |drops| < |t.columns|)
    decreases |drops|
  {
    if drops != [] {
      var name, front := drops[|drops| - 1], drops[..|drops| - 1];
      assert forall i :: 0 <= i < |front| ==> front[i] == drops[i];
      assert AllThere(t.columns, drops) <==> AllThere(t.columns, front) && Lookup(t.columns, name).Some? by {
        assert forall i :: 0 <= i < |drops| ==> drops[i] == if i < |front| then front[i] else name;
      }
      DropsRunIff(d, t, front);
      ExecLast(d, t, DropStatements(front), DropColumn(name));
      assert name !in front;
      if ExecAll(d, t, DropStatements(front)).Some? {
        DropsEffect(d, t, front, name);
        ExecCounts(d, t, DropStatements(front));
        DropsBalance(front);
      }
    }
  }

  /** Every column whose comment is to change is in the table. */
  ghost predicate AllPresent(columns: seq<Column>, comments: seq<CommentChange>) {
    forall i :: 0 <= i < |comments| ==> Lookup(columns, comments[i].name).Some?
  }

  lemma {:induction false} CommentsLegal(d: Dialect, t: Table, comments: seq<CommentChange>)
    requires Distinct(t.columns)
    ensures ExecAll(d, t, Forward(CommentChanges(comments))).Some?
            <==> AllPresent(t.columns, comments)
    decreases |comments|
  {
    if comments != [] {
      var c, front := comments[|comments| - 1], comments[..|comments| - 1];
      assert forall i :: 0 <= i < |front| ==> front[i] == comments[i];
      assert AllPresent(t.columns, comments) <==> AllPresent(t.columns, front) && Lookup(t.columns, c.name).Some? by {
        assert forall i :: 0 <= i < |comments| ==> comments[i] == if i < |front| then front[i] else c;
      }
      hide AllPresent, ExecAll, Distinct, Lookup;
      CommentsLegal(d, t, front);
      ExecLast(d, t, Forward(CommentChanges(front)), CommentOnColumn(c.name, c.after));
      if ExecAll(d, t, Forward(CommentChanges(front))).Some? {
        CommentsEffect(d, t, front, c.name);
        CommentedPresence(front, Lookup(t.columns, c.name), c.name);
      }
    }
  }

  lemma {:induction false} CommentedPresence(comments: seq<CommentChange>, before: Option<Column>, x: string)
    ensures CommentedLookup(comments, before, x).Some? <==> before.Some?
    decreases |comments|
  {
    if comments != [] {
      CommentedPresence(comments[..|comments| - 1], before, x);
    }
  }

  lemma {:induction false} CommentedFacts(comments: seq<CommentChange>, before: Option<Column>, x: string)
    requires forall i, j :: 0 <= i < j < |comments| ==> comments[i].name != comments[j].name
    requires before.Some?
    ensures forall i :: 0 <= i < |comments| && comments[i].name == x ==>
              CommentedLookup(comments, before, x) == Some(before.value.(comment := comments[i].after))
    ensures (forall i :: 0 <= i < |comments| ==> comments[i].name != x) ==>
      CommentedLookup(comments, before, x) == before
    decreases |comments|
  {
    if comments != [] {
      var front := comments[..|comments| - 1];
      assert forall i :: 0 <= i < |front| ==> front[i] == comments[i];
      CommentedFacts(front, before, x);
    }
  }

  // ---------- renames and added columns together ----------

  predicate IsSource(renames: seq<Rename>, x: string) {
    exists i :: 0 <= i < |renames| && renames[i].oldName == x
  }

  predicate IsTarget(renames: seq<Rename>, x: string) {
    exists i :: 0 <= i < |renames| && renames[i].newName == x
  }

  predicate IsAdded(added: seq<NewColumn>, x: string) {
    exists i :: 0 <= i < |added| && added[i].name == x
  }

  function OpeningStatements(renames: seq<Rename>, added: seq<NewColumn>): seq<Statement> {
    Forward(RenameChanges(renames)) + Forward(AddChanges(added))
  }

  // ---------- undoing the parts ----------

  lemma {:induction false} RenamesUndone(d: Dialect, t: Table, renames: seq<Rename>)
    requires Distinct(t.columns) && forall i :: 0 <= i < |renames| ==> renames[i].oldName != ""
    ensures Undoes(d, t, RenameChanges(renames))
    decreases |renames|
  {
    if renames != [] {
      var r, front := renames[|renames| - 1], renames[..|renames| - 1];
      RenamesUndone(d, t, front);
      if ExecAll(d, t, Forward(RenameChanges(front))).Some? {
        RenamesEffect(d, t, front, "");
        RenameUndone(d, ExecAll(d, t, Forward(RenameChanges(front))).value, r.oldName, r.newName);
      }
      UndoesBoth(d, t, RenameChanges(front),
        [Change([RenameColumn(r.oldName, r.newName)], [RenameColumn(r.newName, r.oldName)])]);
    }
  }

  lemma {:induction false} AddsUndone(t: Table, added: seq<NewColumn>)
    requires Distinct(t.columns)
    ensures Undoes(OpenGauss, t, AddChanges(added))
    decreases |added|
  {
    if added != [] {
      var c, front := added[|added| - 1], added[..|added| - 1];
      AddsUndone(t, front);
      if ExecAll(OpenGauss, t, Forward(AddChanges(front))).Some? {
        AddsEffect(OpenGauss, t, front, "");
        AddUndone(ExecAll(OpenGauss, t, Forward(AddChanges(front))).value, c.name, c.definition, c.comment);
      }
      UndoesBoth(OpenGauss, t, AddChanges(front),
        [Change(AddWithComment(c.name, c.definition, c.comment), [DropColumn(c.name)])]);
    }
  }

  /** Each comment change starts from the comment the column really has. */
  ghost predicate CommentsMatch(columns: seq<Column>, comments: seq<CommentChange>) {
    && (forall i, j :: 0 <= i < j < |comments| ==> comments[i].name != comments[j].name)
    && (forall i :: 0 <= i < |comments| && Lookup(columns, comments[i].name).Some? ==>
          Lookup(columns, comments[i].name).value.comment == comments[i].before)
  }

  lemma {:induction false} CommentsUndone(d: Dialect, t: Table, comments: seq<CommentChange>)
    requires Distinct(t.columns) && CommentsMatch(t.columns, comments)
    ensures Undoes(d, t, CommentChanges(comments))
    decreases |comments|
  {
    if comments != [] {
      var c, front := comments[|comments| - 1], comments[..|comments| - 1];
      assert forall i :: 0 <= i < |front| ==> front[i] == comments[i];
      assert c == comments[|comments| - 1];
      CommentsUndone(d, t, front);
      if ExecAll(d, t, Forward(CommentChanges(front))).Some? {
        CommentsEffect(d, t, front, c.name);
        CommentedPresence(front, Lookup(t.columns, c.name), c.name);
        if Lookup(t.columns, c.name).Some? {
          CommentedFacts(front, Lookup(t.columns, c.name), c.name);
        }
        CommentUndone(d, ExecAll(d, t, Forward(CommentChanges(front))).value, c.name, c.before, c.after);
      }
      UndoesBoth(d, t, CommentChanges(front),
        [Change([CommentOnColumn(c.name, c.after)], [CommentOnColumn(c.name, c.before)])]);
    }
  }

  lemma TableCommentsUndone(d: Dialect, t: Table, after: string)
    ensures Undoes(d, t, TableCommentChanges(t.comment, after))
  {
    if t.comment != after {
      TableCommentUndone(d, t, after);
    }
  }
}
