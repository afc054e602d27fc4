/** The openGauss ALTER TABLE compiler, which also writes a rollback list. */
module OpenGaussDdl {
  import opened Wrappers
  import opened Text
  import opened AlterTable
  import opened AlterPlan
  import opened CommentDiff
  import opened AlterNames
  import opened AlterUndo

  datatype DdlError = TableNameRequired | ColumnNameRequired | ColumnTypeRequired(column: string)

  predicate IsEffective(r: Rename) {
    !IsBlank(r.oldName) && !IsBlank(r.newName)
  }

  function EffectiveRenames(renames: seq<Rename>): seq<Rename>
    decreases |renames|
  {
    if renames == [] then []
    else
      var rest := EffectiveRenames(renames[..|renames| - 1]);
      if IsEffective(renames[|renames| - 1]) then rest + [renames[|renames| - 1]] else rest
  }

  function Definition(c: ColumnSpec): Result<string, DdlError> {
    if IsBlank(c.name) then Err(ColumnNameRequired)
    else if IsBlank(c.typeStr) then Err(ColumnTypeRequired(c.name))
    else
      Ok(c.typeStr
         + (if c.autoIncrement then " GENERATED BY DEFAULT AS IDENTITY" else "")
         + (if c.nullable then "" else " NOT NULL")
         + (if c.defaultValue.Some? && !IsBlank(c.defaultValue.value) then " DEFAULT " + c.defaultValue.value else "")
         + (if c.isUnique && !c.isPrimary then " UNIQUE" else ""))
  }

  predicate IsNew(p: AlterParams, c: ColumnSpec) {
    !IsTarget(p.columnRenames, c.name) && !HasName(p.fromSpec.columns, c.name)
  }

  /** The columns to add, or the error of the first one whose definition is refused. */
  function NewColumns(p: AlterParams, columns: seq<ColumnSpec>): Result<seq<NewColumn>, DdlError>
    decreases |columns|
  {
    if columns == [] then Ok([])
    else
      var c := columns[|columns| - 1];
      match NewColumns(p, columns[..|columns| - 1])
      case Err(e) => Err(e)
      case Ok(list) =>
        if !IsNew(p, c) then Ok(list)
        else
          match Definition(c)
          case Err(e) => Err(e)
          case Ok(def) => Ok(list + [NewColumn(c.name, def, c.comment)])
  }

  function Dropped(to: seq<ColumnSpec>, from: seq<ColumnSpec>): seq<string>
    decreases |from|
  {
    if from == [] then []
    else
      var c, rest := from[|from| - 1], Dropped(to, from[..|from| - 1]);
      if HasName(to, c.name) then rest else rest + [c.name]
  }

  function DropList(p: AlterParams): seq<string> {
    if p.allowDestructive then Dropped(p.toSpec.columns, p.fromSpec.columns) else []
  }

  function DropWarnings(drops: seq<string>): seq<string>
    decreases |drops|
  {
    if drops == [] then []
    else DropWarnings(drops[..|drops| - 1]) + ["drop column may lose data: " + drops[|drops| - 1]]
  }

  function Altered(p: AlterParams, added: seq<NewColumn>): AlterResult {
    var renames := EffectiveRenames(p.columnRenames);
    AlterResult(
      OpeningStatements(renames, added) + DropStatements(DropList(p)) + Forward(DiffChanges(p.fromSpec, p.toSpec)),
      if p.withRollback then
        Rollback(DiffChanges(p.fromSpec, p.toSpec)) + (Rollback(AddChanges(added)) + Rollback(RenameChanges(renames)))
      else
        [],
      DropWarnings(DropList(p)))
  }

  /** The plan, or the error of the first new column that has no definition. */
  function Planned(p: AlterParams): Result<AlterResult, DdlError> {
    match NewColumns(p, p.toSpec.columns)
    case Err(e) => Err(e)
    case Ok(added) => Ok(Altered(p, added))
  }

  method BuildAlterTable(p: AlterParams) returns (r: Result<AlterResult, DdlError>)
    ensures IsBlank(p.toSpec.name) && IsBlank(p.fromSpec.name) ==> r == Err(TableNameRequired)
    ensures !(IsBlank(p.toSpec.name) && IsBlank(p.fromSpec.name)) ==> r == Planned(p)
  {
    var tableName := if IsBlank(p.toSpec.name) then p.fromSpec.name else p.toSpec.name;
    if IsBlank(tableName) {
      return Err(TableNameRequired);
    }
    var renames, undoRenames := RenameLoop(p);
    var error, adds, undoAdds := AddLoop(p);
    if error.Some? {
      return Err(error.value);
    }
    var drops, warnings := DropLoop(p);
    ghost var added := NewColumns(p, p.toSpec.columns).value;
    var statements := renames + adds + drops;
    var rollback := undoAdds + undoRenames;
    statements, rollback := DiffComments(statements, rollback, p.fromSpec, p.toSpec, p.withRollback);
    return Ok(AlterResult(statements, rollback, warnings));
  }

  method RenameLoop(p: AlterParams) returns (statements: seq<Statement>, rollback: seq<Statement>)
    ensures statements == Forward(RenameChanges(EffectiveRenames(p.columnRenames)))
    ensures rollback == if p.withRollback then Rollback(RenameChanges(EffectiveRenames(p.columnRenames))) else []
  {
    statements, rollback := [], [];
    ghost var undo: seq<Statement> := [];
    var i := 0;
    while i < |p.columnRenames|
      invariant 0 <= i <= |p.columnRenames|
      invariant statements == Forward(RenameChanges(EffectiveRenames(p.columnRenames[..i])))
      invariant undo == Rollback(RenameChanges(EffectiveRenames(p.columnRenames[..i])))
      invariant p.withRollback ==> rollback == undo
      invariant !p.withRollback ==> rollback == []
    {
      var r := p.columnRenames[i];
      RenamesGrow(p.columnRenames, i);
      if IsEffective(r) {
        statements := statements + [RenameColumn(r.oldName, r.newName)];
        undo := [RenameColumn(r.newName, r.oldName)] + undo;
        if p.withRollback {
          rollback := [RenameColumn(r.newName, r.oldName)] + rollback;
        }
      }
      i := i + 1;
    }
    assert p.columnRenames[..i] == p.columnRenames;
  }

  lemma RenamesGrow(renames: seq<Rename>, i: nat)
    requires i < |renames|
    ensures var before, r := RenameChanges(EffectiveRenames(renames[..i])), renames[i];
            var after := RenameChanges(EffectiveRenames(renames[..i + 1]));
            if IsEffective(r) then
              Forward(after) == Forward(before) + [RenameColumn(r.oldName, r.newName)]
              && Rollback(after) == [RenameColumn(r.newName, r.oldName)] + Rollback(before)
            else after == before
  {
    assert renames[..i + 1][..i] == renames[..i];
    var list, r := EffectiveRenames(renames[..i]), renames[i];
    var change := Change([RenameColumn(r.oldName, r.newName)], [RenameColumn(r.newName, r.oldName)]);
    assert (list + [r])[..|list|] == list;
    OneChange(change);
    ForwardAppend(RenameChanges(list), [change]);
    RollbackAppend(RenameChanges(list), [change]);
  }

  method AddLoop(p: AlterParams) returns (error: Option<DdlError>, statements: seq<Statement>, rollback: seq<Statement>)
    ensures NewColumns(p, p.toSpec.columns).Err? ==> error == Some(NewColumns(p, p.toSpec.columns).error)
    ensures NewColumns(p, p.toSpec.columns).Ok? ==>
              error == None && statements == Forward(AddChanges(NewColumns(p, p.toSpec.columns).value))
    ensures NewColumns(p, p.toSpec.columns).Ok? && p.withRollback ==>
              rollback == Rollback(AddChanges(NewColumns(p, p.toSpec.columns).value))
    ensures NewColumns(p, p.toSpec.columns).Ok? && !p.withRollback ==> rollback == []
  {
    error, statements, rollback := None, [], [];
    ghost var added: seq<NewColumn> := [];
    assert Forward(AddChanges(added)) == [] && Rollback(AddChanges(added)) == [];
    assert p.toSpec.columns[..0] == [] && NewColumns(p, []) == Ok([]);
    hide Forward, Rollback, AddChanges, Definition, IsNew, IsBlank, NewColumns;
    var i := 0;
    while i < |p.toSpec.columns|
      invariant 0 <= i <= |p.toSpec.columns| && error == None
      invariant NewColumns(p, p.toSpec.columns[..i]) == Ok(added)
      invariant statements == Forward(AddChanges(added))
      invariant p.withRollback ==> rollback == Rollback(AddChanges(added))
      invariant !p.withRollback ==> rollback == []
    {
      var c := p.toSpec.columns[i];
      NewColumnsGrow(p, i, added);
      hide *;
      if IsNew(p, c) {
        var def := Definition(c);
        if def.Err? {
          ErrorStays(p, p.toSpec.columns, i + 1, def.error);
          error := Some(def.error);
          return;
        }
        var column := NewColumn(c.name, def.value, c.comment);
        AddsGrow(added, column);
        added := added + [column];
        statements := statements + [AddColumn(c.name, def.value)];
        if p.withRollback {
          rollback := [DropColumn(c.name)] + rollback;
        }
        if !IsBlank(c.comment) {
          statements := statements + [CommentOnColumn(c.name, c.comment)];
        }
      }
      i := i + 1;
    }
    assert p.toSpec.columns[..i] == p.toSpec.columns;
  }

  function WithColumn(p: AlterParams, list: seq<NewColumn>, c: ColumnSpec): Result<seq<NewColumn>, DdlError> {
    if !IsNew(p, c) then Ok(list)
    else
      match Definition(c)
      case Err(e) => Err(e)
      case Ok(def) => Ok(list + [NewColumn(c.name, def, c.comment)])
  }

  lemma NewColumnsGrow(p: AlterParams, i: nat, list: seq<NewColumn>)
    requires i < |p.toSpec.columns| && NewColumns(p, p.toSpec.columns[..i]) == Ok(list)
    ensures NewColumns(p, p.toSpec.columns[..i + 1]) == WithColumn(p, list, p.toSpec.columns[i])
  {
    hide Definition, IsNew;
    assert p.toSpec.columns[..i + 1][..i] == p.toSpec.columns[..i];
  }

  lemma AddsGrow(added: seq<NewColumn>, c: NewColumn)
    ensures Forward(AddChanges(added + [c])) ==
            if IsBlank(c.comment) then Forward(AddChanges(added)) + [AddColumn(c.name, c.definition)]
            else Forward(AddChanges(added)) + [AddColumn(c.name, c.definition)] + [CommentOnColumn(c.name, c.comment)]
    ensures Rollback(AddChanges(added + [c])) == [DropColumn(c.name)] + Rollback(AddChanges(added))
  {
    assert (added + [c])[..|added|] == added;
    var change := Change(AddWithComment(c.name, c.definition, c.comment), [DropColumn(c.name)]);
    OneChange(change);
    ForwardAppend(AddChanges(added), [change]);
    RollbackAppend(AddChanges(added), [change]);
  }

  lemma {:induction false} ErrorStays(p: AlterParams, columns: seq<ColumnSpec>, k: nat, e: DdlError)
    requires k <= |columns| && NewColumns(p, columns[..k]) == Err(e)
    ensures NewColumns(p, columns) == Err(e)
    decreases |columns|
  {
    if k == |columns| {
      assert columns[..k] == columns;
    } else {
      assert columns[..|columns| - 1][..k] == columns[..k];
      ErrorStays(p, columns[..|columns| - 1], k, e);
    }
  }

  method DropLoop(p: AlterParams) returns (statements: seq<Statement>, warnings: seq<string>)
    ensures statements == DropStatements(DropList(p)) && warnings == DropWarnings(DropList(p))
  {
    statements, warnings := [], [];
    if p.allowDestructive {
      ghost var drops: seq<string> := [];
      var from := p.fromSpec.columns;
      var i := 0;
      while i < |from|
        invariant 0 <= i <= |from|
        invariant drops == Dropped(p.toSpec.columns, from[..i])
        invariant statements == DropStatements(drops) && warnings == DropWarnings(drops)
      {
        assert from[..i + 1][..i] == from[..i];
        if !HasName(p.toSpec.columns, from[i].name) {
          assert (drops + [from[i].name])[..|drops|] == drops;
          drops := drops + [from[i].name];
          statements := statements + [DropColumn(from[i].name)];
          warnings := warnings + ["drop column may lose data: " + from[i].name];
        }
        i := i + 1;
      }
      assert from[..i] == from;
    }
  }

  // ---------- what the lists hold ----------

  lemma {:induction false} NewColumnFacts(p: AlterParams, columns: seq<ColumnSpec>)
    requires NewColumns(p, columns).Ok? && DistinctSpecs(columns)
    ensures var added := NewColumns(p, columns).value;
            && (forall i, j :: 0 <= i < j < |added| ==> added[i].name != added[j].name)
            && (forall i :: 0 <= i < |added| ==>
                  && added[i].name != "" && HasName(columns, added[i].name)
                  && !IsTarget(p.columnRenames, added[i].name) && !HasName(p.fromSpec.columns, added[i].name))
    decreases |columns|
  {
    if columns != [] {
      var front, c := columns[..|columns| - 1], columns[|columns| - 1];
      LastIsAlone(columns);
      hide HasName, DistinctSpecs, IsTarget;
      NewColumnFacts(p, front);
      var rest := NewColumns(p, front).value;
      forall i | 0 <= i < |rest| ensures rest[i].name != c.name && HasName(columns, rest[i].name) {
        NamedSplit(columns, rest[i].name);
      }
      NamedSplit(columns, c.name);
      assert IsNew(p, c) ==> c.name != "";
    }
  }

  lemma {:induction false} DroppedFacts(to: seq<ColumnSpec>, from: seq<ColumnSpec>)
    requires DistinctSpecs(from)
    ensures var drops := Dropped(to, from);
            && (forall i, j :: 0 <= i < j < |drops| ==> drops[i] != drops[j])
            && (forall x :: x in drops <==> HasName(from, x) && !HasName(to, x))
    decreases |from|
  {
    if from != [] {
      var front, c := from[..|from| - 1], from[|from| - 1];
      assert forall i :: 0 <= i < |front| ==> front[i] == from[i];
      DroppedFacts(to, front);
      forall x
        ensures HasName(from, x) <==> HasName(front, x) || x == c.name
      {
        NamedSplit(from, x);
      }
      assert !HasName(front, c.name);
    }
  }

  lemma {:induction false} EffectiveTargets(renames: seq<Rename>, x: string)
    requires IsTarget(EffectiveRenames(renames), x)
    ensures IsTarget(renames, x)
    decreases |renames|
  {
    if renames != [] {
      var front, r := renames[..|renames| - 1], renames[|renames| - 1];
      var list := EffectiveRenames(front);
      var i :| 0 <= i < |EffectiveRenames(renames)| && EffectiveRenames(renames)[i].newName == x;
      if i < |list| {
        assert list[i].newName == x;
        EffectiveTargets(front, x);
        var k :| 0 <= k < |front| && front[k].newName == x;
        assert renames[k].newName == x;
      } else {
        assert renames[|renames| - 1].newName == x;
      }
    }
  }

  lemma {:induction false} EffectiveNames(renames: seq<Rename>)
    ensures forall i :: 0 <= i < |EffectiveRenames(renames)| ==>
              EffectiveRenames(renames)[i].oldName != "" && EffectiveRenames(renames)[i].newName != ""
    decreases |renames|
  {
    if renames != [] {
      EffectiveNames(renames[..|renames| - 1]);
    }
  }

  // ---------- the forward list ----------

  /** Specifications as a table has them: distinct column names. Nothing is asked of the renames. */
  ghost predicate WellFormed(p: AlterParams) {
    DistinctSpecs(p.fromSpec.columns) && DistinctSpecs(p.toSpec.columns)
  }

  /** A column of the old table that is to be dropped: the target does not list its name, and drops are allowed. */
  predicate Goes(p: AlterParams, name: string) {
    p.allowDestructive && HasName(p.fromSpec.columns, name) && !HasName(p.toSpec.columns, name)
  }

  predicate NothingGoes(p: AlterParams) {
    forall i :: 0 <= i < |p.fromSpec.columns| ==> !Goes(p, p.fromSpec.columns[i].name)
  }

  lemma DropListIs(p: AlterParams)
    requires DistinctSpecs(p.fromSpec.columns)
    ensures forall x :: x in DropList(p) <==> Goes(p, x)
    ensures DropList(p) == [] <==> NothingGoes(p)
  {
    var from := p.fromSpec.columns;
    DroppedFacts(p.toSpec.columns, from);
    hide Dropped;
    if DropList(p) != [] {
      assert DropList(p)[0] in DropList(p);
      var i :| 0 <= i < |from| && from[i].name == DropList(p)[0];
    }
    forall i | 0 <= i < |from| ensures Goes(p, from[i].name) ==> from[i].name in DropList(p) {
      assert HasName(from, from[i].name);
    }
  }

  /**
   * The renames run, and every name that a later statement mentions stands after them: the names to drop, and those
   * whose comment changes.
   */
  predicate NamesStand(p: AlterParams) {
    var renames, from, to := EffectiveRenames(p.columnRenames), p.fromSpec.columns, p.toSpec.columns;
    && RenamesRun(from, renames)
    && (forall i :: 0 <= i < |from| && Goes(p, from[i].name) ==> Stands(from, renames, from[i].name))
    && (forall k :: 0 <= k < |to| && CommentDiffers(from, to[k]) ==> Stands(from, renames, to[k].name))
  }

  lemma AddedAreNew(p: AlterParams, added: seq<NewColumn>)
    requires WellFormed(p) && NewColumns(p, p.toSpec.columns) == Ok(added)
    ensures NewTo(p.fromSpec.columns, EffectiveRenames(p.columnRenames), added)
  {
    NewColumnFacts(p, p.toSpec.columns);
    forall i | 0 <= i < |added| ensures !IsTarget(EffectiveRenames(p.columnRenames), added[i].name) {
      if IsTarget(EffectiveRenames(p.columnRenames), added[i].name) {
        EffectiveTargets(p.columnRenames, added[i].name);
      }
    }
  }

  /** After renames and additions, a name of the old table is there exactly when it stands. */
  lemma OldNameAfterOpening(p: AlterParams, t: Table, added: seq<NewColumn>, x: string)
    requires WellFormed(p) && Matches(t, p.fromSpec) && NewColumns(p, p.toSpec.columns) == Ok(added)
    requires RenamesRun(p.fromSpec.columns, EffectiveRenames(p.columnRenames))
    ensures ExecAll(OpenGauss, t, OpeningStatements(EffectiveRenames(p.columnRenames), added)).Some?
    ensures var renames, from := EffectiveRenames(p.columnRenames), p.fromSpec.columns;
            var t' := ExecAll(OpenGauss, t, OpeningStatements(renames, added)).value;
            && Distinct(t'.columns) && t'.comment == p.fromSpec.comment
            && (HasName(from, x) ==> (Lookup(t'.columns, x).Some? <==> Stands(from, renames, x)))
            && (Stands(from, renames, x) ==>
                  var y := Origin(renames, x).value;
                  LastNamed(from, y).Some? && Lookup(t'.columns, x).Some?
                  && Lookup(t'.columns, x).value.comment == LastNamed(from, y).value.comment)
  {
    AddedAreNew(p, added);
    OpeningEffect(OpenGauss, t, p.fromSpec, EffectiveRenames(p.columnRenames), added, x);
  }

  /** The drop part is accepted exactly when every name it drops stands. */
  lemma DropsAccepted(p: AlterParams, t: Table, added: seq<NewColumn>)
    requires WellFormed(p) && Matches(t, p.fromSpec) && NewColumns(p, p.toSpec.columns) == Ok(added)
    requires RenamesRun(p.fromSpec.columns, EffectiveRenames(p.columnRenames))
    ensures var renames, drops := EffectiveRenames(p.columnRenames), DropList(p);
            var opening := ExecAll(OpenGauss, t, OpeningStatements(renames, added));
            opening.Some? && (ExecAll(OpenGauss, opening.value, DropStatements(drops)).Some?
                              <==> forall i :: 0 <= i < |p.fromSpec.columns| && Goes(p, p.fromSpec.columns[i].name) ==>
                                     Stands(p.fromSpec.columns, renames, p.fromSpec.columns[i].name))
  {
    hide Matches, ExecAll, Stands, NewColumns;
    var renames, drops := EffectiveRenames(p.columnRenames), DropList(p);
    OldNameAfterOpening(p, t, added, "");
    var t1 := ExecAll(OpenGauss, t, OpeningStatements(renames, added)).value;
    DroppedFacts(p.toSpec.columns, p.fromSpec.columns);
    forall k | 0 <= k < |drops|
      ensures Lookup(t1.columns, drops[k]).Some? <==> Stands(p.fromSpec.columns, renames, drops[k])
    {
      assert drops[k] in drops;
      OldNameAfterOpening(p, t, added, drops[k]);
    }
    DropsRunIff(OpenGauss, t1, drops);
    DropsStandIff(p);
  }

  lemma DropsStandIff(p: AlterParams)
    requires DistinctSpecs(p.fromSpec.columns)
    ensures var renames, from, drops := EffectiveRenames(p.columnRenames), p.fromSpec.columns, DropList(p);
            (forall k :: 0 <= k < |drops| ==> Stands(from, renames, drops[k]))
            <==> forall i :: 0 <= i < |from| && Goes(p, from[i].name) ==> Stands(from, renames, from[i].name)
  {
    hide Stands, DropList;
    var renames, from, drops := EffectiveRenames(p.columnRenames), p.fromSpec.columns, DropList(p);
    DropListIs(p);
    if forall i :: 0 <= i < |from| && Goes(p, from[i].name) ==> Stands(from, renames, from[i].name) {
      forall k | 0 <= k < |drops| ensures Stands(from, renames, drops[k]) {
        assert drops[k] in drops;
        var i :| 0 <= i < |from| && from[i].name == drops[k];
      }
    }
    if forall k :: 0 <= k < |drops| ==> Stands(from, renames, drops[k]) {
      forall i | 0 <= i < |from| && Goes(p, from[i].name) ensures Stands(from, renames, from[i].name) {
        var k :| 0 <= k < |drops| && drops[k] == from[i].name;
      }
    }
  }

  /** The comment part, after the drops, is accepted exactly when every name whose comment it changes stands. */
  lemma CommentsAccepted(p: AlterParams, t: Table, added: seq<NewColumn>, t2: Table)
    requires WellFormed(p) && Matches(t, p.fromSpec) && NewColumns(p, p.toSpec.columns) == Ok(added)
    requires RenamesRun(p.fromSpec.columns, EffectiveRenames(p.columnRenames))
    requires var opening := ExecAll(OpenGauss, t, OpeningStatements(EffectiveRenames(p.columnRenames), added));
             opening.Some? && ExecAll(OpenGauss, opening.value, DropStatements(DropList(p))) == Some(t2)
    ensures ExecAll(OpenGauss, t2, Forward(DiffChanges(p.fromSpec, p.toSpec))).Some? <==>
            forall k :: 0 <= k < |p.toSpec.columns| && CommentDiffers(p.fromSpec.columns, p.toSpec.columns[k]) ==>
              Stands(p.fromSpec.columns, EffectiveRenames(p.columnRenames), p.toSpec.columns[k].name)
  {
    hide Matches, ExecAll, Stands, NewColumns, CommentDiffers, CommentDiffs, DropList;
    var renames, from, to := EffectiveRenames(p.columnRenames), p.fromSpec.columns, p.toSpec.columns;
    var diffs := CommentDiffs(from, to);
    OldNameAfterOpening(p, t, added, "");
    DropsEffect(OpenGauss, ExecAll(OpenGauss, t, OpeningStatements(renames, added)).value, DropList(p), "");
    DiffLegal(OpenGauss, t2, p.fromSpec, p.toSpec);
    forall i | 0 <= i < |diffs|
      ensures Lookup(t2.columns, diffs[i].name).Some? <==> Stands(from, renames, diffs[i].name)
    {
      ChangedColumnAfterDrops(p, t, added, t2, i);
    }
    DiffNames(from, to);
  }

  lemma ChangedColumnAfterDrops(p: AlterParams, t: Table, added: seq<NewColumn>, t2: Table, i: nat)
    requires WellFormed(p) && Matches(t, p.fromSpec) && NewColumns(p, p.toSpec.columns) == Ok(added)
    requires RenamesRun(p.fromSpec.columns, EffectiveRenames(p.columnRenames))
    requires var opening := ExecAll(OpenGauss, t, OpeningStatements(EffectiveRenames(p.columnRenames), added));
             opening.Some? && ExecAll(OpenGauss, opening.value, DropStatements(DropList(p))) == Some(t2)
    requires i < |CommentDiffs(p.fromSpec.columns, p.toSpec.columns)|
    ensures var x := CommentDiffs(p.fromSpec.columns, p.toSpec.columns)[i].name;
            Lookup(t2.columns, x).Some? <==> Stands(p.fromSpec.columns, EffectiveRenames(p.columnRenames), x)
  {
    hide ExecAll, Stands, NewColumns;
    var x := CommentDiffs(p.fromSpec.columns, p.toSpec.columns)[i].name;
    DiffEntry(p.fromSpec.columns, p.toSpec.columns, i);
    OldNameAfterOpening(p, t, added, x);
    DroppedFacts(p.toSpec.columns, p.fromSpec.columns);
    DropsEffect(OpenGauss, ExecAll(OpenGauss, t, OpeningStatements(EffectiveRenames(p.columnRenames), added)).value,
      DropList(p), x);
  }

  /** On every table that matches the old specification the forward list is accepted exactly when the names stand. */
  lemma ForwardAcceptedIff(p: AlterParams, t: Table, added: seq<NewColumn>)
    requires WellFormed(p) && Matches(t, p.fromSpec) && NewColumns(p, p.toSpec.columns) == Ok(added)
    ensures ExecAll(OpenGauss, t, Altered(p, added).statements).Some? <==> NamesStand(p)
  {
    hide Matches, ExecAll, Stands, NewColumns, RenamesRun, WellFormed, DropList;
    var renames, drops := EffectiveRenames(p.columnRenames), DropStatements(DropList(p));
    var opening := OpeningStatements(renames, added);
    ExecAllAppend(OpenGauss, t, opening + drops, Forward(DiffChanges(p.fromSpec, p.toSpec)));
    ExecAllAppend(OpenGauss, t, opening, drops);
    OpeningAccepted(p, t, added);
    if RenamesRun(p.fromSpec.columns, renames) {
      DropsAccepted(p, t, added);
      var t1 := ExecAll(OpenGauss, t, opening).value;
      if ExecAll(OpenGauss, t1, drops).Some? {
        CommentsAccepted(p, t, added, ExecAll(OpenGauss, t1, drops).value);
      }
    }
  }

  lemma OpeningAccepted(p: AlterParams, t: Table, added: seq<NewColumn>)
    requires WellFormed(p) && Matches(t, p.fromSpec) && NewColumns(p, p.toSpec.columns) == Ok(added)
    ensures ExecAll(OpenGauss, t, OpeningStatements(EffectiveRenames(p.columnRenames), added)).Some?
            <==> RenamesRun(p.fromSpec.columns, EffectiveRenames(p.columnRenames))
  {
    AddedAreNew(p, added);
    OpeningRunsIff(OpenGauss, t, p.fromSpec, EffectiveRenames(p.columnRenames), added);
  }

  /**
   * With drops allowed, renaming a column to a target that no longer lists its old name is refused, unless another
   * rename brings that name back.
   */
  lemma DestructiveRenameRefused(p: AlterParams, t: Table, added: seq<NewColumn>, i: nat)
    requires WellFormed(p) && Matches(t, p.fromSpec) && NewColumns(p, p.toSpec.columns) == Ok(added)
    requires p.allowDestructive && i < |EffectiveRenames(p.columnRenames)|
    requires !IsTarget(EffectiveRenames(p.columnRenames), EffectiveRenames(p.columnRenames)[i].oldName)
    requires !HasName(p.toSpec.columns, EffectiveRenames(p.columnRenames)[i].oldName)
    ensures ExecAll(OpenGauss, t, Altered(p, added).statements).None?
  {
    var renames, from := EffectiveRenames(p.columnRenames), p.fromSpec.columns;
    var x := renames[i].oldName;
    ForwardAcceptedIff(p, t, added);
    OriginUntouched(renames, x);
    assert IsSource(renames, x);
    if HasName(from, x) {
      var k :| 0 <= k < |from| && from[k].name == x;
      assert Goes(p, from[k].name) && !Stands(from, renames, from[k].name);
    } else {
      MissingSource(from, renames, i);
    }
  }

  /** A rename of a name that is neither in the old table nor the target of a rename does not run. */
  lemma MissingSource(from: seq<ColumnSpec>, renames: seq<Rename>, i: nat)
    requires i < |renames| && !HasName(from, renames[i].oldName) && !IsTarget(renames, renames[i].oldName)
    ensures !RenamesRun(from, renames)
  {
    if RenamesRun(from, renames) {
      assert RenameRuns(from, renames[..i], renames[i]);
      assert forall k :: 0 <= k < i ==> renames[..i][k] == renames[k];
      OriginUntouched(renames[..i], renames[i].oldName);
    }
  }

  function IntColumn(name: string, comment: string): ColumnSpec {
    ColumnSpec(name, "INT", true, None, false, false, false, comment)
  }

  function OneColumn(name: string): TableSpec {
    TableSpec(None, None, "t", [IntColumn(name, "")], "")
  }

  lemma SingleEffective(r: Rename)
    requires IsEffective(r)
    ensures EffectiveRenames([r]) == [r]
  {
    assert [r][..0] == [];
    assert EffectiveRenames([]) == [];
  }

  const EXAMPLE := AlterParams(OneColumn("a"), OneColumn("b"), [Rename("a", "b")], true, false)
  const EXAMPLE_TABLE := Table("", [Column("a", "INT", "")])

  lemma ExampleRenames()
    ensures IsEffective(Rename("a", "b")) && EffectiveRenames(EXAMPLE.columnRenames) == [Rename("a", "b")]
  {
    assert !IsSpace("a"[0]) && !IsSpace("b"[0]);
    SingleEffective(Rename("a", "b"));
  }

  lemma ExampleAdds()
    ensures NewColumns(EXAMPLE, EXAMPLE.toSpec.columns) == Ok([])
  {
    hide Definition, EffectiveRenames, IsEffective, IsBlank;
    assert EXAMPLE.toSpec.columns[0].name == "b" && EXAMPLE.columnRenames[0].newName == "b";
    assert EXAMPLE.toSpec.columns[..0] == [] && NewColumns(EXAMPLE, []) == Ok([]);
    assert !IsNew(EXAMPLE, EXAMPLE.toSpec.columns[0]);
  }

  lemma ExampleIsWellFormed()
    ensures WellFormed(EXAMPLE) && Matches(EXAMPLE_TABLE, EXAMPLE.fromSpec)
    ensures !HasName(EXAMPLE.toSpec.columns, "a")
  {
    ExampleRenames();
    hide EffectiveRenames, IsEffective, NewColumns;
    assert EXAMPLE.fromSpec.columns[0].name == "a" && EXAMPLE.toSpec.columns[0].name == "b";
  }

  /** The smallest such case: one column `a`, renamed to `b`, with drops allowed. */
  lemma DestructiveRenameExample()
    ensures WellFormed(EXAMPLE) && NewColumns(EXAMPLE, EXAMPLE.toSpec.columns) == Ok([])
    ensures ExecAll(OpenGauss, EXAMPLE_TABLE, Altered(EXAMPLE, []).statements).None?
  {
    hide WellFormed, NewColumns, EffectiveRenames, ExecAll, Altered, Matches, HasName;
    ExampleRenames();
    ExampleAdds();
    ExampleIsWellFormed();
    DestructiveRenameRefused(EXAMPLE, EXAMPLE_TABLE, [], 0);
  }

  // ---------- the rollback list ----------

  /** Wherever the comment part changes a comment, the column behind that name had that comment before the renames. */
  predicate CommentsWereThere(p: AlterParams) {
    var renames, from, to := EffectiveRenames(p.columnRenames), p.fromSpec.columns, p.toSpec.columns;
    forall k :: 0 <= k < |to| && CommentDiffers(from, to[k]) && Stands(from, renames, to[k].name) ==>
      CommentUnder(from, Origin(renames, to[k].name).value) == CommentUnder(from, to[k].name)
  }

  lemma CommentsMatchIff(p: AlterParams, t: Table, added: seq<NewColumn>)
    requires WellFormed(p) && Matches(t, p.fromSpec) && NewColumns(p, p.toSpec.columns) == Ok(added) && NamesStand(p)
    ensures ExecAll(OpenGauss, t, OpeningStatements(EffectiveRenames(p.columnRenames), added)).Some?
    ensures var t1 := ExecAll(OpenGauss, t, OpeningStatements(EffectiveRenames(p.columnRenames), added)).value;
            CommentsMatch(t1.columns, CommentDiffs(p.fromSpec.columns, p.toSpec.columns)) <==> CommentsWereThere(p)
  {
    hide Matches, ExecAll, NewColumns, CommentDiffs, DropList, RenamesRun, EffectiveRenames, CommentDiffers;
    var renames, from, to := EffectiveRenames(p.columnRenames), p.fromSpec.columns, p.toSpec.columns;
    var diffs := CommentDiffs(from, to);
    OldNameAfterOpening(p, t, added, "");
    var t1 := ExecAll(OpenGauss, t, OpeningStatements(renames, added)).value;
    DiffNamesDistinct(from, to);
    forall i | 0 <= i < |diffs|
      ensures Lookup(t1.columns, diffs[i].name).Some? && Stands(from, renames, diffs[i].name)
      ensures Lookup(t1.columns, diffs[i].name).value.comment == diffs[i].before
        <==> CommentUnder(from, Origin(renames, diffs[i].name).value) == CommentUnder(from, diffs[i].name)
    {
      ChangedStands(p, i);
      OldNameAfterOpening(p, t, added, diffs[i].name);
      DiffEntry(from, to, i);
    }
    DiffNames(from, to);
  }

  lemma ChangedStands(p: AlterParams, i: nat)
    requires WellFormed(p) && NamesStand(p) && i < |CommentDiffs(p.fromSpec.columns, p.toSpec.columns)|
    ensures Stands(p.fromSpec.columns, EffectiveRenames(p.columnRenames),
                   CommentDiffs(p.fromSpec.columns, p.toSpec.columns)[i].name)
    ensures Origin(EffectiveRenames(p.columnRenames), CommentDiffs(p.fromSpec.columns, p.toSpec.columns)[i].name).Some?
  {
    hide EffectiveRenames, CommentDiffs, DropList, RenamesRun;
    DiffNames(p.fromSpec.columns, p.toSpec.columns);
  }

  lemma OpeningUndone(p: AlterParams, t: Table, added: seq<NewColumn>)
    requires Distinct(t.columns)
    ensures Undoes(OpenGauss, t, RenameChanges(EffectiveRenames(p.columnRenames)) + AddChanges(added))
  {
    var renames := EffectiveRenames(p.columnRenames);
    EffectiveNames(p.columnRenames);
    RenamesUndone(OpenGauss, t, renames);
    if ExecAll(OpenGauss, t, Forward(RenameChanges(renames))).Some? {
      RenamesEffect(OpenGauss, t, renames, "");
      AddsUndone(ExecAll(OpenGauss, t, Forward(RenameChanges(renames))).value, added);
    }
    UndoesBoth(OpenGauss, t, RenameChanges(renames), AddChanges(added));
  }

  /**
   * Rollback is a left inverse when no column was dropped and the comments it writes were there: after an accepted
   * forward list, the rollback list is accepted statement by statement, and leads back to exactly the table it started
   * from (columns, their order, and all comments).
   */
  lemma RollbackRestores(p: AlterParams, t: Table, added: seq<NewColumn>)
    requires WellFormed(p) && Matches(t, p.fromSpec) && NewColumns(p, p.toSpec.columns) == Ok(added)
    requires p.withRollback && NothingGoes(p) && CommentsWereThere(p)
    requires ExecAll(OpenGauss, t, Altered(p, added).statements).Some?
    ensures var r := Altered(p, added);
            ExecAll(OpenGauss, ExecAll(OpenGauss, t, r.statements).value, r.rollback) == Some(t)
  {
    hide Matches, ExecAll, NewColumns, CommentDiffs, DropList, NamesStand, CommentsWereThere, NothingGoes, Goes;
    var renames, diff := EffectiveRenames(p.columnRenames), DiffChanges(p.fromSpec, p.toSpec);
    var opening := RenameChanges(renames) + AddChanges(added);
    ForwardAppend(RenameChanges(renames), AddChanges(added));
    RollbackAppend(RenameChanges(renames), AddChanges(added));
    ForwardAcceptedIff(p, t, added);
    DropListIs(p);
    MatchedLookup(t, p.fromSpec, "");
    OpeningUndone(p, t, added);
    assert RenamesRun(p.fromSpec.columns, renames) by {
      StandIncludesRuns(p);
    }
    OldNameAfterOpening(p, t, added, "");
    CommentsMatchIff(p, t, added);
    DiffUndone(OpenGauss, ExecAll(OpenGauss, t, Forward(opening)).value, p.fromSpec, p.toSpec);
    UndoesBoth(OpenGauss, t, opening, diff);
    ForwardAppend(opening, diff);
    RollbackAppend(opening, diff);
    assert OpeningStatements(renames, added) + DropStatements(DropList(p)) == OpeningStatements(renames, added);
    assert Altered(p, added).statements == Forward(opening + diff);
  }

  lemma StandIncludesRuns(p: AlterParams)
    requires NamesStand(p)
    ensures RenamesRun(p.fromSpec.columns, EffectiveRenames(p.columnRenames))
  {
  }

  /** The forward list and the rollback list together lose exactly the dropped columns. */
  lemma AlteredBalance(p: AlterParams, added: seq<NewColumn>)
    requires p.withRollback
    ensures Balance(Altered(p, added).statements) + Balance(Altered(p, added).rollback) == -|DropList(p)|
  {
    var renames, adds := RenameChanges(EffectiveRenames(p.columnRenames)), AddChanges(added);
    var diff := DiffChanges(p.fromSpec, p.toSpec);
    RenamesBalance(EffectiveRenames(p.columnRenames));
    AddsBalance(added);
    CommentsBalance(CommentDiffs(p.fromSpec.columns, p.toSpec.columns));
    RollbackBalances(renames);
    RollbackBalances(adds);
    RollbackBalances(diff);
    DropsBalance(DropList(p));
    hide Balance, Forward, Rollback;
    BalanceAppend(Forward(renames), Forward(adds));
    BalanceAppend(Forward(renames) + Forward(adds), DropStatements(DropList(p)));
    BalanceAppend(Forward(renames) + Forward(adds) + DropStatements(DropList(p)), Forward(diff));
    BalanceAppend(Rollback(adds), Rollback(renames));
    BalanceAppend(Rollback(diff), Rollback(adds) + Rollback(renames));
  }

  lemma DroppedStayLost(p: AlterParams, t: Table, added: seq<NewColumn>)
    requires p.withRollback && ExecAll(OpenGauss, t, Altered(p, added).statements).Some? && DropList(p) != []
    ensures var r := Altered(p, added);
            ExecAll(OpenGauss, ExecAll(OpenGauss, t, r.statements).value, r.rollback) != Some(t)
  {
    hide Altered, ExecAll, DropList;
    var r := Altered(p, added);
    var after := ExecAll(OpenGauss, t, r.statements).value;
    AlteredBalance(p, added);
    ExecCounts(OpenGauss, t, r.statements);
    if ExecAll(OpenGauss, after, r.rollback).Some? {
      ExecCounts(OpenGauss, after, r.rollback);
    }
  }

  /**
   * A rollback that leads back to the table passes, before it undoes the renames, through the very table the renames
   * led to; so the comments it wrote are the ones that were there.
   */
  lemma RestoredPassesRenamed(p: AlterParams, t: Table, added: seq<NewColumn>, after: Table, x: string)
    requires Distinct(after.columns) && p.withRollback
    requires ExecAll(OpenGauss, after, Altered(p, added).rollback) == Some(t)
    requires !IsAdded(added, x)
    ensures var diffed := ExecAll(OpenGauss, after, Rollback(DiffChanges(p.fromSpec, p.toSpec)));
            var renamed := ExecAll(OpenGauss, t, Forward(RenameChanges(EffectiveRenames(p.columnRenames))));
            && diffed.Some? && renamed.Some?
            && (Distinct(diffed.value.columns) ==>
                  Lookup(renamed.value.columns, x) == Lookup(diffed.value.columns, x))
  {
    hide ExecAll, DiffChanges, Forward, Rollback, EffectiveRenames, IsAdded;
    var renames := EffectiveRenames(p.columnRenames);
    var diff, adds, back := Rollback(DiffChanges(p.fromSpec, p.toSpec)), Rollback(AddChanges(added)),
      Rollback(RenameChanges(renames));
    ExecAllAppend(OpenGauss, after, diff, adds + back);
    var diffed := ExecAll(OpenGauss, after, diff).value;
    ExecAllAppend(OpenGauss, diffed, adds, back);
    StaysDistinct(OpenGauss, after, diff);
    AddsUndoLookup(OpenGauss, diffed, added, x);
    EffectiveNames(p.columnRenames);
    RenamesUndoDetermines(OpenGauss, ExecAll(OpenGauss, diffed, adds).value, renames);
  }

  lemma RestoredMeansThere(p: AlterParams, t: Table, added: seq<NewColumn>, k: nat)
    requires WellFormed(p) && Matches(t, p.fromSpec) && NewColumns(p, p.toSpec.columns) == Ok(added)
    requires p.withRollback && ExecAll(OpenGauss, t, Altered(p, added).statements).Some?
    requires var r := Altered(p, added);
             ExecAll(OpenGauss, ExecAll(OpenGauss, t, r.statements).value, r.rollback) == Some(t)
    requires k < |p.toSpec.columns| && CommentDiffers(p.fromSpec.columns, p.toSpec.columns[k])
    requires Stands(p.fromSpec.columns, EffectiveRenames(p.columnRenames), p.toSpec.columns[k].name)
    ensures CommentUnder(p.fromSpec.columns, Origin(EffectiveRenames(p.columnRenames), p.toSpec.columns[k].name).value)
      == CommentUnder(p.fromSpec.columns, p.toSpec.columns[k].name)
  {
    assert DistinctSpecs(p.fromSpec.columns);
    hide *;
    var x := p.toSpec.columns[k].name;
    var after := ExecAll(OpenGauss, t, Altered(p, added).statements).value;
    MatchedLookup(t, p.fromSpec, "");
    StaysDistinct(OpenGauss, t, Altered(p, added).statements);
    OldIsNotAdded(p, added, k);
    RestoredPassesRenamed(p, t, added, after, x);
    UndoneComment(p, after, k);
    RenamedComment(p, t, x);
  }

  lemma OldIsNotAdded(p: AlterParams, added: seq<NewColumn>, k: nat)
    requires WellFormed(p) && NewColumns(p, p.toSpec.columns) == Ok(added)
    requires k < |p.toSpec.columns| && CommentDiffers(p.fromSpec.columns, p.toSpec.columns[k])
    ensures !IsAdded(added, p.toSpec.columns[k].name)
  {
    hide NewColumns, EffectiveRenames;
    NamedFacts(p.fromSpec.columns, p.toSpec.columns[k].name);
    AddedAreNew(p, added);
    NotAdded(p.fromSpec.columns, EffectiveRenames(p.columnRenames), added, p.toSpec.columns[k].name);
  }

  /** The comment part of the rollback list writes the comment the old table has under the name. */
  lemma UndoneComment(p: AlterParams, after: Table, k: nat)
    requires WellFormed(p) && Distinct(after.columns)
    requires ExecAll(OpenGauss, after, Rollback(DiffChanges(p.fromSpec, p.toSpec))).Some?
    requires k < |p.toSpec.columns| && CommentDiffers(p.fromSpec.columns, p.toSpec.columns[k])
    ensures var x := p.toSpec.columns[k].name;
            var diffed := ExecAll(OpenGauss, after, Rollback(DiffChanges(p.fromSpec, p.toSpec))).value;
            && Distinct(diffed.columns) && Lookup(diffed.columns, x).Some?
            && Some(Lookup(diffed.columns, x).value.comment) == CommentUnder(p.fromSpec.columns, x)
  {
    hide ExecAll, CommentDiffs, DiffChanges, CommentDiffers;
    var from, to, x := p.fromSpec.columns, p.toSpec.columns, p.toSpec.columns[k].name;
    DiffNames(from, to);
    var i :| 0 <= i < |CommentDiffs(from, to)| && CommentDiffs(from, to)[i].name == x;
    DiffUndoSets(OpenGauss, after, p.fromSpec, p.toSpec, i);
    DiffEntry(from, to, i);
  }

  lemma RenamedComment(p: AlterParams, t: Table, x: string)
    requires WellFormed(p) && Matches(t, p.fromSpec)
    requires ExecAll(OpenGauss, t, Forward(RenameChanges(EffectiveRenames(p.columnRenames)))).Some?
    requires Stands(p.fromSpec.columns, EffectiveRenames(p.columnRenames), x)
    ensures Origin(EffectiveRenames(p.columnRenames), x).Some?
    ensures var renamed := ExecAll(OpenGauss, t, Forward(RenameChanges(EffectiveRenames(p.columnRenames)))).value;
            Lookup(renamed.columns, x).Some? ==>
              Some(Lookup(renamed.columns, x).value.comment)
              == CommentUnder(p.fromSpec.columns, Origin(EffectiveRenames(p.columnRenames), x).value)
  {
    hide ExecAll, EffectiveRenames, Matches;
    Renamed(OpenGauss, t, p.fromSpec, EffectiveRenames(p.columnRenames), x);
  }

  lemma NotAdded(from: seq<ColumnSpec>, renames: seq<Rename>, added: seq<NewColumn>, x: string)
    requires NewTo(from, renames, added) && HasName(from, x)
    ensures !IsAdded(added, x)
  {
  }

  /**
   * After an accepted forward list, rollback restores the table if and only if no column was dropped and wherever a
   * comment changes, the column behind that name had that comment before the renames.
   */
  lemma RollbackRestoresIff(p: AlterParams, t: Table, added: seq<NewColumn>)
    requires WellFormed(p) && Matches(t, p.fromSpec) && NewColumns(p, p.toSpec.columns) == Ok(added)
    requires p.withRollback && ExecAll(OpenGauss, t, Altered(p, added).statements).Some?
    ensures var r := Altered(p, added);
            ExecAll(OpenGauss, ExecAll(OpenGauss, t, r.statements).value, r.rollback) == Some(t)
            <==> NothingGoes(p) && CommentsWereThere(p)
  {
    assert DropList(p) == [] <==> NothingGoes(p) by {
      DropListIs(p);
    }
    hide Altered, Matches, WellFormed, ExecAll, DropList, EffectiveRenames, NewColumns, CommentDiffers, CommentUnder,
         NothingGoes;
    var r := Altered(p, added);
    if DropList(p) != [] {
      DroppedStayLost(p, t, added);
    } else if CommentsWereThere(p) {
      RollbackRestores(p, t, added);
    } else if ExecAll(OpenGauss, ExecAll(OpenGauss, t, r.statements).value, r.rollback) == Some(t) {
      var renames, from, to := EffectiveRenames(p.columnRenames), p.fromSpec.columns, p.toSpec.columns;
      forall k | 0 <= k < |to| && CommentDiffers(from, to[k]) && Stands(from, renames, to[k].name)
        ensures CommentUnder(from, Origin(renames, to[k].name).value) == CommentUnder(from, to[k].name)
      {
        RestoredMeansThere(p, t, added, k);
      }
    }
  }

  /**
   * Both lists in a row, for any request: they are accepted and give back the table if and only if the names stand,
   * nothing is dropped, and the comments were there.
   */
  lemma AlterAndRollBackIff(p: AlterParams, t: Table, added: seq<NewColumn>)
    requires WellFormed(p) && Matches(t, p.fromSpec) && NewColumns(p, p.toSpec.columns) == Ok(added) && p.withRollback
    ensures ExecAll(OpenGauss, t, Altered(p, added).statements + Altered(p, added).rollback) == Some(t)
      <==> NamesStand(p) && NothingGoes(p) && CommentsWereThere(p)
  {
    hide Altered, Matches, WellFormed, ExecAll, DropList, NamesStand, CommentsWereThere, NewColumns;
    ForwardAcceptedIff(p, t, added);
    ExecAllAppend(OpenGauss, t, Altered(p, added).statements, Altered(p, added).rollback);
    if NamesStand(p) {
      RollbackRestoresIff(p, t, added);
    }
  }

  /** With ordinary renames whose old names are gone from the target, and no drops, the table is always restored. */
  lemma AlterAndRollBack(p: AlterParams, t: Table, added: seq<NewColumn>)
    requires WellFormed(p) && Matches(t, p.fromSpec) && NewColumns(p, p.toSpec.columns) == Ok(added)
    requires p.withRollback && !p.allowDestructive
    requires Ordinary(p.fromSpec.columns, EffectiveRenames(p.columnRenames))
    requires forall k :: 0 <= k < |p.toSpec.columns| ==>
               !IsSource(EffectiveRenames(p.columnRenames), p.toSpec.columns[k].name)
    ensures ExecAll(OpenGauss, t, Altered(p, added).statements + Altered(p, added).rollback) == Some(t)
  {
    hide Matches, ExecAll, NewColumns, Altered, EffectiveRenames;
    var renames, from, to := EffectiveRenames(p.columnRenames), p.fromSpec.columns, p.toSpec.columns;
    OrdinaryRun(from, renames);
    forall k | 0 <= k < |to| && CommentDiffers(from, to[k])
      ensures Origin(renames, to[k].name) == Some(to[k].name) && Stands(from, renames, to[k].name)
    {
      NamedFacts(from, to[k].name);
      KeptStands(from, renames, to[k].name);
    }
    AlterAndRollBackIff(p, t, added);
  }

  // ---------- a chain of renames ----------

  /** `a` becomes `c`, `b` becomes `a`, and the comment under `a` changes. */
  const CHAIN := AlterParams(
    TableSpec(None, None, "t", [IntColumn("a", "y"), IntColumn("b", "z")], ""),
    TableSpec(None, None, "t", [IntColumn("c", "y"), IntColumn("a", "x")], ""),
    [Rename("a", "c"), Rename("b", "a")], false, true)
  const CHAIN_TABLE := Table("", [Column("a", "INT", "y"), Column("b", "INT", "z")])

  lemma ChainRenames()
    ensures EffectiveRenames(CHAIN.columnRenames) == [Rename("a", "c"), Rename("b", "a")]
  {
    assert !IsSpace("a"[0]) && !IsSpace("b"[0]) && !IsSpace("c"[0]);
    assert CHAIN.columnRenames[..1] == [Rename("a", "c")];
    SingleEffective(Rename("a", "c"));
  }

  lemma ChainNames()
    ensures var from := CHAIN.fromSpec.columns;
            && HasName(from, "a") && HasName(from, "b") && !HasName(from, "c")
            && CommentUnder(from, "a") == Some("y") && CommentUnder(from, "b") == Some("z")
            && LastNamed(from, "c").None?
  {
    var from := CHAIN.fromSpec.columns;
    assert from[0].name == "a" && from[1].name == "b";
    assert from[..1] == [from[0]] && from[..1][..0] == [];
  }

  lemma ChainOrigins()
    ensures var renames := [Rename("a", "c"), Rename("b", "a")];
            && Origin(renames, "a") == Some("b") && Origin(renames, "c") == Some("a") && Origin(renames, "b") == None
            && Origin(renames[..1], "b") == Some("b") && Origin(renames[..1], "a") == None
            && Origin(renames[..0], "a") == Some("a") && Origin(renames[..0], "c") == Some("c")
  {
    var renames := [Rename("a", "c"), Rename("b", "a")];
    assert renames[..1] == [Rename("a", "c")] && renames[..1][..0] == [] && renames[..0] == [];
  }

  lemma ChainStands()
    ensures WellFormed(CHAIN) && Matches(CHAIN_TABLE, CHAIN.fromSpec) && NamesStand(CHAIN)
    ensures NothingGoes(CHAIN) && !CommentsWereThere(CHAIN)
  {
    hide EffectiveRenames, Origin, LastNamed, HasName;
    var from, to, renames := CHAIN.fromSpec.columns, CHAIN.toSpec.columns, EffectiveRenames(CHAIN.columnRenames);
    ChainRenames();
    ChainNames();
    ChainOrigins();
    assert from[0].name == "a" && from[1].name == "b" && to[0].name == "c" && to[1].name == "a";
    assert RenamesRun(from, renames) by {
      assert RenameRuns(from, renames[..0], renames[0]) && RenameRuns(from, renames[..1], renames[1]);
    }
    assert to[1].comment == "x";
    assert CommentDiffers(from, to[1]) && Stands(from, renames, to[1].name);
  }

  lemma ChainAddsNothing()
    ensures NewColumns(CHAIN, CHAIN.toSpec.columns) == Ok([])
  {
    hide Definition;
    var to := CHAIN.toSpec.columns;
    assert to[0].name == "c" && to[1].name == "a";
    assert CHAIN.columnRenames[0].newName == "c" && CHAIN.columnRenames[1].newName == "a";
    assert to[..1] == [to[0]] && to[..1][..0] == [];
    assert !IsNew(CHAIN, to[0]) && !IsNew(CHAIN, to[1]);
    assert NewColumns(CHAIN, []) == Ok([]);
    assert NewColumns(CHAIN, to[..1]) == Ok([]);
  }

  /** Nothing is dropped, the forward list is accepted, and still the rollback list does not restore the table. */
  lemma ChainNotRestored()
    ensures WellFormed(CHAIN) && Matches(CHAIN_TABLE, CHAIN.fromSpec)
    ensures NewColumns(CHAIN, CHAIN.toSpec.columns) == Ok([]) && NothingGoes(CHAIN)
    ensures var r, after := Altered(CHAIN, []), ExecAll(OpenGauss, CHAIN_TABLE, Altered(CHAIN, []).statements);
            && after.Some? && ExecAll(OpenGauss, after.value, r.rollback) != Some(CHAIN_TABLE)
  {
    assert CHAIN.withRollback;
    hide *;
    ChainStands();
    ChainAddsNothing();
    ForwardAcceptedIff(CHAIN, CHAIN_TABLE, []);
    RollbackRestoresIff(CHAIN, CHAIN_TABLE, []);
  }
}
