/** The DuckDB ALTER TABLE compiler: aware of renames when it adds and drops, with a rollback list for comments only. */
module DuckDbDdl {
  import opened Wrappers
  import opened Text
  import opened AlterTable
  import opened AlterPlan
  import opened CommentDiff
  import opened AlterNames
  import opened AlterUndo

  predicate IsEffective(r: Rename) {
    r.oldName != r.newName && !IsBlank(r.oldName) && !IsBlank(r.newName)
  }

  function EffectiveRenames(renames: seq<Rename>): seq<Rename>
    decreases |renames|
  {
    if renames == [] then []
    else
      var rest := EffectiveRenames(renames[..|renames| - 1]);
      if IsEffective(renames[|renames| - 1]) then rest + [renames[|renames| - 1]] else rest
  }

  function Definition(c: ColumnSpec): string {
    (if IsBlank(c.typeStr) then "VARCHAR" else Trim(c.typeStr))
    + (if c.nullable then "" else " NOT NULL")
    + (if c.defaultValue.Some? then " DEFAULT " + c.defaultValue.value else "")
    + (if c.isPrimary then " PRIMARY KEY" else if c.isUnique then " UNIQUE" else "")
  }

  predicate IsNew(p: AlterParams, c: ColumnSpec) {
    !IsTarget(p.columnRenames, c.name) && !HasName(p.fromSpec.columns, c.name)
  }

  function NewColumns(p: AlterParams, columns: seq<ColumnSpec>): seq<NewColumn>
    decreases |columns|
  {
    if columns == [] then []
    else
      var c, rest := columns[|columns| - 1], NewColumns(p, columns[..|columns| - 1]);
      if IsNew(p, c) then rest + [NewColumn(c.name, Definition(c), c.comment)] else rest
  }

  predicate IsDropped(p: AlterParams, name: string) {
    !IsSource(p.columnRenames, name) && !HasName(p.toSpec.columns, name)
  }

  function Dropped(p: AlterParams, from: seq<ColumnSpec>): seq<string>
    decreases |from|
  {
    if from == [] then []
    else
      var c, rest := from[|from| - 1], Dropped(p, from[..|from| - 1]);
      if IsDropped(p, c.name) then rest + [c.name] else rest
  }

  function DropList(p: AlterParams): seq<string> {
    if p.allowDestructive then Dropped(p, p.fromSpec.columns) else []
  }

  function Altered(p: AlterParams): AlterResult {
    AlterResult(
      OpeningStatements(EffectiveRenames(p.columnRenames), NewColumns(p, p.toSpec.columns))
      + DropStatements(DropList(p)) + Forward(DiffChanges(p.fromSpec, p.toSpec)),
      if p.withRollback then Rollback(DiffChanges(p.fromSpec, p.toSpec)) else [],
      [])
  }

  method BuildAlterTable(p: AlterParams) returns (r: AlterResult)
    ensures r == Altered(p)
  {
    var renamedOld, renamedNew := RenamedNames(p);
    var renames := RenameLoop(p);
    var adds := AddLoop(p, renamedNew);
    var drops := DropLoop(p, renamedOld);
    var statements, rollback := DiffComments(renames + adds + drops, [], p.fromSpec, p.toSpec, p.withRollback);
    assert Rollback(DiffChanges(p.fromSpec, p.toSpec)) + [] == Rollback(DiffChanges(p.fromSpec, p.toSpec));
    return AlterResult(statements, rollback, []);
  }

  method RenamedNames(p: AlterParams) returns (olds: set<string>, news: set<string>)
    ensures forall x :: x in olds <==> IsSource(p.columnRenames, x)
    ensures forall x :: x in news <==> IsTarget(p.columnRenames, x)
  {
    olds, news := {}, {};
    var i := 0;
    while i < |p.columnRenames|
      invariant 0 <= i <= |p.columnRenames|
      invariant forall x :: x in olds <==> exists k :: 0 <= k < i && p.columnRenames[k].oldName == x
      invariant forall x :: x in news <==> exists k :: 0 <= k < i && p.columnRenames[k].newName == x
    {
      olds := olds + {p.columnRenames[i].oldName};
      news := news + {p.columnRenames[i].newName};
      i := i + 1;
    }
  }

  method RenameLoop(p: AlterParams) returns (statements: seq<Statement>)
    ensures statements == Forward(RenameChanges(EffectiveRenames(p.columnRenames)))
  {
    statements := [];
    var i := 0;
    while i < |p.columnRenames|
      invariant 0 <= i <= |p.columnRenames|
      invariant statements == Forward(RenameChanges(EffectiveRenames(p.columnRenames[..i])))
    {
      var r := p.columnRenames[i];
      assert p.columnRenames[..i + 1][..i] == p.columnRenames[..i];
      if IsEffective(r) {
        RenameGrows(EffectiveRenames(p.columnRenames[..i]), r);
        statements := statements + [RenameColumn(r.oldName, r.newName)];
      }
      i := i + 1;
    }
    assert p.columnRenames[..i] == p.columnRenames;
  }

  lemma RenameGrows(renames: seq<Rename>, r: Rename)
    ensures Forward(RenameChanges(renames + [r]))
      == Forward(RenameChanges(renames)) + [RenameColumn(r.oldName, r.newName)]
  {
    assert (renames + [r])[..|renames|] == renames;
    var change := Change([RenameColumn(r.oldName, r.newName)], [RenameColumn(r.newName, r.oldName)]);
    OneChange(change);
    ForwardAppend(RenameChanges(renames), [change]);
  }

  method AddLoop(p: AlterParams, renamedNew: set<string>) returns (statements: seq<Statement>)
    requires forall x :: x in renamedNew <==> IsTarget(p.columnRenames, x)
    ensures statements == Forward(AddChanges(NewColumns(p, p.toSpec.columns)))
  {
    statements := [];
    var to := p.toSpec.columns;
    ghost var added: seq<NewColumn> := [];
    var i := 0;
    while i < |to|
      invariant 0 <= i <= |to|
      invariant added == NewColumns(p, to[..i])
      invariant statements == Forward(AddChanges(added))
    {
      var c := to[i];
      assert to[..i + 1][..i] == to[..i];
      if c.name !in renamedNew && !HasName(p.fromSpec.columns, c.name) {
        AddGrows(added, NewColumn(c.name, Definition(c), c.comment));
        added := added + [NewColumn(c.name, Definition(c), c.comment)];
        statements := statements + [AddColumn(c.name, Definition(c))];
        if !IsBlank(c.comment) {
          statements := statements + [CommentOnColumn(c.name, c.comment)];
        }
      }
      i := i + 1;
    }
    assert to[..i] == to;
  }

  lemma AddGrows(added: seq<NewColumn>, c: NewColumn)
    ensures Forward(AddChanges(added + [c])) ==
            if IsBlank(c.comment) then Forward(AddChanges(added)) + [AddColumn(c.name, c.definition)]
            else Forward(AddChanges(added)) + [AddColumn(c.name, c.definition)] + [CommentOnColumn(c.name, c.comment)]
  {
    assert (added + [c])[..|added|] == added;
    var change := Change(AddWithComment(c.name, c.definition, c.comment), [DropColumn(c.name)]);
    OneChange(change);
    ForwardAppend(AddChanges(added), [change]);
  }

  method DropLoop(p: AlterParams, renamedOld: set<string>) returns (statements: seq<Statement>)
    requires forall x :: x in renamedOld <==> IsSource(p.columnRenames, x)
    ensures statements == DropStatements(DropList(p))
  {
    statements := [];
    if p.allowDestructive {
      ghost var drops: seq<string> := [];
      var from := p.fromSpec.columns;
      var i := 0;
      while i < |from|
        invariant 0 <= i <= |from|
        invariant drops == Dropped(p, from[..i]) && statements == DropStatements(drops)
      {
        assert from[..i + 1][..i] == from[..i];
        if from[i].name !in renamedOld && !HasName(p.toSpec.columns, from[i].name) {
          assert (drops + [from[i].name])[..|drops|] == drops;
          drops := drops + [from[i].name];
          statements := statements + [DropColumn(from[i].name)];
        }
        i := i + 1;
      }
      assert from[..i] == from;
    }
  }

  // ---------- what the lists hold ----------

  lemma {:induction false} EffectiveAreRenames(renames: seq<Rename>, x: string)
    ensures IsTarget(EffectiveRenames(renames), x) ==> IsTarget(renames, x)
    ensures IsSource(EffectiveRenames(renames), x) ==> IsSource(renames, x)
    ensures forall i :: 0 <= i < |EffectiveRenames(renames)| ==>
              EffectiveRenames(renames)[i].oldName != "" && EffectiveRenames(renames)[i].newName != ""
    decreases |renames|
  {
    if renames != [] {
      var front, r := renames[..|renames| - 1], renames[|renames| - 1];
      var list, all := EffectiveRenames(front), EffectiveRenames(renames);
      EffectiveAreRenames(front, x);
      assert r == renames[|renames| - 1];
      assert forall k :: 0 <= k < |front| ==> front[k] == renames[k];
      assert forall k :: 0 <= k < |list| ==> list[k] == all[k];
    }
  }

  /** What is added for one column of the target: itself when it is new, and then with its comment. */
  ghost predicate AddedFor(p: AlterParams, added: seq<NewColumn>, c: ColumnSpec) {
    && (IsNew(p, c) ==> IsAdded(added, c.name))
    && (forall i :: 0 <= i < |added| && added[i].name == c.name ==> added[i].comment == c.comment && IsNew(p, c))
  }

  lemma {:induction false} NewColumnFacts(p: AlterParams, columns: seq<ColumnSpec>)
    requires DistinctSpecs(columns)
    ensures var added := NewColumns(p, columns);
            && (forall i, j :: 0 <= i < j < |added| ==> added[i].name != added[j].name)
            && (forall i :: 0 <= i < |added| ==>
                  && HasName(columns, added[i].name)
                  && !IsTarget(p.columnRenames, added[i].name) && !HasName(p.fromSpec.columns, added[i].name))
            && (forall k :: 0 <= k < |columns| ==> AddedFor(p, added, columns[k]))
    decreases |columns|
  {
    if columns != [] {
      var front, c := columns[..|columns| - 1], columns[|columns| - 1];
      LastIsAlone(columns);
      assert forall k :: 0 <= k < |front| ==> columns[k] == front[k] && columns[k].name != c.name;
      hide HasName, DistinctSpecs, IsTarget, AddedFor, Definition;
      NewColumnFacts(p, front);
      var rest, added := NewColumns(p, front), NewColumns(p, columns);
      forall i | 0 <= i < |rest| ensures rest[i].name != c.name && HasName(columns, rest[i].name) {
        NamedSplit(columns, rest[i].name);
      }
      NamedSplit(columns, c.name);
      forall k | 0 <= k < |columns| ensures AddedFor(p, added, columns[k]) {
        if k < |front| {
          AddedStays(p, rest, added, columns[k], c.name);
        } else {
          LastIsAdded(p, rest, added, c);
        }
      }
    }
  }

  lemma AddedStays(p: AlterParams, rest: seq<NewColumn>, added: seq<NewColumn>, c: ColumnSpec, last: string)
    requires AddedFor(p, rest, c) && c.name != last
    requires added == rest || (|added| == |rest| + 1 && added[..|rest|] == rest && added[|rest|].name == last)
    ensures AddedFor(p, added, c)
  {
    hide IsNew;
    assert forall i :: 0 <= i < |rest| ==> added[i] == rest[i];
    if IsNew(p, c) {
      var i :| 0 <= i < |rest| && rest[i].name == c.name;
      assert added[i].name == c.name;
    }
  }

  lemma LastIsAdded(p: AlterParams, rest: seq<NewColumn>, added: seq<NewColumn>, c: ColumnSpec)
    requires forall i :: 0 <= i < |rest| ==> rest[i].name != c.name
    requires added == if IsNew(p, c) then rest + [NewColumn(c.name, Definition(c), c.comment)] else rest
    ensures AddedFor(p, added, c)
  {
    hide IsNew, Definition;
    if IsNew(p, c) {
      assert added[|rest|].name == c.name;
    }
  }

  lemma NewColumnEntry(p: AlterParams, columns: seq<ColumnSpec>, i: nat)
    requires DistinctSpecs(columns) && i < |NewColumns(p, columns)|
    ensures var c := NewColumns(p, columns)[i];
            HasName(columns, c.name) && !IsTarget(p.columnRenames, c.name) && !HasName(p.fromSpec.columns, c.name)
  {
    NewColumnFacts(p, columns);
  }

  lemma NewNamesDistinct(p: AlterParams, columns: seq<ColumnSpec>)
    requires DistinctSpecs(columns)
    ensures forall i, j :: 0 <= i < j < |NewColumns(p, columns)| ==>
      NewColumns(p, columns)[i].name != NewColumns(p, columns)[j].name
  {
    NewColumnFacts(p, columns);
  }

  lemma {:induction false} DroppedFacts(p: AlterParams, from: seq<ColumnSpec>)
    requires DistinctSpecs(from)
    ensures var drops := Dropped(p, from);
            && (forall i, j :: 0 <= i < j < |drops| ==> drops[i] != drops[j])
            && (forall x :: x in drops <==> HasName(from, x) && IsDropped(p, x))
    decreases |from|
  {
    if from != [] {
      var front, c := from[..|from| - 1], from[|from| - 1];
      assert forall i :: 0 <= i < |front| ==> front[i] == from[i];
      DroppedFacts(p, front);
      forall x
        ensures HasName(from, x) <==> HasName(front, x) || x == c.name
      {
        NamedSplit(from, x);
      }
      assert !HasName(front, c.name);
    }
  }

  // ---------- the forward list ----------

  /** Specifications as a table has them: distinct column names, none empty. Nothing is asked of the renames. */
  ghost predicate WellFormed(p: AlterParams) {
    && DistinctSpecs(p.fromSpec.columns) && DistinctSpecs(p.toSpec.columns)
    && forall k :: 0 <= k < |p.toSpec.columns| ==> p.toSpec.columns[k].name != ""
  }

  lemma AddedAreNew(p: AlterParams)
    requires WellFormed(p)
    ensures NewTo(p.fromSpec.columns, EffectiveRenames(p.columnRenames), NewColumns(p, p.toSpec.columns))
  {
    var added := NewColumns(p, p.toSpec.columns);
    NewNamesDistinct(p, p.toSpec.columns);
    forall i | 0 <= i < |added|
      ensures added[i].name != "" && !HasName(p.fromSpec.columns, added[i].name)
      ensures !IsTarget(EffectiveRenames(p.columnRenames), added[i].name)
    {
      NewColumnEntry(p, p.toSpec.columns, i);
      EffectiveAreRenames(p.columnRenames, added[i].name);
    }
  }

  /** Which names are in the table after renames and additions. */
  predicate AfterOpening(p: AlterParams, x: string) {
    || Stands(p.fromSpec.columns, EffectiveRenames(p.columnRenames), x)
    || IsAdded(NewColumns(p, p.toSpec.columns), x)
  }

  function Opened(p: AlterParams, t: Table): Option<Table> {
    ExecAll(DuckDb, t, OpeningStatements(EffectiveRenames(p.columnRenames), NewColumns(p, p.toSpec.columns)))
  }

  lemma OpeningRuns(p: AlterParams, t: Table)
    requires WellFormed(p) && Matches(t, p.fromSpec)
    ensures Opened(p, t).Some? <==> RenamesRun(p.fromSpec.columns, EffectiveRenames(p.columnRenames))
  {
    AddedAreNew(p);
    OpeningRunsIff(DuckDb, t, p.fromSpec, EffectiveRenames(p.columnRenames), NewColumns(p, p.toSpec.columns));
  }

  lemma OpeningNames(p: AlterParams, t: Table, x: string)
    requires WellFormed(p) && Matches(t, p.fromSpec)
    requires RenamesRun(p.fromSpec.columns, EffectiveRenames(p.columnRenames))
    ensures Opened(p, t).Some? && Distinct(Opened(p, t).value.columns)
      && Opened(p, t).value.comment == p.fromSpec.comment
    ensures Lookup(Opened(p, t).value.columns, x).Some? <==> AfterOpening(p, x)
  {
    AddedAreNew(p);
    OpeningEffect(DuckDb, t, p.fromSpec, EffectiveRenames(p.columnRenames), NewColumns(p, p.toSpec.columns), x);
  }

  lemma OpeningCounts(p: AlterParams, t: Table)
    requires Opened(p, t).Some? && Matches(t, p.fromSpec)
    ensures |Opened(p, t).value.columns| == |p.fromSpec.columns| + |NewColumns(p, p.toSpec.columns)|
  {
    var renames, added := EffectiveRenames(p.columnRenames), NewColumns(p, p.toSpec.columns);
    ExecCounts(DuckDb, t, OpeningStatements(renames, added));
    RenamesCountNothing(renames);
    AddsCount(added);
    BalanceAppend(Forward(RenameChanges(renames)), Forward(AddChanges(added)));
  }

  /** Every name to drop is in the table: an accepted rename never leads to a column that is not renamed away. */
  lemma DropsPresent(p: AlterParams, t: Table)
    requires WellFormed(p) && Matches(t, p.fromSpec)
    requires RenamesRun(p.fromSpec.columns, EffectiveRenames(p.columnRenames))
    ensures Opened(p, t).Some?
    ensures forall i, j :: 0 <= i < j < |DropList(p)| ==> DropList(p)[i] != DropList(p)[j]
    ensures AllThere(Opened(p, t).value.columns, DropList(p))
  {
    hide Matches, NewColumns, EffectiveRenames, Opened, RenamesRun;
    var drops := DropList(p);
    OpeningNames(p, t, "");
    DroppedFacts(p, p.fromSpec.columns);
    forall i | 0 <= i < |drops| ensures Lookup(Opened(p, t).value.columns, drops[i]).Some? {
      assert drops[i] in drops;
      EffectiveAreRenames(p.columnRenames, drops[i]);
      KeptStands(p.fromSpec.columns, EffectiveRenames(p.columnRenames), drops[i]);
      OpeningNames(p, t, drops[i]);
    }
  }

  /** A column of the old table that is to be dropped: neither the target nor a rename has its name. */
  predicate Goes(p: AlterParams, name: string) {
    && p.allowDestructive && HasName(p.fromSpec.columns, name)
    && !HasName(p.toSpec.columns, name) && !IsSource(p.columnRenames, name)
  }

  predicate NothingGoes(p: AlterParams) {
    forall i :: 0 <= i < |p.fromSpec.columns| ==> !Goes(p, p.fromSpec.columns[i].name)
  }

  predicate NothingNew(p: AlterParams) {
    forall k :: 0 <= k < |p.toSpec.columns| ==> !Unlisted(p, p.toSpec.columns[k].name)
  }

  lemma DropListIs(p: AlterParams)
    requires DistinctSpecs(p.fromSpec.columns)
    ensures forall x :: x in DropList(p) <==> Goes(p, x)
    ensures DropList(p) == [] <==> NothingGoes(p)
  {
    var from := p.fromSpec.columns;
    DroppedFacts(p, from);
    hide Dropped;
    if DropList(p) != [] {
      assert DropList(p)[0] in DropList(p);
      var i :| 0 <= i < |from| && from[i].name == DropList(p)[0];
    }
    forall i | 0 <= i < |from| ensures Goes(p, from[i].name) ==> from[i].name in DropList(p) {
      assert HasName(from, from[i].name);
    }
  }

  lemma AddedAre(p: AlterParams, x: string)
    requires DistinctSpecs(p.toSpec.columns)
    ensures IsAdded(NewColumns(p, p.toSpec.columns), x) <==> HasName(p.toSpec.columns, x) && Unlisted(p, x)
  {
    var to, added := p.toSpec.columns, NewColumns(p, p.toSpec.columns);
    NewColumnFacts(p, to);
    hide NewColumns;
    if HasName(to, x) && Unlisted(p, x) {
      var k :| 0 <= k < |to| && to[k].name == x;
      assert AddedFor(p, added, to[k]) && IsNew(p, to[k]);
    }
  }

  lemma NothingAddedIff(p: AlterParams)
    requires DistinctSpecs(p.toSpec.columns)
    ensures NewColumns(p, p.toSpec.columns) == [] <==> NothingNew(p)
  {
    hide Unlisted;
    var to, added := p.toSpec.columns, NewColumns(p, p.toSpec.columns);
    if added != [] {
      assert IsAdded(added, added[0].name);
      AddedAre(p, added[0].name);
      var k :| 0 <= k < |to| && to[k].name == added[0].name;
    }
    if !NothingNew(p) {
      var k :| 0 <= k < |to| && Unlisted(p, to[k].name);
      AddedAre(p, to[k].name);
      assert HasName(to, to[k].name);
    }
  }

  /** Which names the table ends with when the whole list is accepted: those that stand or are new, and do not go. */
  predicate InFinalTable(p: AlterParams, x: string) {
    && !Goes(p, x)
    && (Stands(p.fromSpec.columns, EffectiveRenames(p.columnRenames), x)
        || (HasName(p.toSpec.columns, x) && Unlisted(p, x)))
  }

  lemma InFinalIs(p: AlterParams, x: string)
    requires WellFormed(p)
    ensures InFinalTable(p, x) <==> AfterOpening(p, x) && x !in DropList(p)
  {
    hide NewColumns, Dropped, Stands, DropList;
    DropListIs(p);
    AddedAre(p, x);
  }

  ghost predicate ColumnLeft(p: AlterParams) {
    exists x :: InFinalTable(p, x)
  }

  /** Counted on any table that matches: a column is left exactly when fewer are dropped than there are. */
  lemma LeftIff(p: AlterParams, t: Table)
    requires WellFormed(p) && Matches(t, p.fromSpec)
    requires RenamesRun(p.fromSpec.columns, EffectiveRenames(p.columnRenames))
    ensures ColumnLeft(p) <==> |DropList(p)| < |p.fromSpec.columns| + |NewColumns(p, p.toSpec.columns)|
  {
    hide Matches, NewColumns, WellFormed, EffectiveRenames, RenamesRun, DropList, InFinalTable, AfterOpening, ExecAll;
    var drops := DropList(p);
    DropsPresent(p, t);
    OpeningCounts(p, t);
    OpeningNames(p, t, "");
    var t1 := Opened(p, t).value;
    if x :| InFinalTable(p, x) {
      InFinalIs(p, x);
      OpeningNames(p, t, x);
      NamesFit(t1.columns, drops, x);
    }
    if |drops| < |t1.columns| {
      DropsRunIff(OpenGauss, t1, drops);
      ExecCounts(OpenGauss, t1, DropStatements(drops));
      DropsBalance(drops);
      var t2 := ExecAll(OpenGauss, t1, DropStatements(drops)).value;
      var x := t2.columns[0].name;
      DropsEffect(OpenGauss, t1, drops, x);
      IndexIs(t2.columns, 0);
      OpeningNames(p, t, x);
      InFinalIs(p, x);
    }
  }

  /**
   * The renames run, a column stays behind the drops, and every name whose comment changes stands after the renames.
   */
  ghost predicate Runs(p: AlterParams) {
    var renames, from, to := EffectiveRenames(p.columnRenames), p.fromSpec.columns, p.toSpec.columns;
    && RenamesRun(from, renames)
    && (NothingGoes(p) || ColumnLeft(p))
    && (forall k :: 0 <= k < |to| && CommentDiffers(from, to[k]) ==> Stands(from, renames, to[k].name))
  }

  /** On every table that matches the old specification the statement list is accepted exactly then. */
  lemma ForwardAcceptedIff(p: AlterParams, t: Table)
    requires WellFormed(p) && Matches(t, p.fromSpec)
    ensures ExecAll(DuckDb, t, Altered(p).statements).Some? <==> Runs(p)
  {
    assert DropList(p) == [] <==> NothingGoes(p) by {
      DropListIs(p);
    }
    hide Matches, ExecAll, Stands, NewColumns, RenamesRun, WellFormed, DropList, EffectiveRenames, CommentDiffers,
         NothingGoes, ColumnLeft;
    var drops := DropStatements(DropList(p));
    var opening := OpeningStatements(EffectiveRenames(p.columnRenames), NewColumns(p, p.toSpec.columns));
    ExecAllAppend(DuckDb, t, opening + drops, Forward(DiffChanges(p.fromSpec, p.toSpec)));
    ExecAllAppend(DuckDb, t, opening, drops);
    OpeningRuns(p, t);
    if Opened(p, t).Some? {
      DropsPresent(p, t);
      OpeningCounts(p, t);
      OpeningNames(p, t, "");
      DropsRunIff(DuckDb, Opened(p, t).value, DropList(p));
      LeftIff(p, t);
      if ExecAll(DuckDb, Opened(p, t).value, drops).Some? {
        CommentsAccepted(p, t, ExecAll(DuckDb, Opened(p, t).value, drops).value);
      }
    }
  }

  lemma CommentsAccepted(p: AlterParams, t: Table, t2: Table)
    requires WellFormed(p) && Matches(t, p.fromSpec)
    requires RenamesRun(p.fromSpec.columns, EffectiveRenames(p.columnRenames))
    requires Opened(p, t).Some? && ExecAll(DuckDb, Opened(p, t).value, DropStatements(DropList(p))) == Some(t2)
    ensures ExecAll(DuckDb, t2, Forward(DiffChanges(p.fromSpec, p.toSpec))).Some? <==>
            forall k :: 0 <= k < |p.toSpec.columns| && CommentDiffers(p.fromSpec.columns, p.toSpec.columns[k]) ==>
              Stands(p.fromSpec.columns, EffectiveRenames(p.columnRenames), p.toSpec.columns[k].name)
  {
    hide Matches, ExecAll, Stands, NewColumns, CommentDiffs, DropList, CommentDiffers, Opened;
    var renames, from, to := EffectiveRenames(p.columnRenames), p.fromSpec.columns, p.toSpec.columns;
    var diffs := CommentDiffs(from, to);
    OpeningNames(p, t, "");
    DropsEffect(DuckDb, Opened(p, t).value, DropList(p), "");
    DiffLegal(DuckDb, t2, p.fromSpec, p.toSpec);
    forall i | 0 <= i < |diffs|
      ensures Lookup(t2.columns, diffs[i].name).Some? <==> Stands(from, renames, diffs[i].name)
    {
      DiffEntry(from, to, i);
      OpeningNames(p, t, diffs[i].name);
      NotDropped(p, diffs[i].name);
      NotAdded(p, diffs[i].name);
      DropsEffect(DuckDb, Opened(p, t).value, DropList(p), diffs[i].name);
    }
    DiffNames(from, to);
  }

  lemma NotDropped(p: AlterParams, x: string)
    requires WellFormed(p) && HasName(p.toSpec.columns, x)
    ensures x !in DropList(p)
  {
    DroppedFacts(p, p.fromSpec.columns);
  }

  lemma NotAdded(p: AlterParams, x: string)
    requires DistinctSpecs(p.toSpec.columns) && HasName(p.fromSpec.columns, x)
    ensures !IsAdded(NewColumns(p, p.toSpec.columns), x)
  {
    NewColumnFacts(p, p.toSpec.columns);
  }

  lemma AcceptedNames(p: AlterParams, t: Table, x: string)
    requires WellFormed(p) && Matches(t, p.fromSpec) && ExecAll(DuckDb, t, Altered(p).statements).Some?
    ensures Lookup(ExecAll(DuckDb, t, Altered(p).statements).value.columns, x).Some? <==> InFinalTable(p, x)
    ensures ExecAll(DuckDb, t, Altered(p).statements).value.comment == p.toSpec.comment
  {
    hide Matches, NewColumns, WellFormed, DropList, EffectiveRenames, CommentDiffs, RenamesRun, Runs, InFinalTable,
         AfterOpening;
    var drops := DropStatements(DropList(p));
    var opening := OpeningStatements(EffectiveRenames(p.columnRenames), NewColumns(p, p.toSpec.columns));
    ForwardAcceptedIff(p, t);
    RunsMeansRenamesRun(p);
    InFinalIs(p, x);
    OpeningNames(p, t, x);
    ExecAllAppend(DuckDb, t, opening + drops, Forward(DiffChanges(p.fromSpec, p.toSpec)));
    ExecAllAppend(DuckDb, t, opening, drops);
    var t1 := Opened(p, t).value;
    DropsEffect(DuckDb, t1, DropList(p), x);
    var t2 := ExecAll(DuckDb, t1, drops).value;
    DiffEffect(DuckDb, t2, p.fromSpec, p.toSpec, x);
    CommentedPresence(CommentDiffs(p.fromSpec.columns, p.toSpec.columns), Lookup(t2.columns, x), x);
  }

  lemma RunsMeansRenamesRun(p: AlterParams)
    requires Runs(p)
    ensures RenamesRun(p.fromSpec.columns, EffectiveRenames(p.columnRenames))
  {
  }

  // ---------- reaching the target ----------

  /**
   * The renames run and leave the names the target needs: a target column that is not added stands after them, and a
   * name the target lacks stands after them only if it is to be dropped - which a name with a rename from it or to it
   * is not.
   */
  predicate RenamesFit(p: AlterParams) {
    var renames, from, to := EffectiveRenames(p.columnRenames), p.fromSpec.columns, p.toSpec.columns;
    && RenamesRun(from, renames)
    && (forall k :: 0 <= k < |to| && !Unlisted(p, to[k].name) ==> Stands(from, renames, to[k].name))
    && (forall i :: 0 <= i < |from| && !HasName(to, from[i].name) && IsSource(p.columnRenames, from[i].name) ==>
          !Stands(from, renames, from[i].name))
    && (forall i :: 0 <= i < |renames| && !HasName(to, renames[i].newName) ==>
          !Stands(from, renames, renames[i].newName))
  }

  lemma TargetStays(p: AlterParams, k: nat)
    requires WellFormed(p) && RenamesFit(p) && k < |p.toSpec.columns|
    ensures InFinalTable(p, p.toSpec.columns[k].name)
    ensures HasName(p.fromSpec.columns, p.toSpec.columns[k].name) ==>
              Stands(p.fromSpec.columns, EffectiveRenames(p.columnRenames), p.toSpec.columns[k].name)
  {
    assert HasName(p.toSpec.columns, p.toSpec.columns[k].name);
  }

  /** When the renames fit, every statement is accepted: in particular a column always stays behind the drops. */
  lemma FittingRenamesAccepted(p: AlterParams, t: Table)
    requires WellFormed(p) && Matches(t, p.fromSpec) && p.toSpec.columns != [] && RenamesFit(p)
    ensures ExecAll(DuckDb, t, Altered(p).statements).Some?
  {
    hide Matches, ExecAll, NewColumns, WellFormed, DropList, EffectiveRenames, Stands, InFinalTable;
    var from, to := p.fromSpec.columns, p.toSpec.columns;
    forall k | 0 <= k < |to| && CommentDiffers(from, to[k])
      ensures Stands(from, EffectiveRenames(p.columnRenames), to[k].name)
    {
      NamedFacts(from, to[k].name);
      TargetStays(p, k);
    }
    TargetStays(p, 0);
    assert ColumnLeft(p);
    ForwardAcceptedIff(p, t);
  }

  /** Distinct names of columns that are there, and one more, are no more than the columns. */
  lemma NamesFit(columns: seq<Column>, names: seq<string>, x: string)
    requires Distinct(columns) && AllThere(columns, names) && Lookup(columns, x).Some? && x !in names
    requires forall i, j :: 0 <= i < j < |names| ==> names[i] != names[j]
    ensures |names| < |columns|
  {
    DropsRunIff(OpenGauss, Table("", columns), names);
    DropsEffect(OpenGauss, Table("", columns), names, x);
    ExecCounts(OpenGauss, Table("", columns), DropStatements(names));
    DropsBalance(names);
  }

  lemma FinalIsTarget(p: AlterParams, x: string)
    requires WellFormed(p) && p.allowDestructive && RenamesFit(p)
    ensures InFinalTable(p, x) <==> HasName(p.toSpec.columns, x)
  {
    hide RenamesRun, EffectiveRenames, Stands, Goes, Unlisted;
    var from, to := p.fromSpec.columns, p.toSpec.columns;
    if HasName(to, x) {
      var k :| 0 <= k < |to| && to[k].name == x;
      TargetStays(p, k);
    } else if Stands(from, EffectiveRenames(p.columnRenames), x) {
      OthersGo(p, x);
    }
  }

  /** A name that stands and that the target lacks is dropped. */
  lemma OthersGo(p: AlterParams, x: string)
    requires WellFormed(p) && p.allowDestructive && RenamesFit(p) && !HasName(p.toSpec.columns, x)
    requires Stands(p.fromSpec.columns, EffectiveRenames(p.columnRenames), x)
    ensures Goes(p, x)
  {
    hide RenamesRun, EffectiveRenames;
    var renames, from := EffectiveRenames(p.columnRenames), p.fromSpec.columns;
    assert !IsTarget(renames, x);
    OriginUntouched(renames, x);
    var i :| 0 <= i < |from| && from[i].name == x;
    assert !IsSource(p.columnRenames, from[i].name);
  }

  lemma TargetForcesFit(p: AlterParams)
    requires WellFormed(p) && p.allowDestructive && Runs(p)
    requires forall x :: InFinalTable(p, x) <==> HasName(p.toSpec.columns, x)
    ensures RenamesFit(p)
  {
    hide RenamesRun, EffectiveRenames, Stands, WellFormed, CommentDiffers, ColumnLeft, NothingGoes;
    var renames, from, to := EffectiveRenames(p.columnRenames), p.fromSpec.columns, p.toSpec.columns;
    forall k | 0 <= k < |to| && !Unlisted(p, to[k].name) ensures Stands(from, renames, to[k].name) {
      assert HasName(to, to[k].name);
      assert InFinalTable(p, to[k].name);
    }
    forall i | 0 <= i < |from| && !HasName(to, from[i].name) && IsSource(p.columnRenames, from[i].name)
      ensures !Stands(from, renames, from[i].name)
    {
      assert !InFinalTable(p, from[i].name);
    }
    forall i | 0 <= i < |renames| && !HasName(to, renames[i].newName)
      ensures !Stands(from, renames, renames[i].newName)
    {
      TargetNotDropped(p, i);
      assert !InFinalTable(p, renames[i].newName);
    }
  }

  /** The target of a rename that runs is not dropped: it would have to be a column of the old table that stays. */
  lemma TargetNotDropped(p: AlterParams, i: nat)
    requires WellFormed(p) && RenamesRun(p.fromSpec.columns, EffectiveRenames(p.columnRenames))
    requires i < |EffectiveRenames(p.columnRenames)|
    ensures !Goes(p, EffectiveRenames(p.columnRenames)[i].newName)
  {
    var renames, from := EffectiveRenames(p.columnRenames), p.fromSpec.columns;
    var x := renames[i].newName;
    assert RenameRuns(from, renames[..i], renames[i]);
    EffectiveAreRenames(p.columnRenames, x);
    if Goes(p, x) {
      KeptInFront(from, renames, i, x);
    }
  }

  lemma KeptInFront(from: seq<ColumnSpec>, renames: seq<Rename>, i: nat, x: string)
    requires RenamesRun(from, renames) && HasName(from, x) && !IsSource(renames, x) && i < |renames|
    ensures Stands(from, renames[..i], x)
  {
    var front := renames[..i];
    forall k | 0 <= k < i ensures RenameRuns(from, front[..k], front[k]) {
      assert front[..k] == renames[..k];
      assert RenameRuns(from, renames[..k], renames[k]);
    }
    assert forall k :: 0 <= k < i ==> front[k] == renames[k];
    KeptStands(from, front, x);
  }

  /** The list is accepted and ends with exactly the target's columns. */
  predicate ReachesTargetAt(p: AlterParams, t: Table, x: string) {
    ExecAll(DuckDb, t, Altered(p).statements).Some?
    && (Lookup(ExecAll(DuckDb, t, Altered(p).statements).value.columns, x).Some? <==> HasName(p.toSpec.columns, x))
  }

  /**
   * With drops allowed, the statement list takes every matching table to the target's columns exactly when the renames
   * fit.
   */
  lemma ReachesTargetIff(p: AlterParams, t: Table)
    requires WellFormed(p) && Matches(t, p.fromSpec) && p.allowDestructive && p.toSpec.columns != []
    ensures (forall x :: ReachesTargetAt(p, t, x)) <==> RenamesFit(p)
  {
    hide WellFormed, Matches, RenamesFit, ExecAll, Altered, InFinalTable, HasName, Runs;
    if RenamesFit(p) {
      FittingRenamesAccepted(p, t);
      forall x ensures ReachesTargetAt(p, t, x) {
        AcceptedNames(p, t, x);
        FinalIsTarget(p, x);
      }
    } else if forall x :: ReachesTargetAt(p, t, x) {
      assert ReachesTargetAt(p, t, "");
      forall x ensures InFinalTable(p, x) <==> HasName(p.toSpec.columns, x) {
        assert ReachesTargetAt(p, t, x);
        AcceptedNames(p, t, x);
      }
      ForwardAcceptedIff(p, t);
      TargetForcesFit(p);
    }
  }

  /**
   * For ordinary renames: they lead from names the target no longer has to names it has, and a rename that is skipped
   * (blank, or a name to itself) holds back neither a column that should be dropped nor one that should be added.
   */
  ghost predicate LeadFromOldToNew(p: AlterParams) {
    var renames, from, to := EffectiveRenames(p.columnRenames), p.fromSpec.columns, p.toSpec.columns;
    && (forall i :: 0 <= i < |renames| ==> !HasName(to, renames[i].oldName) && HasName(to, renames[i].newName))
    && (forall i :: 0 <= i < |from| && !HasName(to, from[i].name) && IsSource(p.columnRenames, from[i].name) ==>
          IsSource(renames, from[i].name))
    && (forall k :: 0 <= k < |to| && !HasName(from, to[k].name) && IsTarget(p.columnRenames, to[k].name) ==>
          IsTarget(renames, to[k].name))
  }

  lemma OrdinaryRenamesFit(p: AlterParams)
    requires WellFormed(p) && Ordinary(p.fromSpec.columns, EffectiveRenames(p.columnRenames))
    ensures RenamesFit(p) <==> LeadFromOldToNew(p)
  {
    hide WellFormed, RenamesRun, Stands, HasName, EffectiveRenames;
    var renames, from, to := EffectiveRenames(p.columnRenames), p.fromSpec.columns, p.toSpec.columns;
    OrdinaryRun(from, renames);
    forall x
      ensures Stands(from, renames, x) <==> !IsSource(renames, x) && (HasName(from, x) || IsTarget(renames, x))
      ensures IsTarget(renames, x) ==> IsTarget(p.columnRenames, x) && !HasName(from, x)
      ensures IsSource(renames, x) ==> HasName(from, x)
    {
      OrdinaryStands(from, renames, x);
      EffectiveAreRenames(p.columnRenames, x);
    }
    EachIsNamed(from);
    EachIsNamed(to);
    if RenamesFit(p) {
      forall i | 0 <= i < |renames| ensures !HasName(to, renames[i].oldName) && HasName(to, renames[i].newName) {
        assert IsSource(renames, renames[i].oldName) && IsTarget(renames, renames[i].newName);
        if HasName(to, renames[i].oldName) {
          NamedStands(p, renames[i].oldName);
        }
      }
    }
    if LeadFromOldToNew(p) {
      forall k | 0 <= k < |to| && !Unlisted(p, to[k].name) ensures Stands(from, renames, to[k].name) {
        assert !IsSource(renames, to[k].name);
      }
    }
  }

  lemma NamedStands(p: AlterParams, x: string)
    requires RenamesFit(p) && HasName(p.toSpec.columns, x) && HasName(p.fromSpec.columns, x)
    ensures Stands(p.fromSpec.columns, EffectiveRenames(p.columnRenames), x)
  {
    hide RenamesRun, EffectiveRenames;
    var k :| 0 <= k < |p.toSpec.columns| && p.toSpec.columns[k].name == x;
    assert !Unlisted(p, p.toSpec.columns[k].name);
  }

  lemma EachIsNamed(columns: seq<ColumnSpec>)
    ensures forall i :: 0 <= i < |columns| ==> HasName(columns, columns[i].name)
  {
  }

  /** No renamed column is added or dropped as well. */
  lemma RenamedNotAddedOrDropped(p: AlterParams, i: nat)
    requires WellFormed(p) && i < |EffectiveRenames(p.columnRenames)|
    ensures !IsAdded(NewColumns(p, p.toSpec.columns), EffectiveRenames(p.columnRenames)[i].newName)
    ensures EffectiveRenames(p.columnRenames)[i].oldName !in DropList(p)
  {
    var r := EffectiveRenames(p.columnRenames)[i];
    assert IsTarget(EffectiveRenames(p.columnRenames), r.newName);
    assert IsSource(EffectiveRenames(p.columnRenames), r.oldName);
    EffectiveAreRenames(p.columnRenames, r.newName);
    EffectiveAreRenames(p.columnRenames, r.oldName);
    NewColumnFacts(p, p.toSpec.columns);
    DroppedFacts(p, p.fromSpec.columns);
  }

  // ---------- comments ----------

  /** The comment a column of the target has after renames and additions. */
  function OpenedComment(p: AlterParams, k: nat): Option<string>
    requires k < |p.toSpec.columns|
  {
    var renames, from, c := EffectiveRenames(p.columnRenames), p.fromSpec.columns, p.toSpec.columns[k];
    if Unlisted(p, c.name) then Some(AddedComment(c.comment))
    else if Origin(renames, c.name).None? then None
    else CommentUnder(from, Origin(renames, c.name).value)
  }

  lemma OpenedCommentIs(p: AlterParams, t: Table, k: nat)
    requires WellFormed(p) && Matches(t, p.fromSpec) && RenamesFit(p) && k < |p.toSpec.columns|
    ensures Opened(p, t).Some? && Lookup(Opened(p, t).value.columns, p.toSpec.columns[k].name).Some?
    ensures Some(Lookup(Opened(p, t).value.columns, p.toSpec.columns[k].name).value.comment) == OpenedComment(p, k)
  {
    hide Matches, RenamesRun, EffectiveRenames, NewColumns;
    var c, added := p.toSpec.columns[k], NewColumns(p, p.toSpec.columns);
    AddedAreNew(p);
    NewColumnFacts(p, p.toSpec.columns);
    OpeningEffect(DuckDb, t, p.fromSpec, EffectiveRenames(p.columnRenames), added, c.name);
    AddedAre(p, c.name);
    if Unlisted(p, c.name) {
      var i :| 0 <= i < |added| && added[i].name == c.name;
    }
  }

  /** The comment a column of the target ends with. */
  lemma FinalComment(p: AlterParams, t: Table, k: nat)
    requires WellFormed(p) && Matches(t, p.fromSpec) && p.toSpec.columns != [] && RenamesFit(p)
      && k < |p.toSpec.columns|
    ensures ExecAll(DuckDb, t, Altered(p).statements).Some?
    ensures var c, final := p.toSpec.columns[k], ExecAll(DuckDb, t, Altered(p).statements).value;
            && Lookup(final.columns, c.name).Some?
            && Some(Lookup(final.columns, c.name).value.comment) ==
                 if CommentDiffers(p.fromSpec.columns, c) then Some(c.comment) else OpenedComment(p, k)
  {
    hide Matches, RenamesFit, EffectiveRenames, NewColumns, CommentDiffs, CommentDiffers, DropList, OpenedComment;
    var c := p.toSpec.columns[k];
    var opening := OpeningStatements(EffectiveRenames(p.columnRenames), NewColumns(p, p.toSpec.columns));
    FittingRenamesAccepted(p, t);
    OpenedCommentIs(p, t, k);
    ExecAllAppend(DuckDb, t, opening + DropStatements(DropList(p)), Forward(DiffChanges(p.fromSpec, p.toSpec)));
    ExecAllAppend(DuckDb, t, opening, DropStatements(DropList(p)));
    var t1 := Opened(p, t).value;
    FitMeansRun(p);
    OpeningNames(p, t, c.name);
    assert HasName(p.toSpec.columns, c.name);
    NotDropped(p, c.name);
    DropsEffect(DuckDb, t1, DropList(p), c.name);
    var t2 := ExecAll(DuckDb, t1, DropStatements(DropList(p))).value;
    DiffEffect(DuckDb, t2, p.fromSpec, p.toSpec, c.name);
    CommentDiffAt(p.fromSpec.columns, p.toSpec.columns, k, Lookup(t2.columns, c.name));
  }

  lemma FitMeansRun(p: AlterParams)
    requires RenamesFit(p)
    ensures RenamesRun(p.fromSpec.columns, EffectiveRenames(p.columnRenames))
  {
  }

  /**
   * What the comments need: an added column's comment is empty or not blank; any other either differs from the one the
   * old table has under that name, or is the one of the column that comes to have the name.
   */
  ghost predicate CommentsFit(p: AlterParams) {
    forall k :: 0 <= k < |p.toSpec.columns| ==> CommentFitsAt(p, k)
  }

  predicate CommentFitsAt(p: AlterParams, k: nat)
    requires k < |p.toSpec.columns|
  {
    var renames, from, c := EffectiveRenames(p.columnRenames), p.fromSpec.columns, p.toSpec.columns[k];
    if Unlisted(p, c.name) then c.comment == "" || !IsBlank(c.comment)
    else
      || CommentDiffers(from, c)
      || (Origin(renames, c.name).Some? && CommentUnder(from, Origin(renames, c.name).value) == Some(c.comment))
  }

  predicate HasTargetComment(p: AlterParams, final: Table, k: nat)
    requires k < |p.toSpec.columns|
  {
    Lookup(final.columns, p.toSpec.columns[k].name).Some?
    && Lookup(final.columns, p.toSpec.columns[k].name).value.comment == p.toSpec.columns[k].comment
  }

  /** The column that has the name after the renames is the one that had it before. */
  predicate IsKept(p: AlterParams, k: nat)
    requires k < |p.toSpec.columns|
  {
    var x := p.toSpec.columns[k].name;
    HasName(p.fromSpec.columns, x) && Origin(EffectiveRenames(p.columnRenames), x) == Some(x)
  }

  /**
   * The table comment and the comments of kept columns always reach the target; all column comments do exactly when
   * they fit.
   */
  lemma CommentsReachTargetIff(p: AlterParams, t: Table)
    requires WellFormed(p) && Matches(t, p.fromSpec) && p.toSpec.columns != [] && RenamesFit(p)
    ensures ExecAll(DuckDb, t, Altered(p).statements).Some?
    ensures var final := ExecAll(DuckDb, t, Altered(p).statements).value;
            && final.comment == p.toSpec.comment
            && (forall k :: 0 <= k < |p.toSpec.columns| && IsKept(p, k) ==> HasTargetComment(p, final, k))
            && ((forall k :: 0 <= k < |p.toSpec.columns| ==> HasTargetComment(p, final, k)) <==> CommentsFit(p))
  {
    hide WellFormed, Matches, RenamesFit, ExecAll, Altered, HasTargetComment, IsKept, CommentFitsAt;
    FittingRenamesAccepted(p, t);
    AcceptedNames(p, t, "");
    var final := ExecAll(DuckDb, t, Altered(p).statements).value;
    forall k | 0 <= k < |p.toSpec.columns|
      ensures IsKept(p, k) ==> HasTargetComment(p, final, k)
      ensures HasTargetComment(p, final, k) <==> CommentFitsAt(p, k)
    {
      CommentReachedIff(p, t, k);
    }
  }

  lemma CommentReachedIff(p: AlterParams, t: Table, k: nat)
    requires WellFormed(p) && Matches(t, p.fromSpec) && p.toSpec.columns != [] && RenamesFit(p)
      && k < |p.toSpec.columns|
    ensures ExecAll(DuckDb, t, Altered(p).statements).Some?
    ensures var final := ExecAll(DuckDb, t, Altered(p).statements).value;
            && (IsKept(p, k) ==> HasTargetComment(p, final, k))
            && (HasTargetComment(p, final, k) <==> CommentFitsAt(p, k))
  {
    hide Matches, RenamesFit, ExecAll, Altered, EffectiveRenames;
    FinalComment(p, t, k);
    NamedFacts(p.fromSpec.columns, p.toSpec.columns[k].name);
  }

  // ---------- the rollback list ----------

  predicate OnlyComments(statements: seq<Statement>) {
    forall i :: 0 <= i < |statements| ==> statements[i].CommentOnTable? || statements[i].CommentOnColumn?
  }

  lemma {:induction false} CommentsKeepNames(t: Table, statements: seq<Statement>, x: string)
    requires Distinct(t.columns) && OnlyComments(statements) && ExecAll(DuckDb, t, statements).Some?
    ensures Lookup(ExecAll(DuckDb, t, statements).value.columns, x).Some? <==> Lookup(t.columns, x).Some?
    decreases |statements|
  {
    if statements != [] {
      assert statements[0].CommentOnTable? || statements[0].CommentOnColumn?;
      ExecLookup(DuckDb, t, statements[0], x);
      CommentsKeepNames(Exec(DuckDb, t, statements[0]).value, statements[1..], x);
    }
  }

  lemma {:induction false} CommentUndoIsComments(comments: seq<CommentChange>)
    ensures OnlyComments(Rollback(CommentChanges(comments)))
    decreases |comments|
  {
    if comments != [] {
      CommentUndoIsComments(comments[..|comments| - 1]);
      var c := comments[|comments| - 1];
      var change := Change([CommentOnColumn(c.name, c.after)], [CommentOnColumn(c.name, c.before)]);
      OneChange(change);
      RollbackAppend(CommentChanges(comments[..|comments| - 1]), [change]);
    }
  }

  lemma RollbackIsComments(p: AlterParams)
    ensures OnlyComments(Rollback(DiffChanges(p.fromSpec, p.toSpec)))
  {
    var tableChanges := TableCommentChanges(p.fromSpec.comment, p.toSpec.comment);
    CommentUndoIsComments(CommentDiffs(p.fromSpec.columns, p.toSpec.columns));
    RollbackAppend(tableChanges, CommentChanges(CommentDiffs(p.fromSpec.columns, p.toSpec.columns)));
    if tableChanges != [] {
      OneChange(tableChanges[0]);
    }
  }

  lemma {:induction false} CommentsKeepPlaces(t: Table, statements: seq<Statement>)
    requires OnlyComments(statements) && ExecAll(DuckDb, t, statements).Some?
    ensures var t' := ExecAll(DuckDb, t, statements).value;
            && |t'.columns| == |t.columns|
            && forall i :: 0 <= i < |t.columns| ==> t'.columns[i].name == t.columns[i].name
    decreases |statements|
  {
    if statements != [] {
      assert statements[0].CommentOnTable? || statements[0].CommentOnColumn?;
      CommentsKeepPlaces(Exec(DuckDb, t, statements[0]).value, statements[1..]);
    }
  }

  lemma {:induction false} CommentsAreComments(comments: seq<CommentChange>)
    ensures OnlyComments(Forward(CommentChanges(comments)))
    decreases |comments|
  {
    if comments != [] {
      CommentsAreComments(comments[..|comments| - 1]);
    }
  }

  lemma ForwardDiffIsComments(p: AlterParams)
    ensures OnlyComments(Forward(DiffChanges(p.fromSpec, p.toSpec)))
  {
    var tableChanges := TableCommentChanges(p.fromSpec.comment, p.toSpec.comment);
    CommentsAreComments(CommentDiffs(p.fromSpec.columns, p.toSpec.columns));
    ForwardAppend(tableChanges, CommentChanges(CommentDiffs(p.fromSpec.columns, p.toSpec.columns)));
    if tableChanges != [] {
      OneChange(tableChanges[0]);
    }
  }

  /** Every column keeps its name through the renames; nothing is added and nothing is dropped. */
  predicate OnlyChangesComments(p: AlterParams) {
    var renames, from := EffectiveRenames(p.columnRenames), p.fromSpec.columns;
    && (forall i :: 0 <= i < |from| ==> Origin(renames, from[i].name) == Some(from[i].name))
    && NothingNew(p) && NothingGoes(p)
  }

  /** Renames that lead every name back to itself lead back to the table. */
  lemma RenamesComeBack(t: Table, spec: TableSpec, renames: seq<Rename>)
    requires Matches(t, spec) && DistinctSpecs(spec.columns)
    requires ExecAll(DuckDb, t, Forward(RenameChanges(renames))).Some?
    requires forall i :: 0 <= i < |spec.columns| ==> Origin(renames, spec.columns[i].name) == Some(spec.columns[i].name)
    ensures ExecAll(DuckDb, t, Forward(RenameChanges(renames))) == Some(t)
  {
    hide ExecAll;
    var t1 := ExecAll(DuckDb, t, Forward(RenameChanges(renames))).value;
    MatchedLookup(t, spec, "");
    RenamesEffect(DuckDb, t, renames, "");
    RenamesKeepPlaces(DuckDb, t, renames, "");
    forall i | 0 <= i < |t.columns| ensures t1.columns[i] == t.columns[i] {
      var x := t.columns[i].name;
      assert spec.columns[i].name == x;
      IndexIs(t.columns, i);
      RenamesEffect(DuckDb, t, renames, x);
      RenamesKeepPlaces(DuckDb, t, renames, x);
    }
    assert t1.columns == t.columns;
  }

  lemma NothingIsAddedOrDropped(p: AlterParams)
    requires WellFormed(p)
    ensures NewColumns(p, p.toSpec.columns) == [] && DropList(p) == [] <==> NothingNew(p) && NothingGoes(p)
  {
    NothingAddedIff(p);
    DropListIs(p);
  }

  lemma NothingElseRestores(p: AlterParams, t: Table)
    requires WellFormed(p) && Matches(t, p.fromSpec) && p.withRollback && OnlyChangesComments(p)
    requires ExecAll(DuckDb, t, Altered(p).statements).Some?
    ensures ExecAll(DuckDb, ExecAll(DuckDb, t, Altered(p).statements).value, Altered(p).rollback) == Some(t)
  {
    NothingIsAddedOrDropped(p);
    OnlyRenamesAndComments(p);
    assert WellFormed(p) ==> DistinctSpecs(p.fromSpec.columns) && DistinctSpecs(p.toSpec.columns);
    hide *;
    var renames := Forward(RenameChanges(EffectiveRenames(p.columnRenames)));
    ExecAllAppend(DuckDb, t, renames, Forward(DiffChanges(p.fromSpec, p.toSpec)));
    ComesBack(p, t);
    MatchedLookup(t, p.fromSpec, "");
    CommentsMatchAtStart(t, p.fromSpec, p.toSpec);
    DiffUndone(DuckDb, t, p.fromSpec, p.toSpec);
    UndoesMeans(t, DiffChanges(p.fromSpec, p.toSpec));
  }

  lemma UndoesMeans(t: Table, changes: seq<Change>)
    requires Undoes(DuckDb, t, changes) && ExecAll(DuckDb, t, Forward(changes)).Some?
    ensures ExecAll(DuckDb, ExecAll(DuckDb, t, Forward(changes)).value, Rollback(changes)) == Some(t)
  {
    hide ExecAll;
  }

  lemma OnlyRenamesAndComments(p: AlterParams)
    requires NewColumns(p, p.toSpec.columns) == [] && DropList(p) == []
    ensures Altered(p).statements ==
      Forward(RenameChanges(EffectiveRenames(p.columnRenames))) + Forward(DiffChanges(p.fromSpec, p.toSpec))
    ensures p.withRollback ==> Altered(p).rollback == Rollback(DiffChanges(p.fromSpec, p.toSpec))
  {
    hide RenameChanges, DiffChanges, EffectiveRenames;
    NothingToAdd();
    assert Forward(RenameChanges(EffectiveRenames(p.columnRenames))) + [] + DropStatements([])
      == Forward(RenameChanges(EffectiveRenames(p.columnRenames)));
  }

  lemma ComesBack(p: AlterParams, t: Table)
    requires WellFormed(p) && Matches(t, p.fromSpec) && OnlyChangesComments(p)
    requires ExecAll(DuckDb, t, Forward(RenameChanges(EffectiveRenames(p.columnRenames)))).Some?
    ensures ExecAll(DuckDb, t, Forward(RenameChanges(EffectiveRenames(p.columnRenames)))) == Some(t)
    ensures t.comment == p.fromSpec.comment
  {
    hide ExecAll, EffectiveRenames, NewColumns, DropList;
    RenamesComeBack(t, p.fromSpec, EffectiveRenames(p.columnRenames));
  }

  lemma CommentsMatchAtStart(t: Table, from: TableSpec, to: TableSpec)
    requires Matches(t, from) && DistinctSpecs(from.columns) && DistinctSpecs(to.columns)
    ensures CommentsMatch(t.columns, CommentDiffs(from.columns, to.columns)) && t.comment == from.comment
  {
    hide CommentDiffs, DistinctSpecs;
    DiffNamesDistinct(from.columns, to.columns);
    var diffs := CommentDiffs(from.columns, to.columns);
    forall i | 0 <= i < |diffs| && Lookup(t.columns, diffs[i].name).Some?
      ensures Lookup(t.columns, diffs[i].name).value.comment == diffs[i].before
    {
      DiffEntry(from.columns, to.columns, i);
      MatchedLookup(t, from, diffs[i].name);
    }
  }

  /** A restored table had nothing added, and therefore nothing dropped. */
  lemma RestoredAddsNothing(p: AlterParams, t: Table)
    requires WellFormed(p) && Matches(t, p.fromSpec) && p.withRollback
    requires ExecAll(DuckDb, t, Altered(p).statements).Some?
    requires ExecAll(DuckDb, ExecAll(DuckDb, t, Altered(p).statements).value, Altered(p).rollback) == Some(t)
    ensures NewColumns(p, p.toSpec.columns) == [] && DropList(p) == []
  {
    hide ExecAll, NewColumns, DropList, EffectiveRenames, Matches, OnlyComments, CommentDiffs;
    var final, added := ExecAll(DuckDb, t, Altered(p).statements).value, NewColumns(p, p.toSpec.columns);
    RollbackIsComments(p);
    CommentsKeepPlaces(final, Altered(p).rollback);
    if added != [] {
      var x := added[0].name;
      NewColumnEntry(p, p.toSpec.columns, 0);
      assert IsAdded(added, x);
      NotDropped(p, x);
      AcceptedNames(p, t, x);
      MatchedLookup(t, p.fromSpec, x);
      StaysDistinct(DuckDb, t, Altered(p).statements);
      CommentsKeepNames(final, Altered(p).rollback, x);
    }
    AlteredCounts(p, t);
  }

  lemma AlteredCounts(p: AlterParams, t: Table)
    requires ExecAll(DuckDb, t, Altered(p).statements).Some?
    ensures |ExecAll(DuckDb, t, Altered(p).statements).value.columns|
      == |t.columns| + |NewColumns(p, p.toSpec.columns)| - |DropList(p)|
  {
    hide ExecAll, Forward, NewColumns, EffectiveRenames, DropList, CommentDiffs, Balance;
    var renames, added := EffectiveRenames(p.columnRenames), NewColumns(p, p.toSpec.columns);
    var r, a, d := Forward(RenameChanges(renames)), Forward(AddChanges(added)), DropStatements(DropList(p));
    var c := Forward(DiffChanges(p.fromSpec, p.toSpec));
    RenamesCountNothing(renames);
    AddsCount(added);
    DropsBalance(DropList(p));
    DiffBalance(p.fromSpec, p.toSpec);
    BalanceAppend(r, a);
    BalanceAppend(r + a, d);
    BalanceAppend(r + a + d, c);
    ExecCounts(DuckDb, t, Altered(p).statements);
  }

  /** A restored table had every name where it was. */
  lemma RestoredKeepsNames(p: AlterParams, t: Table, i: nat)
    requires WellFormed(p) && Matches(t, p.fromSpec) && p.withRollback && i < |p.fromSpec.columns|
    requires ExecAll(DuckDb, t, Altered(p).statements).Some?
    requires ExecAll(DuckDb, ExecAll(DuckDb, t, Altered(p).statements).value, Altered(p).rollback) == Some(t)
    ensures Origin(EffectiveRenames(p.columnRenames), p.fromSpec.columns[i].name) == Some(p.fromSpec.columns[i].name)
  {
    hide ExecAll, NewColumns, DropList, EffectiveRenames, OnlyComments, CommentDiffs, Forward, AddChanges;
    var renames, diff := EffectiveRenames(p.columnRenames), Forward(DiffChanges(p.fromSpec, p.toSpec));
    var rename := Forward(RenameChanges(renames));
    RestoredAddsNothing(p, t);
    OnlyRenamesAndComments(p);
    ExecAllAppend(DuckDb, t, rename, diff);
    var t1, final := ExecAll(DuckDb, t, rename).value, ExecAll(DuckDb, t, Altered(p).statements).value;
    ForwardDiffIsComments(p);
    CommentsKeepPlaces(t1, diff);
    RollbackIsComments(p);
    CommentsKeepPlaces(final, Altered(p).rollback);
    var x := t.columns[i].name;
    MatchedLookup(t, p.fromSpec, x);
    RenamesEffect(DuckDb, t, renames, x);
    IndexIs(t1.columns, i);
    RenamesKeepPlaces(DuckDb, t, renames, x);
  }

  lemma NothingToAdd()
    ensures Forward(AddChanges([])) == []
  {
  }

  /**
   * Rollback covers comments only: it restores the table exactly when the forward list left every name in its place,
   * added nothing and dropped nothing.
   */
  lemma RollbackRestoresIff(p: AlterParams, t: Table)
    requires WellFormed(p) && Matches(t, p.fromSpec) && p.withRollback
    requires ExecAll(DuckDb, t, Altered(p).statements).Some?
    ensures ExecAll(DuckDb, ExecAll(DuckDb, t, Altered(p).statements).value, Altered(p).rollback) == Some(t)
            <==> OnlyChangesComments(p)
  {
    hide ExecAll, Altered, Matches, WellFormed, EffectiveRenames, NewColumns, DropList;
    if OnlyChangesComments(p) {
      NothingElseRestores(p, t);
    } else if ExecAll(DuckDb, ExecAll(DuckDb, t, Altered(p).statements).value, Altered(p).rollback) == Some(t) {
      RestoredAddsNothing(p, t);
      NothingIsAddedOrDropped(p);
      forall i | 0 <= i < |p.fromSpec.columns|
        ensures Origin(EffectiveRenames(p.columnRenames), p.fromSpec.columns[i].name)
          == Some(p.fromSpec.columns[i].name)
      {
        RestoredKeepsNames(p, t, i);
      }
    }
  }

  // ---------- an input that fails both ----------

  function IntColumn(name: string, comment: string): ColumnSpec {
    ColumnSpec(name, "INT", true, None, false, false, false, comment)
  }

  function OneColumn(name: string, comment: string): TableSpec {
    TableSpec(None, None, "t", [IntColumn(name, comment)], "")
  }

  const EXAMPLE := AlterParams(OneColumn("a", ""), OneColumn("b", "new"), [Rename("a", "b")], false, true)
  const EXAMPLE_TABLE := Table("", [Column("a", "INT", "")])

  lemma ExampleRenames()
    ensures EffectiveRenames(EXAMPLE.columnRenames) == [Rename("a", "b")]
  {
    assert !IsSpace("a"[0]) && !IsSpace("b"[0]);
    assert IsEffective(Rename("a", "b"));
    assert EXAMPLE.columnRenames[..0] == [] && EffectiveRenames([]) == [];
  }

  lemma ExampleIsWellFormed()
    ensures WellFormed(EXAMPLE) && Matches(EXAMPLE_TABLE, EXAMPLE.fromSpec) && RenamesFit(EXAMPLE)
    ensures !OnlyChangesComments(EXAMPLE) && !CommentFitsAt(EXAMPLE, 0)
  {
    ExampleRenames();
    hide EffectiveRenames, IsEffective, NewColumns;
    var from := EXAMPLE.fromSpec.columns;
    assert from[0].name == "a" && EXAMPLE.toSpec.columns[0].name == "b";
    assert Rename("a", "b").newName == EXAMPLE.toSpec.columns[0].name;
    NamedFacts(from, "a");
    assert LastNamed(from, "a").value == from[0] && from[0].comment == "";
    assert EXAMPLE.toSpec.columns[0].comment == "new" != "";
    var renames := EffectiveRenames(EXAMPLE.columnRenames);
    assert renames[0].newName == "b" && renames[0].oldName == "a";
  }

  /**
   * One column `a`, renamed to `b` with a new comment: the list runs, the comment stays empty, and the rollback list
   * does not bring the table back.
   */
  lemma RenamedCommentExample()
    ensures WellFormed(EXAMPLE) && Matches(EXAMPLE_TABLE, EXAMPLE.fromSpec) && RenamesFit(EXAMPLE)
    ensures ExecAll(DuckDb, EXAMPLE_TABLE, Altered(EXAMPLE).statements).Some?
    ensures var final := ExecAll(DuckDb, EXAMPLE_TABLE, Altered(EXAMPLE).statements).value;
            && !HasTargetComment(EXAMPLE, final, 0)
            && ExecAll(DuckDb, final, Altered(EXAMPLE).rollback) != Some(EXAMPLE_TABLE)
  {
    hide WellFormed, RenamesFit, OnlyChangesComments, CommentFitsAt, Matches, ExecAll, Altered, HasTargetComment;
    ExampleIsWellFormed();
    CommentReachedIff(EXAMPLE, EXAMPLE_TABLE, 0);
    RollbackRestoresIff(EXAMPLE, EXAMPLE_TABLE);
  }

  // ---------- a chain of renames ----------

  /** `a` becomes `c` and `b` becomes `a`; the comments of the target are those the old table has under those names. */
  const CHAIN := AlterParams(
    TableSpec(None, None, "t", [IntColumn("a", "x"), IntColumn("b", "z")], ""),
    TableSpec(None, None, "t", [IntColumn("c", "x"), IntColumn("a", "x")], ""),
    [Rename("a", "c"), Rename("b", "a")], true, true)
  const CHAIN_TABLE := Table("", [Column("a", "INT", "x"), Column("b", "INT", "z")])

  lemma ChainRenames()
    ensures EffectiveRenames(CHAIN.columnRenames) == [Rename("a", "c"), Rename("b", "a")]
  {
    assert !IsSpace("a"[0]) && !IsSpace("b"[0]) && !IsSpace("c"[0]);
    assert IsEffective(Rename("a", "c")) && IsEffective(Rename("b", "a"));
    assert CHAIN.columnRenames[..1] == [Rename("a", "c")] && CHAIN.columnRenames[..1][..0] == [];
    assert EffectiveRenames([Rename("a", "c")]) == [Rename("a", "c")];
  }

  lemma ChainNames()
    ensures var from, to := CHAIN.fromSpec.columns, CHAIN.toSpec.columns;
            && HasName(from, "a") && HasName(from, "b") && !HasName(from, "c")
            && HasName(to, "a") && !HasName(to, "b") && HasName(to, "c")
            && CommentUnder(from, "a") == Some("x") && CommentUnder(from, "b") == Some("z")
            && LastNamed(from, "c").None?
  {
    var from, to := CHAIN.fromSpec.columns, CHAIN.toSpec.columns;
    assert from[0].name == "a" && from[1].name == "b" && to[0].name == "c" && to[1].name == "a";
    assert from[..1] == [from[0]] && from[..1][..0] == [];
  }

  lemma ChainOrigins()
    ensures var renames := [Rename("a", "c"), Rename("b", "a")];
            && Origin(renames, "a") == Some("b") && Origin(renames, "c") == Some("a") && Origin(renames, "b") == None
            && Origin(renames[..1], "b") == Some("b") && Origin(renames[..1], "a") == None
            && Origin(renames[..0], "a") == Some("a") && Origin(renames[..0], "c") == Some("c")
  {
    var renames := [Rename("a", "c"), Rename("b", "a")];
    assert renames[..1] == [Rename("a", "c")] && renames[..1][..0] == [] && renames[..0] == [];
  }

  lemma ChainFits()
    ensures WellFormed(CHAIN) && Matches(CHAIN_TABLE, CHAIN.fromSpec) && RenamesFit(CHAIN)
    ensures !CommentFitsAt(CHAIN, 1)
  {
    hide EffectiveRenames, Origin, LastNamed, HasName;
    var from, to, renames := CHAIN.fromSpec.columns, CHAIN.toSpec.columns, EffectiveRenames(CHAIN.columnRenames);
    ChainRenames();
    ChainNames();
    ChainOrigins();
    assert from[0].name == "a" && from[1].name == "b" && to[0].name == "c" && to[1].name == "a";
    assert RenamesRun(from, renames) by {
      assert RenameRuns(from, renames[..0], renames[0]) && RenameRuns(from, renames[..1], renames[1]);
    }
    assert to[1].comment == "x" != "z";
  }

  /** Chained renames reach the target's columns; the column that becomes `a` keeps the comment it had as `b`. */
  lemma ChainReachesTarget()
    ensures WellFormed(CHAIN) && Matches(CHAIN_TABLE, CHAIN.fromSpec)
    ensures forall x :: ReachesTargetAt(CHAIN, CHAIN_TABLE, x)
    ensures ExecAll(DuckDb, CHAIN_TABLE, Altered(CHAIN).statements).Some?
            && !HasTargetComment(CHAIN, ExecAll(DuckDb, CHAIN_TABLE, Altered(CHAIN).statements).value, 1)
  {
    assert CHAIN.allowDestructive && |CHAIN.toSpec.columns| == 2;
    hide *;
    ChainFits();
    ReachesTargetIff(CHAIN, CHAIN_TABLE);
    CommentReachedIff(CHAIN, CHAIN_TABLE, 1);
  }
}
