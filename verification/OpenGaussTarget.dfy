/**
 * Where the openGauss plan leads: which requests it refuses, which columns the table ends with, how they are defined
 * and which comments they have - each told from the request alone.
 */
module OpenGaussTarget {
  import opened Wrappers
  import opened Text
  import opened AlterTable
  import opened AlterPlan
  import opened CommentDiff
  import opened AlterNames
  import opened AlterSql
  import opened AlterDefinitions
  import opened OpenGaussDdl

  // ---------- the renames that count ----------

  lemma {:induction false} AllEffective(renames: seq<Rename>)
    requires forall i :: 0 <= i < |renames| ==> !IsBlank(renames[i].oldName) && !IsBlank(renames[i].newName)
    ensures EffectiveRenames(renames) == renames
    decreases |renames|
  {
    hide IsBlank;
    if renames != [] {
      var front := renames[..|renames| - 1];
      AllEffective(front);
      assert renames == front + [renames[|renames| - 1]];
    }
  }

  /** A rename with a blank name makes no difference; all others count, in order. */
  lemma {:induction false} BlankRenameIsSkipped(a: seq<Rename>, r: Rename, b: seq<Rename>)
    requires IsBlank(r.oldName) || IsBlank(r.newName)
    ensures EffectiveRenames(a + [r] + b) == EffectiveRenames(a + b)
    decreases |b|
  {
    hide IsBlank;
    if b == [] {
      assert (a + [r] + b)[..|a|] == a && a + b == a;
    } else {
      var front, last := b[..|b| - 1], b[|b| - 1];
      BlankRenameIsSkipped(a, r, front);
      assert (a + [r] + b)[..|a + [r] + b| - 1] == a + [r] + front && (a + b)[..|a + b| - 1] == a + front;
    }
  }

  // ---------- definitions ----------

  /** What the specification asks of a column beside its type. */
  function ClausesOf(c: ColumnSpec): Clauses {
    Clauses(c.autoIncrement, !c.nullable,
      if c.defaultValue.Some? && !IsBlank(c.defaultValue.value) then c.defaultValue else None,
      if c.isUnique && !c.isPrimary then Unique else NoKey)
  }

  /**
   * A column has a definition exactly when it has a name and a type. Identity, NOT NULL, default and uniqueness read
   * back from it exactly when the default does not pass for a key word at the end.
   */
  lemma DefinitionReadsBack(c: ColumnSpec)
    ensures Definition(c).Ok? <==> !IsBlank(c.name) && !IsBlank(c.typeStr)
    ensures Definition(c).Ok? ==>
              (ReadDefinition(c.typeStr, Definition(c).value) == Some(ClausesOf(c)) <==> Unmistakable(ClausesOf(c)))
  {
    hide ReadDefinition, Unmistakable;
    if Definition(c).Ok? {
      DefinitionIs(c);
      DefinitionReadsBackIff(c.typeStr, ClausesOf(c));
    }
  }

  lemma DefinitionIs(c: ColumnSpec)
    requires Definition(c).Ok?
    ensures Definition(c).value == c.typeStr + ClausesText(ClausesOf(c))
  {
    var identity := if c.autoIncrement then " GENERATED BY DEFAULT AS IDENTITY" else "";
    var notNull := if c.nullable then "" else " NOT NULL";
    var default := DefaultText(ClausesOf(c).defaultValue);
    var unique := if c.isUnique && !c.isPrimary then " UNIQUE" else "";
    assert Definition(c).value == c.typeStr + identity + notNull + default + unique;
    FiveParts(c.typeStr, identity, notNull, default, unique);
    assert ClausesText(ClausesOf(c)) == identity + (notNull + (default + unique));
  }

  lemma FiveParts(a: string, b: string, c: string, d: string, e: string)
    ensures a + b + c + d + e == a + (b + (c + (d + e)))
  {
  }

  // ---------- what is added ----------

  lemma {:induction false} AddedAre(p: AlterParams, columns: seq<ColumnSpec>, k: nat)
    requires NewColumns(p, columns).Ok? && k < |columns| && Unlisted(p, columns[k].name)
    ensures Definition(columns[k]).Ok?
    ensures NewColumn(columns[k].name, Definition(columns[k]).value, columns[k].comment) in NewColumns(p, columns).value
    decreases |columns|
  {
    hide Definition;
    if k < |columns| - 1 {
      AddedAre(p, columns[..|columns| - 1], k);
    }
  }

  /** A column to add that has no name or no type. */
  predicate Undefined(p: AlterParams, c: ColumnSpec) {
    Unlisted(p, c.name) && (IsBlank(c.name) || IsBlank(c.typeStr))
  }

  predicate FirstUndefined(p: AlterParams, columns: seq<ColumnSpec>, k: nat) {
    k < |columns| && Undefined(p, columns[k]) && forall i :: 0 <= i < k ==> !Undefined(p, columns[i])
  }

  function ErrorFor(c: ColumnSpec): DdlError {
    if IsBlank(c.name) then ColumnNameRequired else ColumnTypeRequired(c.name)
  }

  lemma UndefinedIff(p: AlterParams, c: ColumnSpec)
    ensures IsNew(p, c) <==> Unlisted(p, c.name)
    ensures Undefined(p, c) <==> IsNew(p, c) && Definition(c).Err?
    ensures Undefined(p, c) ==> Definition(c) == Err(ErrorFor(c))
  {
  }

  lemma {:induction false} FirstError(p: AlterParams, columns: seq<ColumnSpec>, k: nat)
    ensures NewColumns(p, columns).Ok? <==> forall i :: 0 <= i < |columns| ==> !Undefined(p, columns[i])
    ensures FirstUndefined(p, columns, k) ==> NewColumns(p, columns) == Err(ErrorFor(columns[k]))
    decreases |columns|
  {
    hide Undefined, Definition, IsNew, ErrorFor;
    if columns != [] {
      var n := |columns| - 1;
      FirstError(p, columns[..n], k);
      UndefinedIff(p, columns[n]);
      assert forall i :: 0 <= i < n ==> columns[..n][i] == columns[i];
    }
  }

  /** A request is refused exactly when a column it adds has no name or no type, with the error of the first of them. */
  lemma RefusedIff(p: AlterParams, k: nat)
    ensures Planned(p).Ok? <==> forall i :: 0 <= i < |p.toSpec.columns| ==> !Undefined(p, p.toSpec.columns[i])
    ensures FirstUndefined(p, p.toSpec.columns, k) ==> Planned(p) == Err(ErrorFor(p.toSpec.columns[k]))
  {
    hide NewColumns, Undefined, Altered, FirstUndefined, ErrorFor;
    FirstError(p, p.toSpec.columns, k);
  }

  // ---------- the final table ----------

  lemma AddedExactly(p: AlterParams, added: seq<NewColumn>, x: string)
    requires WellFormed(p) && NewColumns(p, p.toSpec.columns) == Ok(added)
    ensures IsAdded(added, x) <==> HasName(p.toSpec.columns, x) && Unlisted(p, x)
  {
    hide Definition;
    NewColumnFacts(p, p.toSpec.columns);
    if HasName(p.toSpec.columns, x) && Unlisted(p, x) {
      var k :| 0 <= k < |p.toSpec.columns| && p.toSpec.columns[k].name == x;
      AddedAre(p, p.toSpec.columns, k);
      var c := NewColumn(x, Definition(p.toSpec.columns[k]).value, p.toSpec.columns[k].comment);
      var i :| 0 <= i < |added| && added[i] == c;
      assert added[i].name == x;
    }
  }

  /** After an accepted list the table has a name exactly when it stands and does not go, or is new. */
  predicate InFinalTable(p: AlterParams, x: string) {
    || (Stands(p.fromSpec.columns, EffectiveRenames(p.columnRenames), x) && !Goes(p, x))
    || (HasName(p.toSpec.columns, x) && Unlisted(p, x))
  }

  /** What is behind a name before the comments are set. */
  lemma BeforeComments(p: AlterParams, t: Table, added: seq<NewColumn>, x: string) returns (t2: Table)
    requires WellFormed(p) && Matches(t, p.fromSpec) && NewColumns(p, p.toSpec.columns) == Ok(added)
    requires ExecAll(OpenGauss, t, Altered(p, added).statements).Some?
    ensures RenamesRun(p.fromSpec.columns, EffectiveRenames(p.columnRenames))
    ensures Distinct(t2.columns) && t2.comment == p.fromSpec.comment
    ensures ExecAll(OpenGauss, t2, Forward(DiffChanges(p.fromSpec, p.toSpec)))
      == ExecAll(OpenGauss, t, Altered(p, added).statements)
    ensures ExecAll(OpenGauss, t, OpeningStatements(EffectiveRenames(p.columnRenames), added)).Some?
    ensures Lookup(t2.columns, x) == if Goes(p, x) then None
      else Lookup(ExecAll(OpenGauss, t, OpeningStatements(EffectiveRenames(p.columnRenames), added)).value.columns, x)
  {
    hide Matches, ExecAll, NewColumns, Goes, DropList;
    var opening := OpeningStatements(EffectiveRenames(p.columnRenames), added);
    ForwardAcceptedIff(p, t, added);
    StandIncludesRuns(p);
    AddedAreNew(p, added);
    OpeningEffect(OpenGauss, t, p.fromSpec, EffectiveRenames(p.columnRenames), added, x);
    var drops := DropStatements(DropList(p));
    ExecAllAppend(OpenGauss, t, opening + drops, Forward(DiffChanges(p.fromSpec, p.toSpec)));
    ExecAllAppend(OpenGauss, t, opening, drops);
    DropListIs(p);
    var t1 := ExecAll(OpenGauss, t, opening).value;
    DropsEffect(OpenGauss, t1, DropList(p), x);
    t2 := ExecAll(OpenGauss, t1, drops).value;
  }

  lemma FinalNames(p: AlterParams, t: Table, added: seq<NewColumn>, x: string)
    requires WellFormed(p) && Matches(t, p.fromSpec) && NewColumns(p, p.toSpec.columns) == Ok(added)
    requires ExecAll(OpenGauss, t, Altered(p, added).statements).Some?
    ensures var final := ExecAll(OpenGauss, t, Altered(p, added).statements).value;
      final.comment == p.toSpec.comment && (Lookup(final.columns, x).Some? <==> InFinalTable(p, x))
  {
    hide Matches, ExecAll, NewColumns, Altered, RenamesRun, DiffChanges, Unlisted, Stands;
    var t2 := BeforeComments(p, t, added, x);
    AddedAreNew(p, added);
    OpeningEffect(OpenGauss, t, p.fromSpec, EffectiveRenames(p.columnRenames), added, x);
    AddedExactly(p, added, x);
    DiffEffect(OpenGauss, t2, p.fromSpec, p.toSpec, x);
    CommentedPresence(CommentDiffs(p.fromSpec.columns, p.toSpec.columns), Lookup(t2.columns, x), x);
    NewIsNotOld(p, x);
  }

  lemma NewIsNotOld(p: AlterParams, x: string)
    ensures Unlisted(p, x) ==> !Goes(p, x)
  {
  }

  /** The list is accepted, and the table then has the name exactly when the target has it. */
  predicate ReachesTargetAt(p: AlterParams, t: Table, added: seq<NewColumn>, x: string) {
    var final := ExecAll(OpenGauss, t, Altered(p, added).statements);
    final.Some? && (Lookup(final.value.columns, x).Some? <==> HasName(p.toSpec.columns, x))
  }

  /**
   * The renames leave the names the target needs: each of its columns is new or stands after them, and a name that
   * stands without being in the target is one that goes.
   */
  predicate TargetFits(p: AlterParams) {
    var renames, from, to := EffectiveRenames(p.columnRenames), p.fromSpec.columns, p.toSpec.columns;
    && (forall k :: 0 <= k < |to| ==> Unlisted(p, to[k].name) || Stands(from, renames, to[k].name))
    && (forall i :: 0 <= i < |from| && Stands(from, renames, from[i].name) ==>
          HasName(to, from[i].name) || p.allowDestructive)
    && (forall i :: 0 <= i < |renames| && Stands(from, renames, renames[i].newName) ==>
          HasName(to, renames[i].newName) || (p.allowDestructive && HasName(from, renames[i].newName)))
  }

  lemma StandingIsNamed(from: seq<ColumnSpec>, renames: seq<Rename>, x: string)
    requires Stands(from, renames, x) && !IsTarget(renames, x)
    ensures HasName(from, x)
  {
    OriginUntouched(renames, x);
  }

  lemma FinalIsTargetIff(p: AlterParams)
    requires WellFormed(p)
    ensures (forall x :: InFinalTable(p, x) <==> HasName(p.toSpec.columns, x)) <==> TargetFits(p)
  {
    hide Stands, EffectiveRenames, Unlisted;
    var renames, from, to := EffectiveRenames(p.columnRenames), p.fromSpec.columns, p.toSpec.columns;
    if TargetFits(p) {
      forall x ensures InFinalTable(p, x) <==> HasName(to, x) {
        if HasName(to, x) {
          var k :| 0 <= k < |to| && to[k].name == x;
        } else if Stands(from, renames, x) {
          if IsTarget(renames, x) {
            var i :| 0 <= i < |renames| && renames[i].newName == x;
          } else {
            StandingIsNamed(from, renames, x);
            var i :| 0 <= i < |from| && from[i].name == x;
          }
        }
      }
    }
    if forall x :: InFinalTable(p, x) <==> HasName(to, x) {
      forall k | 0 <= k < |to| ensures Unlisted(p, to[k].name) || Stands(from, renames, to[k].name) {
        assert HasName(to, to[k].name);
        assert InFinalTable(p, to[k].name);
      }
      forall i | 0 <= i < |from| && Stands(from, renames, from[i].name)
        ensures HasName(to, from[i].name) || p.allowDestructive
      {
        assert InFinalTable(p, from[i].name) <==> HasName(to, from[i].name);
      }
      forall i | 0 <= i < |renames| && Stands(from, renames, renames[i].newName)
        ensures HasName(to, renames[i].newName) || (p.allowDestructive && HasName(from, renames[i].newName))
      {
        assert InFinalTable(p, renames[i].newName) <==> HasName(to, renames[i].newName);
      }
    }
  }

  /**
   * The forward list takes a matching table to exactly the target's columns if and only if it is accepted and the
   * renames leave the names the target needs.
   */
  lemma ReachesTargetIff(p: AlterParams, t: Table, added: seq<NewColumn>)
    requires WellFormed(p) && Matches(t, p.fromSpec) && NewColumns(p, p.toSpec.columns) == Ok(added)
    ensures (forall x :: ReachesTargetAt(p, t, added, x)) <==> NamesStand(p) && TargetFits(p)
  {
    hide WellFormed, Matches, ExecAll, Altered, InFinalTable, HasName, NamesStand, TargetFits, NewColumns;
    ForwardAcceptedIff(p, t, added);
    FinalIsTargetIff(p);
    if NamesStand(p) {
      forall x ensures ReachesTargetAt(p, t, added, x) <==> (InFinalTable(p, x) <==> HasName(p.toSpec.columns, x)) {
        FinalNames(p, t, added, x);
      }
    } else {
      assert !ReachesTargetAt(p, t, added, "");
    }
  }

  /** Without renames that is: whatever the target lacks may be dropped. */
  lemma ReachesTargetWithoutRenames(p: AlterParams, t: Table, added: seq<NewColumn>)
    requires WellFormed(p) && Matches(t, p.fromSpec) && NewColumns(p, p.toSpec.columns) == Ok(added)
    requires p.columnRenames == []
    ensures ExecAll(OpenGauss, t, Altered(p, added).statements).Some?
    ensures (forall x :: ReachesTargetAt(p, t, added, x)) <==>
      || p.allowDestructive
      || forall i :: 0 <= i < |p.fromSpec.columns| ==> HasName(p.toSpec.columns, p.fromSpec.columns[i].name)
  {
    hide WellFormed, Matches, ExecAll, Altered, NewColumns, ReachesTargetAt;
    EachStandsAlone(p);
    ReachesTargetIff(p, t, added);
    ForwardAcceptedIff(p, t, added);
  }

  lemma EachStandsAlone(p: AlterParams)
    requires p.columnRenames == []
    ensures NamesStand(p)
    ensures TargetFits(p) <==>
      || p.allowDestructive
      || forall i :: 0 <= i < |p.fromSpec.columns| ==> HasName(p.toSpec.columns, p.fromSpec.columns[i].name)
  {
    var from, to := p.fromSpec.columns, p.toSpec.columns;
    assert EffectiveRenames([]) == [];
    forall x ensures Stands(from, [], x) <==> HasName(from, x) {
    }
    forall k | 0 <= k < |to| && CommentDiffers(from, to[k]) ensures HasName(from, to[k].name) {
      NamedFacts(from, to[k].name);
    }
  }

  // ---------- columns and comments ----------

  /** A new column ends with its own definition; one that stands keeps the definition of its origin. */
  lemma FinalColumn(p: AlterParams, t: Table, added: seq<NewColumn>, k: nat)
    requires WellFormed(p) && Matches(t, p.fromSpec) && NewColumns(p, p.toSpec.columns) == Ok(added)
    requires ExecAll(OpenGauss, t, Altered(p, added).statements).Some?
    requires k < |p.toSpec.columns| && InFinalTable(p, p.toSpec.columns[k].name)
    ensures var final, c := ExecAll(OpenGauss, t, Altered(p, added).statements).value, p.toSpec.columns[k];
      var col := Lookup(final.columns, c.name);
      && col.Some?
      && (Unlisted(p, c.name) ==>
            Definition(c) == Ok(col.value.definition) && col.value.comment == AddedComment(c.comment))
      && (!Unlisted(p, c.name) ==>
            var y := Origin(EffectiveRenames(p.columnRenames), c.name);
            && y.Some? && Lookup(t.columns, y.value).Some?
            && col.value.definition == Lookup(t.columns, y.value).value.definition
            && Some(col.value.comment) ==
              if CommentDiffers(p.fromSpec.columns, c) then Some(c.comment)
              else CommentUnder(p.fromSpec.columns, y.value))
  {
    hide Matches, ExecAll, NewColumns, Altered, RenamesRun, DiffChanges, Definition, CommentDiffers, CommentDiffs,
         EffectiveRenames;
    var c := p.toSpec.columns[k];
    assert HasName(p.toSpec.columns, c.name);
    var t2 := BeforeComments(p, t, added, c.name);
    AddedAreNew(p, added);
    OpeningEffect(OpenGauss, t, p.fromSpec, EffectiveRenames(p.columnRenames), added, c.name);
    AddedExactly(p, added, c.name);
    DiffEffect(OpenGauss, t2, p.fromSpec, p.toSpec, c.name);
    CommentDiffAt(p.fromSpec.columns, p.toSpec.columns, k, Lookup(t2.columns, c.name));
    if Unlisted(p, c.name) {
      AddedAre(p, p.toSpec.columns, k);
      var i :| 0 <= i < |added| && added[i] == NewColumn(c.name, Definition(c).value, c.comment);
      NewHasNoOldComment(p, c);
    }
  }

  lemma NewHasNoOldComment(p: AlterParams, c: ColumnSpec)
    requires Unlisted(p, c.name)
    ensures !CommentDiffers(p.fromSpec.columns, c)
  {
    NamedFacts(p.fromSpec.columns, c.name);
  }

  predicate HasTargetComment(p: AlterParams, final: Table, k: nat)
    requires k < |p.toSpec.columns|
  {
    var col := Lookup(final.columns, p.toSpec.columns[k].name);
    col.Some? && col.value.comment == p.toSpec.columns[k].comment
  }

  /**
   * A new column's comment is empty or not blank; any other differs from the one the old table has under that name, or
   * is the one of the column that comes to have the name.
   */
  predicate CommentFitsAt(p: AlterParams, k: nat)
    requires k < |p.toSpec.columns|
  {
    var renames, from, c := EffectiveRenames(p.columnRenames), p.fromSpec.columns, p.toSpec.columns[k];
    if Unlisted(p, c.name) then c.comment == "" || !IsBlank(c.comment)
    else
      || CommentDiffers(from, c)
      || (Origin(renames, c.name).Some? && CommentUnder(from, Origin(renames, c.name).value) == Some(c.comment))
  }

  /** After an accepted list the table comment is the target's, and so is a column's comment exactly when it fits. */
  lemma CommentsReachTargetIff(p: AlterParams, t: Table, added: seq<NewColumn>, k: nat)
    requires WellFormed(p) && Matches(t, p.fromSpec) && NewColumns(p, p.toSpec.columns) == Ok(added)
    requires ExecAll(OpenGauss, t, Altered(p, added).statements).Some? && k < |p.toSpec.columns|
    ensures var final := ExecAll(OpenGauss, t, Altered(p, added).statements).value;
      final.comment == p.toSpec.comment && (HasTargetComment(p, final, k) <==> CommentFitsAt(p, k))
  {
    hide Matches, ExecAll, NewColumns, Altered, RenamesRun, EffectiveRenames, Definition;
    var c, from, renames := p.toSpec.columns[k], p.fromSpec.columns, EffectiveRenames(p.columnRenames);
    FinalNames(p, t, added, c.name);
    assert HasName(p.toSpec.columns, c.name);
    if InFinalTable(p, c.name) {
      FinalColumn(p, t, added, k);
    } else {
      ForwardAcceptedIff(p, t, added);
      if Origin(renames, c.name).Some? {
        NamedFacts(from, Origin(renames, c.name).value);
      }
    }
  }

  // ---------- the rest of the answer ----------

  /** The names of the columns a list drops. */
  function DroppedNames(statements: seq<Statement>): seq<string> {
    if statements == [] then []
    else
      DroppedNames(statements[..|statements| - 1]) +
      match statements[|statements| - 1] { case DropColumn(n) => [n] case _ => [] }
  }

  lemma {:induction false} DroppedAppend(a: seq<Statement>, b: seq<Statement>)
    ensures DroppedNames(a + b) == DroppedNames(a) + DroppedNames(b)
    decreases |b|
  {
    if b == [] {
      assert a + b == a;
    } else {
      DroppedAppend(a, b[..|b| - 1]);
      assert (a + b)[..|a + b| - 1] == a + b[..|b| - 1];
    }
  }

  lemma {:induction false} DropsAreDropped(drops: seq<string>)
    ensures DroppedNames(DropStatements(drops)) == drops
    decreases |drops|
  {
    if drops != [] {
      var front := drops[..|drops| - 1];
      DropsAreDropped(front);
      var all := DropStatements(drops);
      assert all == DropStatements(front) + [DropColumn(drops[|drops| - 1])];
      assert all[..|all| - 1] == DropStatements(front);
    }
  }

  predicate NoDrops(statements: seq<Statement>) {
    forall i :: 0 <= i < |statements| ==> !statements[i].DropColumn?
  }

  lemma {:induction false} NothingDropped(statements: seq<Statement>)
    requires NoDrops(statements)
    ensures DroppedNames(statements) == []
    decreases |statements|
  {
    if statements != [] {
      NothingDropped(statements[..|statements| - 1]);
    }
  }

  lemma {:induction false} WarningsAre(drops: seq<string>)
    ensures |DropWarnings(drops)| == |drops|
    ensures forall i :: 0 <= i < |drops| ==> DropWarnings(drops)[i] == "drop column may lose data: " + drops[i]
    decreases |drops|
  {
    if drops != [] {
      WarningsAre(drops[..|drops| - 1]);
    }
  }

  lemma {:induction false} RenamesDropNothing(renames: seq<Rename>)
    ensures NoDrops(Forward(RenameChanges(renames)))
    decreases |renames|
  {
    if renames != [] {
      RenamesDropNothing(renames[..|renames| - 1]);
    }
  }

  lemma {:induction false} AddsDropNothing(added: seq<NewColumn>)
    ensures NoDrops(Forward(AddChanges(added)))
    decreases |added|
  {
    if added != [] {
      AddsDropNothing(added[..|added| - 1]);
    }
  }

  lemma {:induction false} CommentsDropNothing(comments: seq<CommentChange>)
    ensures NoDrops(Forward(CommentChanges(comments)))
    decreases |comments|
  {
    if comments != [] {
      CommentsDropNothing(comments[..|comments| - 1]);
    }
  }

  lemma TableDropsNothing(before: string, after: string)
    ensures NoDrops(Forward(TableCommentChanges(before, after)))
  {
    if before != after {
      OneChange(Change([CommentOnTable(after)], [CommentOnTable(before)]));
    }
  }

  lemma DiffDropsNothing(from: TableSpec, to: TableSpec)
    ensures NoDrops(Forward(DiffChanges(from, to)))
  {
    hide Forward, TableCommentChanges, CommentChanges;
    var table, columns := TableCommentChanges(from.comment, to.comment), CommentDiffs(from.columns, to.columns);
    CommentsDropNothing(columns);
    TableDropsNothing(from.comment, to.comment);
    ForwardAppend(table, CommentChanges(columns));
  }

  /**
   * What is dropped is exactly what goes, each with its warning, in the same order; and a rollback list is written only
   * when it is asked for.
   */
  lemma EveryDropIsWarned(p: AlterParams, added: seq<NewColumn>)
    requires WellFormed(p)
    ensures var r := Altered(p, added);
      && (forall x :: x in DroppedNames(r.statements) <==> Goes(p, x))
      && |r.warnings| == |DroppedNames(r.statements)|
      && (forall i :: 0 <= i < |r.warnings| ==>
            r.warnings[i] == "drop column may lose data: " + DroppedNames(r.statements)[i])
      && (!p.withRollback ==> r.rollback == [])
  {
    hide Altered, DroppedNames, DropWarnings, DropList, Goes;
    DroppedAre(p, added);
    WarningsAre(DropList(p));
    DropListIs(p);
    RestOfAnswer(p, added);
  }

  lemma RestOfAnswer(p: AlterParams, added: seq<NewColumn>)
    ensures Altered(p, added).warnings == DropWarnings(DropList(p))
    ensures !p.withRollback ==> Altered(p, added).rollback == []
  {
  }

  lemma DroppedAre(p: AlterParams, added: seq<NewColumn>)
    ensures DroppedNames(Altered(p, added).statements) == DropList(p)
  {
    hide DroppedNames, DropStatements, DropList, Forward, EffectiveRenames, NoDrops, DiffChanges;
    var renames, diff := EffectiveRenames(p.columnRenames), Forward(DiffChanges(p.fromSpec, p.toSpec));
    var drops := DropStatements(DropList(p));
    RenamesDropNothing(renames);
    AddsDropNothing(added);
    DiffDropsNothing(p.fromSpec, p.toSpec);
    NothingDropped(Forward(RenameChanges(renames)));
    NothingDropped(Forward(AddChanges(added)));
    NothingDropped(diff);
    DroppedAppend(Forward(RenameChanges(renames)), Forward(AddChanges(added)));
    DroppedAppend(OpeningStatements(renames, added), drops);
    DroppedAppend(OpeningStatements(renames, added) + drops, diff);
    DropsAreDropped(DropList(p));
  }
}
