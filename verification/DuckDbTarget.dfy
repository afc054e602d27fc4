/** How DuckDB's added columns are defined, which renames count, and what the plan leaves as it was. */
module DuckDbTarget {
  import opened Wrappers
  import opened Text
  import opened AlterTable
  import opened AlterPlan
  import opened CommentDiff
  import opened AlterNames
  import opened AlterSql
  import opened AlterDefinitions
  import opened DuckDbDdl

  // ---------- the renames that count ----------

  predicate Counts(r: Rename) {
    r.oldName != r.newName && !IsBlank(r.oldName) && !IsBlank(r.newName)
  }

  lemma {:induction false} AllEffective(renames: seq<Rename>)
    requires forall i :: 0 <= i < |renames| ==> Counts(renames[i])
    ensures EffectiveRenames(renames) == renames
    decreases |renames|
  {
    hide IsBlank;
    if renames != [] {
      var front := renames[..|renames| - 1];
      AllEffective(front);
      assert renames == front + [renames[|renames| - 1]];
    }
  }

  /** A rename with a blank name, or of a name to itself, makes no difference; all others count, in order. */
  lemma {:induction false} OtherRenamesAreSkipped(a: seq<Rename>, r: Rename, b: seq<Rename>)
    requires !Counts(r)
    ensures EffectiveRenames(a + [r] + b) == EffectiveRenames(a + b)
    decreases |b|
  {
    hide IsBlank;
    if b == [] {
      assert (a + [r] + b)[..|a|] == a && a + b == a;
    } else {
      var front, last := b[..|b| - 1], b[|b| - 1];
      OtherRenamesAreSkipped(a, r, front);
      assert (a + [r] + b)[..|a + [r] + b| - 1] == a + [r] + front && (a + b)[..|a + b| - 1] == a + front;
    }
  }

  // ---------- definitions ----------

  function TypeText(c: ColumnSpec): string {
    if IsBlank(c.typeStr) then "VARCHAR" else Trim(c.typeStr)
  }

  function ClausesOf(c: ColumnSpec): Clauses {
    Clauses(false, !c.nullable, c.defaultValue,
      if c.isPrimary then Primary else if c.isUnique then Unique else NoKey)
  }

  /**
   * Type, NOT NULL, default and key read back from a definition exactly when the default does not pass for a key word
   * at the end. A column that counts up by itself does not say so.
   */
  lemma DefinitionReadsBack(c: ColumnSpec)
    ensures ReadDefinition(TypeText(c), Definition(c)) == Some(ClausesOf(c)) <==> Unmistakable(ClausesOf(c))
  {
    hide ReadDefinition, Unmistakable, TypeText;
    DefinitionIs(c);
    DefinitionReadsBackIff(TypeText(c), ClausesOf(c));
  }

  lemma DefinitionIs(c: ColumnSpec)
    ensures Definition(c) == TypeText(c) + ClausesText(ClausesOf(c))
  {
    var notNull := if c.nullable then "" else " NOT NULL";
    var default := DefaultText(ClausesOf(c).defaultValue);
    var key := if c.isPrimary then " PRIMARY KEY" else if c.isUnique then " UNIQUE" else "";
    assert Definition(c) == TypeText(c) + notNull + default + key;
    FourParts(TypeText(c), notNull, default, key);
    assert ClausesText(ClausesOf(c)) == "" + (notNull + (default + key));
  }

  lemma FourParts(a: string, b: string, c: string, d: string)
    ensures a + b + c + d == a + ("" + (b + (c + d)))
  {
    assert "" + (b + (c + d)) == b + (c + d);
  }

  // ---------- the final columns ----------

  /** A new column ends with its own definition; one that stands keeps the definition of its origin. */
  lemma FinalDefinition(p: AlterParams, t: Table, k: nat)
    requires WellFormed(p) && Matches(t, p.fromSpec) && ExecAll(DuckDb, t, Altered(p).statements).Some?
    requires k < |p.toSpec.columns| && InFinalTable(p, p.toSpec.columns[k].name)
    ensures var final, c := ExecAll(DuckDb, t, Altered(p).statements).value, p.toSpec.columns[k];
      var col := Lookup(final.columns, c.name);
      && col.Some?
      && (Unlisted(p, c.name) ==> col.value.definition == Definition(c))
      && (!Unlisted(p, c.name) ==>
            var y := Origin(EffectiveRenames(p.columnRenames), c.name);
            && y.Some? && Lookup(t.columns, y.value).Some?
            && col.value.definition == Lookup(t.columns, y.value).value.definition)
  {
    hide Matches, NewColumns, WellFormed, DropList, EffectiveRenames, CommentDiffs, RenamesRun, Runs, InFinalTable,
         Definition, Altered, Goes;
    var c := p.toSpec.columns[k];
    InFinalIs(p, c.name);
    ForwardAcceptedIff(p, t);
    RunsMeansRenamesRun(p);
    var t1 := OpenedColumn(p, t, k);
    var t2 := ExecAll(DuckDb, t1, DropStatements(DropList(p))).value;
    DropsEffect(DuckDb, t1, DropList(p), c.name);
    DiffEffect(DuckDb, t2, p.fromSpec, p.toSpec, c.name);
    CommentsKeepDefinition(CommentDiffs(p.fromSpec.columns, p.toSpec.columns), Lookup(t2.columns, c.name), c.name);
  }

  lemma OpenedColumn(p: AlterParams, t: Table, k: nat) returns (t1: Table)
    requires WellFormed(p) && Matches(t, p.fromSpec) && ExecAll(DuckDb, t, Altered(p).statements).Some?
    requires RenamesRun(p.fromSpec.columns, EffectiveRenames(p.columnRenames)) && k < |p.toSpec.columns|
    requires AfterOpening(p, p.toSpec.columns[k].name)
    ensures Distinct(t1.columns) && t1.comment == p.fromSpec.comment
    ensures ExecAll(DuckDb, t1, DropStatements(DropList(p))).Some?
    ensures ExecAll(DuckDb, ExecAll(DuckDb, t1, DropStatements(DropList(p))).value,
              Forward(DiffChanges(p.fromSpec, p.toSpec))) == ExecAll(DuckDb, t, Altered(p).statements)
    ensures var c := p.toSpec.columns[k];
      && Lookup(t1.columns, c.name).Some?
      && (Unlisted(p, c.name) ==> Lookup(t1.columns, c.name).value.definition == Definition(c))
      && (!Unlisted(p, c.name) ==>
            var y := Origin(EffectiveRenames(p.columnRenames), c.name);
            && y.Some? && Lookup(t.columns, y.value).Some?
            && Lookup(t1.columns, c.name).value.definition == Lookup(t.columns, y.value).value.definition)
  {
    hide Matches, ExecAll, DropList, EffectiveRenames, RenamesRun, Definition, WellFormed, NewColumns;
    var c, added := p.toSpec.columns[k], NewColumns(p, p.toSpec.columns);
    var opening := OpeningStatements(EffectiveRenames(p.columnRenames), added);
    assert DistinctSpecs(p.toSpec.columns) && DistinctSpecs(p.fromSpec.columns) by {
      SpecsAreDistinct(p);
    }
    AddedAreNew(p);
    OpeningEffect(DuckDb, t, p.fromSpec, EffectiveRenames(p.columnRenames), added, c.name);
    ExecAllAppend(DuckDb, t, opening + DropStatements(DropList(p)), Forward(DiffChanges(p.fromSpec, p.toSpec)));
    ExecAllAppend(DuckDb, t, opening, DropStatements(DropList(p)));
    t1 := ExecAll(DuckDb, t, opening).value;
    AddedAre(p, c.name);
    if Unlisted(p, c.name) {
      var i := AddedAsDefined(p, p.toSpec.columns, k);
      assert added[i].name == c.name;
    }
  }

  lemma SpecsAreDistinct(p: AlterParams)
    requires WellFormed(p)
    ensures DistinctSpecs(p.toSpec.columns) && DistinctSpecs(p.fromSpec.columns)
  {
  }

  lemma {:induction false} AddedAsDefined(p: AlterParams, columns: seq<ColumnSpec>, k: nat) returns (i: nat)
    requires k < |columns| && Unlisted(p, columns[k].name)
    ensures i < |NewColumns(p, columns)|
    ensures NewColumns(p, columns)[i] == NewColumn(columns[k].name, Definition(columns[k]), columns[k].comment)
    decreases |columns|
  {
    hide Definition;
    if k < |columns| - 1 {
      i := AddedAsDefined(p, columns[..|columns| - 1], k);
    } else {
      i := |NewColumns(p, columns)| - 1;
    }
  }

  /** A rollback list is written only when it is asked for and touches nothing but comments; nothing is warned of. */
  lemma RestOfAnswer(p: AlterParams)
    ensures !p.withRollback ==> Altered(p).rollback == []
    ensures OnlyComments(Altered(p).rollback) && Altered(p).warnings == []
  {
    RollbackIsComments(p);
  }
}
