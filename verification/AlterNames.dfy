/**
 * Which names stand in a table once an ALTER plan has renamed and added columns, read off the old specification and the
 * list of renames alone. Nothing is asked of the renames: they may be chained, repeated or name columns that are not
 * there.
 */
module AlterNames {
  import opened Wrappers
  import opened AlterTable
  import opened AlterPlan
  import opened CommentDiff

  /** After the renames a column has this name: the one that was there under its origin. */
  predicate Stands(from: seq<ColumnSpec>, renames: seq<Rename>, x: string) {
    Origin(renames, x).Some? && HasName(from, Origin(renames, x).value)
  }

  /** A rename that comes after others finds its column, and its target free. */
  predicate RenameRuns(from: seq<ColumnSpec>, before: seq<Rename>, r: Rename) {
    r.newName != "" && Stands(from, before, r.oldName) && !Stands(from, before, r.newName)
  }

  predicate RenamesRun(from: seq<ColumnSpec>, renames: seq<Rename>) {
    forall i :: 0 <= i < |renames| ==> RenameRuns(from, renames[..i], renames[i])
  }

  /** Neither the old table nor a rename has the name. */
  predicate Unlisted(p: AlterParams, name: string) {
    !HasName(p.fromSpec.columns, name) && !IsTarget(p.columnRenames, name)
  }

  // ---------- renames ----------

  lemma Renamed(d: Dialect, t: Table, spec: TableSpec, renames: seq<Rename>, x: string)
    requires Matches(t, spec) && DistinctSpecs(spec.columns)
    requires ExecAll(d, t, Forward(RenameChanges(renames))).Some?
    ensures var t' := ExecAll(d, t, Forward(RenameChanges(renames))).value;
            && Distinct(t'.columns) && t'.comment == spec.comment
            && (Lookup(t'.columns, x).Some? <==> Stands(spec.columns, renames, x))
            && (Stands(spec.columns, renames, x) ==>
                  var y := Origin(renames, x).value;
                  LastNamed(spec.columns, y).Some?
                  && Lookup(t'.columns, x).value.comment == LastNamed(spec.columns, y).value.comment
                  && Lookup(t.columns, y).Some?
                  && Lookup(t'.columns, x).value.definition == Lookup(t.columns, y).value.definition)
  {
    MatchedLookup(t, spec, if Origin(renames, x).Some? then Origin(renames, x).value else x);
    RenamesEffect(d, t, renames, x);
  }

  /** The renames are accepted exactly when each one, in its turn, finds its column and its target free. */
  lemma {:induction false} RenamesRunIff(d: Dialect, t: Table, spec: TableSpec, renames: seq<Rename>)
    requires Matches(t, spec) && DistinctSpecs(spec.columns)
    ensures ExecAll(d, t, Forward(RenameChanges(renames))).Some? <==> RenamesRun(spec.columns, renames)
    decreases |renames|
  {
    hide Matches, DistinctSpecs, Stands;
    if renames != [] {
      var r, front := renames[|renames| - 1], renames[..|renames| - 1];
      RunsOneMore(spec.columns, renames);
      RenamesRunIff(d, t, spec, front);
      ExecLast(d, t, Forward(RenameChanges(front)), RenameColumn(r.oldName, r.newName));
      if ExecAll(d, t, Forward(RenameChanges(front))).Some? {
        Renamed(d, t, spec, front, r.oldName);
        Renamed(d, t, spec, front, r.newName);
      }
    }
  }

  lemma RunsOneMore(from: seq<ColumnSpec>, renames: seq<Rename>)
    requires renames != []
    ensures var n := |renames| - 1;
            RenamesRun(from, renames) <==> RenamesRun(from, renames[..n]) && RenameRuns(from, renames[..n], renames[n])
  {
    var n := |renames| - 1;
    var front := renames[..n];
    assert forall i :: 0 <= i < n ==> front[..i] == renames[..i] && front[i] == renames[i];
    if RenamesRun(from, renames) {
      forall i | 0 <= i < n ensures RenameRuns(from, front[..i], front[i]) {
        assert RenameRuns(from, renames[..i], renames[i]);
      }
    }
    if RenamesRun(from, front) && RenameRuns(from, front, renames[n]) {
      forall i | 0 <= i < |renames| ensures RenameRuns(from, renames[..i], renames[i]) {
        if i < n {
          assert RenameRuns(from, front[..i], front[i]);
        }
      }
    }
  }

  /** A name no rename leads to is untouched, or gone when a rename leads away from it. */
  lemma {:induction false} OriginUntouched(renames: seq<Rename>, x: string)
    requires !IsTarget(renames, x)
    ensures Origin(renames, x) == if IsSource(renames, x) then None else Some(x)
    decreases |renames|
  {
    if renames != [] {
      var r, front := renames[|renames| - 1], renames[..|renames| - 1];
      SourceOrTarget(renames, x);
      OriginUntouched(front, x);
    }
  }

  lemma SourceOrTarget(renames: seq<Rename>, x: string)
    requires renames != []
    ensures var r, front := renames[|renames| - 1], renames[..|renames| - 1];
            && (IsSource(renames, x) <==> IsSource(front, x) || r.oldName == x)
            && (IsTarget(renames, x) <==> IsTarget(front, x) || r.newName == x)
  {
    var r, front := renames[|renames| - 1], renames[..|renames| - 1];
    assert r == renames[|renames| - 1];
    assert forall i :: 0 <= i < |front| ==> front[i] == renames[i];
    if i :| 0 <= i < |renames| && renames[i].oldName == x {
      assert i < |front| ==> front[i].oldName == x;
    }
    if i :| 0 <= i < |renames| && renames[i].newName == x {
      assert i < |front| ==> front[i].newName == x;
    }
  }

  /** An accepted list never leads to a column of the old table that is not itself renamed away. */
  lemma {:induction false} KeptStands(from: seq<ColumnSpec>, renames: seq<Rename>, x: string)
    requires RenamesRun(from, renames) && HasName(from, x) && !IsSource(renames, x)
    ensures Origin(renames, x) == Some(x)
    decreases |renames|
  {
    if renames != [] {
      RunsOneMore(from, renames);
      SourceOrTarget(renames, x);
      KeptStands(from, renames[..|renames| - 1], x);
    }
  }

  // ---------- ordinary renames ----------

  /** Renames of existing columns to names the table does not have, each column and each name once. */
  ghost predicate Ordinary(from: seq<ColumnSpec>, renames: seq<Rename>) {
    && (forall i, j :: 0 <= i < j < |renames| ==>
          renames[i].oldName != renames[j].oldName && renames[i].newName != renames[j].newName)
    && (forall i :: 0 <= i < |renames| ==>
          && renames[i].newName != ""
          && HasName(from, renames[i].oldName) && !HasName(from, renames[i].newName))
  }

  /** They are always accepted; afterwards the old names are gone, the new ones are there, and the rest is in place. */
  lemma {:induction false} OrdinaryRun(from: seq<ColumnSpec>, renames: seq<Rename>)
    requires Ordinary(from, renames)
    ensures RenamesRun(from, renames)
    decreases |renames|
  {
    if renames != [] {
      var r, front := renames[|renames| - 1], renames[..|renames| - 1];
      OrdinaryFront(from, renames);
      RunsOneMore(from, renames);
      OrdinaryRun(from, front);
      OriginUntouched(front, r.oldName);
      OriginUntouched(front, r.newName);
    }
  }

  lemma OrdinaryFront(from: seq<ColumnSpec>, renames: seq<Rename>)
    requires Ordinary(from, renames) && renames != []
    ensures var r, front := renames[|renames| - 1], renames[..|renames| - 1];
            && Ordinary(from, front)
            && !IsSource(front, r.oldName) && !IsTarget(front, r.newName)
            && !IsTarget(front, r.oldName) && !IsSource(front, r.newName)
            && HasName(from, r.oldName) && !HasName(from, r.newName) && r.newName != ""
  {
    hide HasName;
    var front := renames[..|renames| - 1];
    assert renames[|renames| - 1] == renames[|renames| - 1];
    assert forall i :: 0 <= i < |front| ==> front[i] == renames[i];
  }

  lemma {:induction false} OrdinaryStands(from: seq<ColumnSpec>, renames: seq<Rename>, x: string)
    requires Ordinary(from, renames)
    ensures Stands(from, renames, x) <==> !IsSource(renames, x) && (HasName(from, x) || IsTarget(renames, x))
    ensures forall i :: 0 <= i < |renames| && renames[i].newName == x ==> Origin(renames, x) == Some(renames[i].oldName)
    decreases |renames|
  {
    if renames != [] {
      var r, front := renames[|renames| - 1], renames[..|renames| - 1];
      OrdinaryFront(from, renames);
      SourceOrTarget(renames, x);
      OrdinaryStands(from, front, x);
      OriginUntouched(front, r.oldName);
      assert forall i :: 0 <= i < |front| ==> front[i] == renames[i];
      TargetOnce(from, renames, x);
    }
  }

  lemma TargetOnce(from: seq<ColumnSpec>, renames: seq<Rename>, x: string)
    requires Ordinary(from, renames) && renames != []
    ensures var n := |renames| - 1;
            renames[n].newName == x ==> !IsSource(renames, x) && forall i :: 0 <= i < n ==> renames[i].newName != x
  {
    hide HasName;
    if IsSource(renames, x) {
      SourceIsOld(from, renames, x);
    }
  }

  lemma SourceIsOld(from: seq<ColumnSpec>, renames: seq<Rename>, x: string)
    requires Ordinary(from, renames) && IsSource(renames, x)
    ensures HasName(from, x)
  {
    var i :| 0 <= i < |renames| && renames[i].oldName == x;
  }

  // ---------- added columns ----------

  /** Columns to add under distinct names that neither the old table nor a rename has. */
  ghost predicate NewTo(from: seq<ColumnSpec>, renames: seq<Rename>, added: seq<NewColumn>) {
    && (forall i, j :: 0 <= i < j < |added| ==> added[i].name != added[j].name)
    && (forall i :: 0 <= i < |added| ==>
          added[i].name != "" && !HasName(from, added[i].name) && !IsTarget(renames, added[i].name))
  }

  /** Renames and additions are accepted exactly when the renames are; then the standing and the new names are there. */
  lemma OpeningRunsIff(d: Dialect, t: Table, spec: TableSpec, renames: seq<Rename>, added: seq<NewColumn>)
    requires Matches(t, spec) && DistinctSpecs(spec.columns) && NewTo(spec.columns, renames, added)
    ensures ExecAll(d, t, OpeningStatements(renames, added)).Some? <==> RenamesRun(spec.columns, renames)
  {
    RenamesRunIff(d, t, spec, renames);
    ExecAllAppend(d, t, Forward(RenameChanges(renames)), Forward(AddChanges(added)));
    if ExecAll(d, t, Forward(RenameChanges(renames))).Some? {
      var t1 := ExecAll(d, t, Forward(RenameChanges(renames))).value;
      Renamed(d, t, spec, renames, "");
      forall i | 0 <= i < |added| ensures Lookup(t1.columns, added[i].name).None? {
        Renamed(d, t, spec, renames, added[i].name);
        OriginUntouched(renames, added[i].name);
      }
      AddsLegal(d, t1, added);
    }
  }

  lemma OpeningEffect(d: Dialect, t: Table, spec: TableSpec, renames: seq<Rename>, added: seq<NewColumn>, x: string)
    requires Matches(t, spec) && DistinctSpecs(spec.columns) && NewTo(spec.columns, renames, added)
    requires RenamesRun(spec.columns, renames)
    ensures ExecAll(d, t, OpeningStatements(renames, added)).Some?
    ensures var t' := ExecAll(d, t, OpeningStatements(renames, added)).value;
            && Distinct(t'.columns) && t'.comment == spec.comment
            && (Lookup(t'.columns, x).Some? <==> Stands(spec.columns, renames, x) || IsAdded(added, x))
            && !(Stands(spec.columns, renames, x) && IsAdded(added, x))
            && (Stands(spec.columns, renames, x) ==>
                  var y := Origin(renames, x).value;
                  LastNamed(spec.columns, y).Some?
                  && Lookup(t'.columns, x).value.comment == LastNamed(spec.columns, y).value.comment
                  && Lookup(t.columns, y).Some?
                  && Lookup(t'.columns, x).value.definition == Lookup(t.columns, y).value.definition)
            && (forall i :: 0 <= i < |added| && added[i].name == x ==>
                  && Lookup(t'.columns, x).value.comment == AddedComment(added[i].comment)
                  && Lookup(t'.columns, x).value.definition == added[i].definition)
  {
    hide Matches, DistinctSpecs, ExecAll;
    OpeningRunsIff(d, t, spec, renames, added);
    RenamesRunIff(d, t, spec, renames);
    ExecAllAppend(d, t, Forward(RenameChanges(renames)), Forward(AddChanges(added)));
    var t1 := ExecAll(d, t, Forward(RenameChanges(renames))).value;
    Renamed(d, t, spec, renames, x);
    AddsEffect(d, t1, added, x);
    AddedFacts(added, Lookup(t1.columns, x), x);
    if IsAdded(added, x) {
      OriginUntouched(renames, x);
    }
  }
}
