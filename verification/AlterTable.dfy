/**
 * ALTER TABLE statements as data, what they do to a table, and the plan that both diff compilers share:
 * renames, then added columns, then dropped columns, then comments.
 */
module AlterTable {
  import opened Wrappers
  import opened Text

  // ---------- input ----------

  datatype ColumnSpec = ColumnSpec(
    name: string,
    typeStr: string,
    nullable: bool,
    defaultValue: Option<string>,
    isPrimary: bool,
    isUnique: bool,
    autoIncrement: bool,
    comment: string)

  datatype TableSpec = TableSpec(
    database: Option<string>,
    schema: Option<string>,
    name: string,
    columns: seq<ColumnSpec>,
    comment: string)

  datatype Rename = Rename(oldName: string, newName: string)

  datatype AlterParams = AlterParams(
    fromSpec: TableSpec,
    toSpec: TableSpec,
    columnRenames: seq<Rename>,
    allowDestructive: bool,
    withRollback: bool)

  datatype AlterResult = AlterResult(statements: seq<Statement>, rollback: seq<Statement>, warnings: seq<string>)

  predicate HasName(columns: seq<ColumnSpec>, name: string) {
    exists i :: 0 <= i < |columns| && columns[i].name == name
  }

  lemma NamedSplit(columns: seq<ColumnSpec>, x: string)
    requires columns != []
    ensures HasName(columns, x) <==> HasName(columns[..|columns| - 1], x) || x == columns[|columns| - 1].name
  {
    var front := columns[..|columns| - 1];
    if HasName(front, x) {
      var i :| 0 <= i < |front| && front[i].name == x;
      assert columns[i].name == x;
    }
    if HasName(columns, x) && x != columns[|columns| - 1].name {
      var i :| 0 <= i < |columns| && columns[i].name == x;
      assert front[i].name == x;
    }
    assert columns[|columns| - 1].name == columns[|columns| - 1].name;
  }

  ghost predicate DistinctSpecs(columns: seq<ColumnSpec>) {
    forall i, j :: 0 <= i < j < |columns| ==> columns[i].name != columns[j].name
  }

  lemma LastIsAlone(columns: seq<ColumnSpec>)
    requires DistinctSpecs(columns) && columns != []
    ensures var n := |columns| - 1;
            DistinctSpecs(columns[..n]) && !HasName(columns[..n], columns[n].name)
  {
    var n := |columns| - 1;
    assert forall i :: 0 <= i < n ==> columns[..n][i] == columns[i];
  }

  // ---------- statements and tables ----------

  datatype Statement =
    | RenameColumn(oldName: string, newName: string)
    | AddColumn(name: string, definition: string)
    | DropColumn(name: string)
    | CommentOnTable(text: string)
    | CommentOnColumn(name: string, text: string)

  datatype Column = Column(name: string, definition: string, comment: string)

  datatype Table = Table(comment: string, columns: seq<Column>)

  /** DuckDB refuses to drop the last column of a table; openGauss does not. */
  datatype Dialect = OpenGauss | DuckDb

  function Index(columns: seq<Column>, name: string): (i: nat)
    ensures i <= |columns|
    ensures i < |columns| ==> columns[i].name == name
    ensures forall j :: 0 <= j < i ==> columns[j].name != name
  {
    if columns == [] then 0
    else if columns[0].name == name then 0
    else 1 + Index(columns[1..], name)
  }

  function Lookup(columns: seq<Column>, name: string): Option<Column> {
    var i := Index(columns, name);
    if i < |columns| then Some(columns[i]) else None
  }

  ghost predicate Distinct(columns: seq<Column>) {
    forall i, j :: 0 <= i < j < |columns| ==> columns[i].name != columns[j].name
  }

  predicate Legal(d: Dialect, t: Table, s: Statement) {
    match s
    case RenameColumn(o, n) => n != "" && Lookup(t.columns, o).Some? && Lookup(t.columns, n).None?
    case AddColumn(n, _) => n != "" && Lookup(t.columns, n).None?
    case DropColumn(n) => Lookup(t.columns, n).Some? && (d.DuckDb? ==> |t.columns| > 1)
    case CommentOnTable(_) => true
    case CommentOnColumn(n, _) => Lookup(t.columns, n).Some?
  }

  /** None when the database would refuse the statement. */
  function Exec(d: Dialect, t: Table, s: Statement): Option<Table> {
    if !Legal(d, t, s) then None
    else
      Some(match s {
        case RenameColumn(o, n) =>
          var i := Index(t.columns, o);
          t.(columns := t.columns[i := t.columns[i].(name := n)])
        case AddColumn(n, def) => t.(columns := t.columns + [Column(n, def, "")])
        case DropColumn(n) =>
          var i := Index(t.columns, n);
          t.(columns := t.columns[..i] + t.columns[i + 1..])
        case CommentOnTable(text) => t.(comment := text)
        case CommentOnColumn(n, text) =>
          var i := Index(t.columns, n);
          t.(columns := t.columns[i := t.columns[i].(comment := text)])
      })
  }

  function ExecAll(d: Dialect, t: Table, statements: seq<Statement>): Option<Table>
    decreases |statements|
  {
    if statements == [] then Some(t)
    else
      match Exec(d, t, statements[0])
      case None => None
      case Some(t') => ExecAll(d, t', statements[1..])
  }

  lemma {:induction false} ExecAllAppend(d: Dialect, t: Table, a: seq<Statement>, b: seq<Statement>)
    ensures ExecAll(d, t, a + b) ==
            match ExecAll(d, t, a) { case None => None case Some(t') => ExecAll(d, t', b) }
    decreases |a|
  {
    if a == [] {
      assert a + b == b;
    } else {
      assert (a + b)[0] == a[0] && (a + b)[1..] == a[1..] + b;
      if Exec(d, t, a[0]).Some? {
        ExecAllAppend(d, Exec(d, t, a[0]).value, a[1..], b);
      }
    }
  }

  lemma ExecOne(d: Dialect, t: Table, s: Statement)
    ensures ExecAll(d, t, [s]) == Exec(d, t, s)
  {
    if Exec(d, t, s).Some? {
      assert [s][1..] == [];
      assert ExecAll(d, Exec(d, t, s).value, []) == Exec(d, t, s);
    }
  }

  lemma ExecLast(d: Dialect, t: Table, a: seq<Statement>, s: Statement)
    ensures ExecAll(d, t, a + [s]) == match ExecAll(d, t, a) { case None => None case Some(t') => Exec(d, t', s) }
  {
    ExecAllAppend(d, t, a, [s]);
    if ExecAll(d, t, a).Some? {
      ExecOne(d, ExecAll(d, t, a).value, s);
    }
  }

  lemma IndexIs(columns: seq<Column>, i: nat)
    requires Distinct(columns) && i < |columns|
    ensures Index(columns, columns[i].name) == i
  {
  }

  lemma LookupAbsent(columns: seq<Column>, name: string)
    ensures Lookup(columns, name).None? <==> forall i :: 0 <= i < |columns| ==> columns[i].name != name
  {
  }

  /** What a legal statement does to the column behind each name. */
  function LookupAfter(columns: seq<Column>, s: Statement, x: string): Option<Column> {
    match s
    case RenameColumn(o, n) =>
      if x == n && Lookup(columns, o).Some? then Some(Lookup(columns, o).value.(name := n))
      else if x == o then None
      else Lookup(columns, x)
    case AddColumn(n, def) => if x == n then Some(Column(n, def, "")) else Lookup(columns, x)
    case DropColumn(n) => if x == n then None else Lookup(columns, x)
    case CommentOnTable(_) => Lookup(columns, x)
    case CommentOnColumn(n, text) =>
      if x == n && Lookup(columns, n).Some? then Some(Lookup(columns, n).value.(comment := text))
        else Lookup(columns, x)
  }

  lemma ReplacedColumn(columns: seq<Column>, i: nat, c: Column, x: string)
    requires Distinct(columns) && i < |columns|
    requires c.name == columns[i].name || Lookup(columns, c.name).None?
    ensures Distinct(columns[i := c])
    ensures Lookup(columns[i := c], x) ==
            if x == c.name then Some(c) else if x == columns[i].name then None else Lookup(columns, x)
  {
    var after := columns[i := c];
    LookupAbsent(columns, c.name);
    assert Distinct(after);
    if x == c.name {
      IndexIs(after, i);
    } else if x == columns[i].name {
      LookupAbsent(after, x);
    } else {
      LookupAbsent(after, x);
      LookupAbsent(columns, x);
      if Lookup(columns, x).Some? {
        IndexIs(after, Index(columns, x));
      }
    }
  }

  lemma RemovedColumn(columns: seq<Column>, i: nat, x: string)
    requires Distinct(columns) && i < |columns|
    ensures Distinct(columns[..i] + columns[i + 1..])
    ensures Lookup(columns[..i] + columns[i + 1..], x) == if x == columns[i].name then None else Lookup(columns, x)
  {
    var after := columns[..i] + columns[i + 1..];
    RemovedPlaces(columns, i);
    LookupAbsent(after, x);
    LookupAbsent(columns, x);
    hide Distinct;
    if x != columns[i].name && Lookup(columns, x).Some? {
      var k := Index(columns, x);
      IndexIs(after, if k < i then k else k - 1);
    }
  }

  lemma RemovedPlaces(columns: seq<Column>, i: nat)
    requires Distinct(columns) && i < |columns|
    ensures var after := columns[..i] + columns[i + 1..];
            && |after| == |columns| - 1 && Distinct(after)
            && (forall j :: 0 <= j < i ==> after[j] == columns[j])
            && (forall j :: i < j < |columns| ==> after[j - 1] == columns[j])
            && (forall j :: 0 <= j < |after| ==> after[j] == if j < i then columns[j] else columns[j + 1])
            && (forall j :: 0 <= j < |after| ==> after[j].name != columns[i].name)
  {
    var after := columns[..i] + columns[i + 1..];
    assert forall j :: 0 <= j < |after| ==> after[j] == if j < i then columns[j] else columns[j + 1];
  }

  lemma AppendedColumn(columns: seq<Column>, c: Column, x: string)
    requires Distinct(columns) && Lookup(columns, c.name).None?
    ensures Distinct(columns + [c])
    ensures Lookup(columns + [c], x) == if x == c.name then Some(c) else Lookup(columns, x)
  {
    var after := columns + [c];
    LookupAbsent(columns, c.name);
    assert Distinct(after);
    LookupAbsent(after, x);
    LookupAbsent(columns, x);
    if x == c.name {
      IndexIs(after, |columns|);
    } else if Lookup(columns, x).Some? {
      IndexIs(after, Index(columns, x));
    }
  }

  lemma ExecLookup(d: Dialect, t: Table, s: Statement, x: string)
    requires Distinct(t.columns) && Exec(d, t, s).Some?
    ensures Distinct(Exec(d, t, s).value.columns)
    ensures Lookup(Exec(d, t, s).value.columns, x) == LookupAfter(t.columns, s, x)
  {
    match s {
      case RenameColumn(o, n) =>
        var i := Index(t.columns, o);
        ReplacedColumn(t.columns, i, t.columns[i].(name := n), x);
      case AddColumn(n, def) =>
        AppendedColumn(t.columns, Column(n, def, ""), x);
      case DropColumn(n) =>
        RemovedColumn(t.columns, Index(t.columns, n), x);
      case CommentOnTable(_) =>
      case CommentOnColumn(n, text) =>
        var i := Index(t.columns, n);
        ReplacedColumn(t.columns, i, t.columns[i].(comment := text), x);
    }
  }

  lemma {:induction false} StaysDistinct(d: Dialect, t: Table, statements: seq<Statement>)
    requires Distinct(t.columns) && ExecAll(d, t, statements).Some?
    ensures Distinct(ExecAll(d, t, statements).value.columns)
    decreases |statements|
  {
    if statements != [] {
      ExecLookup(d, t, statements[0], "");
      StaysDistinct(d, Exec(d, t, statements[0]).value, statements[1..]);
    }
  }

  // ---------- undoing one change ----------

  /** A group of statements and the group that takes it back. */
  datatype Change = Change(forward: seq<Statement>, undo: seq<Statement>)

  function Forward(changes: seq<Change>): seq<Statement>
    decreases |changes|
  {
    if changes == [] then [] else Forward(changes[..|changes| - 1]) + changes[|changes| - 1].forward
  }

  function Rollback(changes: seq<Change>): seq<Statement>
    decreases |changes|
  {
    if changes == [] then [] else changes[|changes| - 1].undo + Rollback(changes[..|changes| - 1])
  }

  lemma Grouped(a: seq<Statement>, b: seq<Statement>, c: seq<Statement>)
    ensures (a + b) + c == a + (b + c)
  {
  }

  lemma {:induction false} ForwardAppend(a: seq<Change>, b: seq<Change>)
    ensures Forward(a + b) == Forward(a) + Forward(b)
    decreases |b|
  {
    if b == [] {
      assert a + b == a;
    } else {
      var front, last := b[..|b| - 1], b[|b| - 1].forward;
      ForwardAppend(a, front);
      assert (a + b)[..|a + b| - 1] == a + front && (a + b)[|a + b| - 1] == b[|b| - 1];
      Grouped(Forward(a), Forward(front), last);
    }
  }

  lemma {:induction false} RollbackAppend(a: seq<Change>, b: seq<Change>)
    ensures Rollback(a + b) == Rollback(b) + Rollback(a)
    decreases |b|
  {
    if b == [] {
      assert a + b == a;
    } else {
      var front, last := b[..|b| - 1], b[|b| - 1].undo;
      RollbackAppend(a, front);
      assert (a + b)[..|a + b| - 1] == a + front && (a + b)[|a + b| - 1] == b[|b| - 1];
      Grouped(last, Rollback(front), Rollback(a));
    }
  }

  /** If the forward list is accepted at `t`, the rollback list is accepted after it and leads back to exactly `t`. */
  predicate Undoes(d: Dialect, t: Table, changes: seq<Change>) {
    ExecAll(d, t, Forward(changes)).Some? ==>
      ExecAll(d, ExecAll(d, t, Forward(changes)).value, Rollback(changes)) == Some(t)
  }

  lemma UndoesBoth(d: Dialect, t: Table, a: seq<Change>, b: seq<Change>)
    requires Undoes(d, t, a)
    requires ExecAll(d, t, Forward(a)).Some? ==> Undoes(d, ExecAll(d, t, Forward(a)).value, b)
    ensures Undoes(d, t, a + b)
  {
    ForwardAppend(a, b);
    RollbackAppend(a, b);
    ExecAllAppend(d, t, Forward(a), Forward(b));
    if ExecAll(d, t, Forward(a + b)).Some? {
      ExecAllAppend(d, ExecAll(d, t, Forward(a + b)).value, Rollback(b), Rollback(a));
    }
  }

  lemma OneChange(c: Change)
    ensures Forward([c]) == c.forward && Rollback([c]) == c.undo
  {
    assert [c][..0] == [];
    assert Forward([]) == [] && Rollback([]) == [];
  }

  lemma RenameUndone(d: Dialect, t: Table, o: string, n: string)
    requires Distinct(t.columns) && o != ""
    ensures Undoes(d, t, [Change([RenameColumn(o, n)], [RenameColumn(n, o)])])
  {
    OneChange(Change([RenameColumn(o, n)], [RenameColumn(n, o)]));
    ExecOne(d, t, RenameColumn(o, n));
    if Legal(d, t, RenameColumn(o, n)) {
      var t' := Exec(d, t, RenameColumn(o, n)).value;
      var i := Index(t.columns, o);
      ExecLookup(d, t, RenameColumn(o, n), o);
      ExecLookup(d, t, RenameColumn(o, n), n);
      IndexIs(t'.columns, i);
      ExecOne(d, t', RenameColumn(n, o));
      assert t'.columns[i := t'.columns[i].(name := o)] == t.columns;
    }
  }

  lemma AddUndone(t: Table, n: string, def: string, comment: string)
    requires Distinct(t.columns)
    ensures Undoes(OpenGauss, t, [Change(AddWithComment(n, def, comment), [DropColumn(n)])])
  {
    hide Exec, ExecAll, Distinct, IsBlank;
    OneChange(Change(AddWithComment(n, def, comment), [DropColumn(n)]));
    var add, say := AddColumn(n, def), CommentOnColumn(n, comment);
    ExecOne(OpenGauss, t, add);
    ExecLast(OpenGauss, t, [add], say);
    assert [add] + [say] == [add, say];
    if Exec(OpenGauss, t, add).Some? {
      AddedThenDropped(t, n, def, comment);
      var t1 := Exec(OpenGauss, t, add).value;
      var t2 := if IsBlank(comment) then t1 else Exec(OpenGauss, t1, say).value;
      ExecOne(OpenGauss, t2, DropColumn(n));
    }
  }

  lemma AddedThenDropped(t: Table, n: string, def: string, comment: string)
    requires Distinct(t.columns) && Exec(OpenGauss, t, AddColumn(n, def)).Some?
    ensures var t1 := Exec(OpenGauss, t, AddColumn(n, def)).value;
            && Exec(OpenGauss, t1, DropColumn(n)) == Some(t)
            && Exec(OpenGauss, t1, CommentOnColumn(n, comment)).Some?
            && Exec(OpenGauss, Exec(OpenGauss, t1, CommentOnColumn(n, comment)).value, DropColumn(n)) == Some(t)
  {
    var i := |t.columns|;
    var t1 := Exec(OpenGauss, t, AddColumn(n, def)).value;
    AppendedColumn(t.columns, Column(n, def, ""), n);
    AppendedColumn(t.columns, Column(n, def, comment), n);
    IndexIs(t1.columns, i);
    var t2 := Exec(OpenGauss, t1, CommentOnColumn(n, comment)).value;
    assert t2.columns == t.columns + [Column(n, def, comment)];
    IndexIs(t2.columns, i);
    assert t1.columns[..i] + t1.columns[i + 1..] == t.columns;
    assert t2.columns[..i] + t2.columns[i + 1..] == t.columns;
  }

  lemma CommentUndone(d: Dialect, t: Table, n: string, before: string, after: string)
    requires Distinct(t.columns)
    requires Lookup(t.columns, n).Some? ==> Lookup(t.columns, n).value.comment == before
    ensures Undoes(d, t, [Change([CommentOnColumn(n, after)], [CommentOnColumn(n, before)])])
  {
    OneChange(Change([CommentOnColumn(n, after)], [CommentOnColumn(n, before)]));
    ExecOne(d, t, CommentOnColumn(n, after));
    if Legal(d, t, CommentOnColumn(n, after)) {
      var t' := Exec(d, t, CommentOnColumn(n, after)).value;
      var i := Index(t.columns, n);
      ExecLookup(d, t, CommentOnColumn(n, after), n);
      IndexIs(t'.columns, i);
      ExecOne(d, t', CommentOnColumn(n, before));
      assert t'.columns[i := t'.columns[i].(comment := before)] == t.columns;
    }
  }

  lemma TableCommentUndone(d: Dialect, t: Table, after: string)
    ensures Undoes(d, t, [Change([CommentOnTable(after)], [CommentOnTable(t.comment)])])
  {
    OneChange(Change([CommentOnTable(after)], [CommentOnTable(t.comment)]));
    ExecOne(d, t, CommentOnTable(after));
    ExecOne(d, t.(comment := after), CommentOnTable(t.comment));
  }

  /** ADD COLUMN carries no comment, so a comment that is not blank follows as its own statement. */
  function AddWithComment(n: string, def: string, comment: string): seq<Statement> {
    if IsBlank(comment) then [AddColumn(n, def)] else [AddColumn(n, def), CommentOnColumn(n, comment)]
  }

  /** The comment such a column ends with. */
  function AddedComment(comment: string): string {
    if IsBlank(comment) then "" else comment
  }

  // ---------- how many columns ----------

  /** Columns added less columns dropped. */
  function Balance(statements: seq<Statement>): int {
    if statements == [] then 0
    else
      var one := if statements[0].AddColumn? then 1 else if statements[0].DropColumn? then -1 else 0;
      one + Balance(statements[1..])
  }

  lemma {:induction false} BalanceAppend(a: seq<Statement>, b: seq<Statement>)
    ensures Balance(a + b) == Balance(a) + Balance(b)
    decreases |a|
  {
    if a == [] {
      assert a + b == b;
    } else {
      assert (a + b)[1..] == a[1..] + b;
      BalanceAppend(a[1..], b);
    }
  }

  /** Whatever the statements are: a table that accepts them has that many columns more. */
  lemma {:induction false} ExecCounts(d: Dialect, t: Table, statements: seq<Statement>)
    requires ExecAll(d, t, statements).Some?
    ensures |ExecAll(d, t, statements).value.columns| == |t.columns| + Balance(statements)
    decreases |statements|
  {
    if statements != [] {
      ExecCounts(d, Exec(d, t, statements[0]).value, statements[1..]);
    }
  }

  ghost predicate Balanced(changes: seq<Change>) {
    forall i :: 0 <= i < |changes| ==> Balance(changes[i].undo) == -Balance(changes[i].forward)
  }

  /** A rollback list takes back as many columns as its changes brought. */
  lemma {:induction false} RollbackBalances(changes: seq<Change>)
    requires Balanced(changes)
    ensures Balance(Rollback(changes)) == -Balance(Forward(changes))
    decreases |changes|
  {
    if changes != [] {
      var front, last := changes[..|changes| - 1], changes[|changes| - 1];
      RollbackBalances(front);
      BalanceAppend(Forward(front), last.forward);
      BalanceAppend(last.undo, Rollback(front));
    }
  }
}
