/**
 * Transactions, batches and imports of the DuckDB driver: the tables the driver keeps, beside the transaction each
 * DuckDB session is really in. BEGIN fails inside a transaction and COMMIT and ROLLBACK fail outside one; what a user
 * statement does to the database, and how a COMMIT ends, comes with the request.
 */
module DuckDbSession {
  import opened Wrappers

  /** The contents of a database: an arbitrary value that statements replace. */
  type Contents = seq<string>

  /** `atBegin` is what ROLLBACK goes back to while a transaction is open. */
  datatype Session = Session(inTx: bool, contents: Contents, atBegin: Contents)

  datatype CommitOutcome = Committed | FailedAndRolledBack | FailedStillOpen

  datatype StatementOutcome = Done(contents: Contents) | Failed

  datatype Import = Import(conn: nat, abortOnFailures: Option<nat>, inserted: nat, failedCount: nat, nextRow: nat)

  datatype State = State(
    conns: map<nat, Session>,
    imports: map<nat, Import>,
    txs: map<nat, nat>,         // transaction id -> connection
    activeTx: map<nat, nat>,    // connection -> transaction id
    nextConn: nat,
    nextImport: nat,
    nextTx: nat)

  datatype Request =
    | ConnOpen(contents: Contents)
    | ConnClose(conn: nat)
    | ExecRun(conn: nat, tx: Option<nat>, outcome: StatementOutcome)
    | ExecBatch(conn: nat, statements: seq<StatementOutcome>, stopOnError: bool, inTransaction: bool,
      commit: CommitOutcome)
    | TxBegin(conn: nat, optionsSupported: bool)
    | TxCommit(txId: nat, commit: CommitOutcome)
    | TxRollback(txId: nat, toSavepoint: bool)
    | ImportBegin(conn: nat, paramsValid: bool, columnsNamed: bool, tableKnown: bool, abortOnFailures: Option<nat>)
    | ImportChunk(importId: nat, prepares: bool, rows: seq<StatementOutcome>)
    | ImportCommit(importId: nat, commit: CommitOutcome)
    | ImportAbort(importId: nat)

  datatype ErrorCode =
    | UnknownConn | UnknownTx | UnknownImport | TxNestedNotSupported | TxOptionsNotSupported | InvalidParams
    | SqlError | TxRollbackRequired | FailureThresholdExceeded

  datatype Response =
    | Acknowledged
    | Opened(id: nat)
    | BatchResult(results: seq<bool>, errors: seq<nat>)
    | ChunkResult(inserted: nat)
    | ImportResult(inserted: nat)
    | Error(code: ErrorCode)

  const EMPTY_STATE := State(map[], map[], map[], map[], 1, 1, 1)

  // ---------- the session ----------

  function Begin(s: Session): Option<Session> {
    if s.inTx then None else Some(Session(true, s.contents, s.contents))
  }

  /** The session after COMMIT, and whether the command reported success. */
  function Commit(s: Session, outcome: CommitOutcome): (Session, bool) {
    if !s.inTx then (s, false)
    else
      match outcome
      case Committed => (s.(inTx := false), true)
      case FailedAndRolledBack => (s.(inTx := false, contents := s.atBegin), false)
      case FailedStillOpen => (s, false)
  }

  function Rollback(s: Session): Option<Session> {
    if s.inTx then Some(s.(inTx := false, contents := s.atBegin)) else None
  }

  function Execute(s: Session, outcome: StatementOutcome): Session {
    match outcome
    case Done(contents) => s.(contents := contents)
    case Failed => s
  }

  /** The statements in order, each marked as done or failed, up to the first failure if the batch stops there. */
  function RunBatch(s: Session, statements: seq<StatementOutcome>, stopOnError: bool): (Session, seq<bool>, seq<nat>)
    decreases |statements|
  {
    if statements == [] then (s, [], [])
    else
      var n := |statements| - 1;
      var (before, results, errors) := RunBatch(s, statements[..n], stopOnError);
      if stopOnError && errors != [] then (before, results, errors)
      else
        match statements[n]
        case Done(_) => (Execute(before, statements[n]), results + [true], errors)
        case Failed => (before, results + [false], errors + [n])
  }

  /** The rows of a chunk up to the one that exceeds the failure threshold, if any; false when it was exceeded. */
  function RunChunk(s: Session, imp: Import, rows: seq<StatementOutcome>): (r: (Session, Import, bool))
    ensures r.1.inserted >= imp.inserted
    decreases |rows|
  {
    if rows == [] then (s, imp, true)
    else
      var (before, counted, within) := RunChunk(s, imp, rows[..|rows| - 1]);
      if !within then (before, counted, false)
      else
        var row := rows[|rows| - 1];
        var counted' := Count(counted, row);
        (Execute(before, row), counted', WithinThreshold(counted'))
  }

  function Count(imp: Import, row: StatementOutcome): Import {
    if row.Done? then imp.(inserted := imp.inserted + 1, nextRow := imp.nextRow + 1)
    else imp.(failedCount := imp.failedCount + 1, nextRow := imp.nextRow + 1)
  }

  predicate WithinThreshold(imp: Import) {
    imp.abortOnFailures.Some? ==> imp.failedCount <= imp.abortOnFailures.value
  }

  // ---------- what each request does ----------

  function WithSession(st: State, conn: nat, s: Session): State {
    st.(conns := st.conns[conn := s])
  }

  function WithoutTx(st: State, tx: nat): State
    requires tx in st.txs
  {
    var conn := st.txs[tx];
    st.(txs := st.txs - {tx},
        activeTx := if conn in st.activeTx && st.activeTx[conn] == tx then st.activeTx - {conn} else st.activeTx)
  }

  function ImportsElsewhere(st: State, conn: nat): map<nat, Import> {
    map i | i in st.imports && st.imports[i].conn != conn :: st.imports[i]
  }

  function Closed(st: State, conn: nat): State {
    st.(conns := st.conns - {conn},
        imports := ImportsElsewhere(st, conn),
        txs := if conn in st.activeTx then st.txs - {st.activeTx[conn]} else st.txs,
        activeTx := st.activeTx - {conn})
  }

  function Batch(st: State, conn: nat, statements: seq<StatementOutcome>, stopOnError: bool, inTransaction: bool,
                 commit: CommitOutcome): (State, Response)
  {
    if conn !in st.conns then (st, Error(UnknownConn))
    else if !inTransaction then
      var (s, results, errors) := RunBatch(st.conns[conn], statements, stopOnError);
      (WithSession(st, conn, s), BatchResult(results, errors))
    else
      match Begin(st.conns[conn])
      case None => (st, Error(TxRollbackRequired))
      case Some(begun) =>
        var (s, results, errors) := RunBatch(begun, statements, stopOnError);
        if errors == [] then
          var (after, ok) := Commit(s, commit);
          (WithSession(st, conn, after), if ok then BatchResult(results, errors) else Error(TxRollbackRequired))
        else
          match Rollback(s)
          case None => (WithSession(st, conn, s), Error(TxRollbackRequired))
          case Some(after) => (WithSession(st, conn, after), BatchResult(results, errors))
  }

  function BeginImport(st: State, r: Request): (State, Response)
    requires r.ImportBegin?
  {
    if !r.paramsValid then (st, Error(InvalidParams))
    else if r.conn in st.activeTx then (st, Error(TxNestedNotSupported))
    else if !r.columnsNamed then (st, Error(InvalidParams))
    else if r.conn !in st.conns then (st, Error(UnknownConn))
    else if !r.tableKnown then (st, Error(SqlError))
    else
      match Begin(st.conns[r.conn])
      case None => (st, Error(TxRollbackRequired))
      case Some(s) =>
        (WithSession(st, r.conn, s).(imports := st.imports[st.nextImport := Import(r.conn, r.abortOnFailures, 0, 0, 0)],
                                     nextImport := st.nextImport + 1),
         Opened(st.nextImport))
  }

  function ChunkOf(st: State, id: nat, prepares: bool, rows: seq<StatementOutcome>): (State, Response) {
    if id !in st.imports then (st, Error(UnknownImport))
    else if rows == [] then (st, ChunkResult(0))
    else
      var imp := st.imports[id];
      if imp.conn !in st.conns then (st, Error(UnknownConn))
      else if !prepares then (st, Error(SqlError))
      else
        var (s, counted, within) := RunChunk(st.conns[imp.conn], imp, rows);
        (WithSession(st, imp.conn, s).(imports := st.imports[id := counted]),
         if within then ChunkResult(counted.inserted - imp.inserted) else Error(FailureThresholdExceeded))
  }

  lemma {:induction false} ChunkOnlyCounts(s: Session, imp: Import, rows: seq<StatementOutcome>)
    ensures var (s', imp', _) := RunChunk(s, imp, rows);
            && s'.inTx == s.inTx && s'.atBegin == s.atBegin
            && imp'.conn == imp.conn && imp'.abortOnFailures == imp.abortOnFailures
            && imp'.failedCount >= imp.failedCount
            && imp'.nextRow - imp.nextRow == (imp'.inserted - imp.inserted) + (imp'.failedCount - imp.failedCount)
    decreases |rows|
  {
    if rows != [] {
      ChunkOnlyCounts(s, imp, rows[..|rows| - 1]);
    }
  }

  lemma {:induction false} BatchOnlyExecutes(s: Session, statements: seq<StatementOutcome>, stopOnError: bool)
    ensures var (s', _, _) := RunBatch(s, statements, stopOnError);
            s'.inTx == s.inTx && s'.atBegin == s.atBegin
    decreases |statements|
  {
    if statements != [] {
      BatchOnlyExecutes(s, statements[..|statements| - 1], stopOnError);
    }
  }

  function OpenConn(st: State, contents: Contents): (State, Response) {
    (st.(conns := st.conns[st.nextConn := Session(false, contents, contents)], nextConn := st.nextConn + 1),
     Opened(st.nextConn))
  }

  function CloseConn(st: State, conn: nat): (State, Response) {
    if conn in st.conns then (Closed(st, conn), Acknowledged) else (st, Error(UnknownConn))
  }

  function RunOne(st: State, conn: nat, tx: Option<nat>, outcome: StatementOutcome): (State, Response) {
    if tx.Some? && !(tx.value in st.txs && st.txs[tx.value] == conn) then (st, Error(UnknownTx))
    else if conn !in st.conns then (st, Error(UnknownConn))
    else
      (WithSession(st, conn, Execute(st.conns[conn], outcome)),
       if outcome.Done? then Acknowledged else Error(SqlError))
  }

  function BeginTx(st: State, conn: nat, supported: bool): (State, Response) {
    if !supported then (st, Error(TxOptionsNotSupported))
    else if conn in st.activeTx then (st, Error(TxNestedNotSupported))
    else if conn !in st.conns then (st, Error(UnknownConn))
    else
      match Begin(st.conns[conn])
      case None => (st, Error(TxRollbackRequired))
      case Some(s) =>
        (WithSession(st, conn, s).(txs := st.txs[st.nextTx := conn], activeTx := st.activeTx[conn := st.nextTx],
                                   nextTx := st.nextTx + 1),
         Opened(st.nextTx))
  }

  function CommitTx(st: State, tx: nat, commit: CommitOutcome): (State, Response) {
    if tx !in st.txs then (st, Error(UnknownTx))
    else if st.txs[tx] !in st.conns then (st, Error(UnknownConn))
    else
      var (s, ok) := Commit(st.conns[st.txs[tx]], commit);
      var after := WithSession(st, st.txs[tx], s);
      if ok then (WithoutTx(after, tx), Acknowledged) else (after, Error(TxRollbackRequired))
  }

  function RollBackTx(st: State, tx: nat, toSavepoint: bool): (State, Response) {
    if tx !in st.txs then (st, Error(UnknownTx))
    else if toSavepoint then (st, Error(TxNestedNotSupported))
    else if st.txs[tx] !in st.conns then (st, Error(UnknownConn))
    else
      match Rollback(st.conns[st.txs[tx]])
      case None => (st, Error(TxRollbackRequired))
      case Some(s) => (WithoutTx(WithSession(st, st.txs[tx], s), tx), Acknowledged)
  }

  function CommitImport(st: State, id: nat, commit: CommitOutcome): (State, Response) {
    if id !in st.imports then (st, Error(UnknownImport))
    else
      var imp := st.imports[id];
      var removed := st.(imports := st.imports - {id});
      if imp.conn !in st.conns then (removed, Error(UnknownConn))
      else
        var (s, ok) := Commit(st.conns[imp.conn], commit);
        (WithSession(removed, imp.conn, s), if ok then ImportResult(imp.inserted) else Error(TxRollbackRequired))
  }

  function AbortImport(st: State, id: nat): (State, Response) {
    if id !in st.imports then (st, Error(UnknownImport))
    else
      var imp := st.imports[id];
      var removed := st.(imports := st.imports - {id});
      if imp.conn !in st.conns then (removed, Error(UnknownConn))
      else
        match Rollback(st.conns[imp.conn])
        case None => (removed, Error(TxRollbackRequired))
        case Some(s) => (WithSession(removed, imp.conn, s), Acknowledged)
  }

  function Step(st: State, r: Request): (State, Response) {
    match r
    case ConnOpen(contents) => OpenConn(st, contents)
    case ConnClose(conn) => CloseConn(st, conn)
    case ExecRun(conn, tx, outcome) => RunOne(st, conn, tx, outcome)
    case ExecBatch(conn, statements, stop, inTransaction, commit) =>
      Batch(st, conn, statements, stop, inTransaction, commit)
    case TxBegin(conn, supported) => BeginTx(st, conn, supported)
    case TxCommit(tx, commit) => CommitTx(st, tx, commit)
    case TxRollback(tx, toSavepoint) => RollBackTx(st, tx, toSavepoint)
    case ImportBegin(_, _, _, _, _) => BeginImport(st, r)
    case ImportChunk(id, prepares, rows) => ChunkOf(st, id, prepares, rows)
    case ImportCommit(id, commit) => CommitImport(st, id, commit)
    case ImportAbort(id) => AbortImport(st, id)
  }

  // ---------- agreement ----------

  predicate ImportOn(st: State, conn: nat) {
    exists i :: i in st.imports && st.imports[i].conn == conn
  }

  /** The wire tables are mutually inverse and name live connections only; ids were all handed out before. */
  ghost predicate TablesMatch(st: State) {
    && (forall c :: c in st.activeTx ==> c in st.conns && st.activeTx[c] in st.txs && st.txs[st.activeTx[c]] == c)
    && (forall t :: t in st.txs ==> st.txs[t] in st.activeTx && st.activeTx[st.txs[t]] == t && t < st.nextTx)
    && (forall i :: i in st.imports ==> st.imports[i].conn in st.conns && i < st.nextImport)
    && (forall c :: c in st.conns ==> c < st.nextConn)
  }

  /** One import a connection at most, and never beside a wire transaction. */
  ghost predicate Exclusive(st: State) {
    && (forall i, j :: i in st.imports && j in st.imports && st.imports[i].conn == st.imports[j].conn ==> i == j)
    && (forall i :: i in st.imports ==> st.imports[i].conn !in st.activeTx)
  }

  /** A session is inside a transaction exactly when the driver knows of one for it. */
  ghost predicate FlagsAgree(st: State) {
    forall c :: c in st.conns ==> (st.conns[c].inTx <==> (c in st.activeTx || ImportOn(st, c)))
  }

  ghost predicate Agreement(st: State) {
    TablesMatch(st) && Exclusive(st) && FlagsAgree(st)
  }

  /** The commits whose failure the driver answers with the wrong bookkeeping. */
  predicate Breaks(st: State, r: Request) {
    match r
    case TxCommit(tx, commit) => tx in st.txs && commit.FailedAndRolledBack?
    case ImportCommit(id, commit) => id in st.imports && commit.FailedStillOpen?
    case ExecBatch(conn, statements, stop, inTransaction, commit) =>
      inTransaction && conn in st.conns && !st.conns[conn].inTx && commit.FailedStillOpen?
      && RunBatch(Begin(st.conns[conn]).value, statements, stop).2 == []
    case _ => false
  }

  /** Every request keeps the agreement, except exactly the commits that break it. */
  lemma StepAgreesIff(st: State, r: Request)
    requires Agreement(st)
    ensures Agreement(Step(st, r).0) <==> !Breaks(st, r)
  {
    hide OpenConn, CloseConn, Batch, BeginTx, CommitTx, RollBackTx, BeginImport, ChunkOf, CommitImport, AbortImport;
    match r {
      case ConnOpen(_) => OpenAgrees(st, r);
      case ConnClose(_) => CloseAgrees(st, r);
      case ExecRun(_, _, _) => SameFlags(st, Step(st, r).0);
      case ExecBatch(_, _, _, _, _) => BatchAgrees(st, r);
      case TxBegin(_, _) => TxBeginAgrees(st, r);
      case TxCommit(_, _) => TxCommitAgrees(st, r);
      case TxRollback(_, _) => TxRollbackAgrees(st, r);
      case ImportBegin(_, _, _, _, _) => ImportBeginAgrees(st, r);
      case ImportChunk(_, _, _) => ImportChunkAgrees(st, r);
      case ImportCommit(_, _) => ImportEndAgrees(st, r);
      case ImportAbort(_) => ImportEndAgrees(st, r);
    }
  }

  lemma SameFlags(st: State, st': State)
    requires Agreement(st)
    requires st' == st.(conns := st'.conns) && st'.conns.Keys == st.conns.Keys
    requires forall c :: c in st.conns ==> st'.conns[c].inTx == st.conns[c].inTx
    ensures Agreement(st')
  {
    forall c | c in st'.conns
      ensures st'.conns[c].inTx <==> (c in st'.activeTx || ImportOn(st', c))
    {
      assert ImportOn(st', c) == ImportOn(st, c);
    }
  }

  lemma OpenAgrees(st: State, r: Request)
    requires Agreement(st) && r.ConnOpen?
    ensures Agreement(Step(st, r).0)
  {
    hide CloseConn, RunOne, Batch, BeginTx, CommitTx, RollBackTx, BeginImport, ChunkOf, CommitImport, AbortImport;
    var st' := Step(st, r).0;
    forall c | c in st'.conns
      ensures st'.conns[c].inTx <==> (c in st'.activeTx || ImportOn(st', c))
    {
      assert ImportOn(st', c) == ImportOn(st, c);
      assert !ImportOn(st, st.nextConn);
    }
  }

  lemma ClosedTables(st: State, conn: nat)
    requires TablesMatch(st) && conn in st.conns
    ensures TablesMatch(Closed(st, conn))
  {
  }

  lemma ClosedAgrees(st: State, conn: nat)
    requires Agreement(st) && conn in st.conns
    ensures Agreement(Closed(st, conn))
  {
    var st' := Closed(st, conn);
    ClosedTables(st, conn);
    assert Exclusive(st') by {
      hide FlagsAgree, TablesMatch;
    }
    hide TablesMatch, Exclusive;
    forall c | c in st'.conns ensures st'.conns[c].inTx <==> (c in st'.activeTx || ImportOn(st', c)) {
      assert c != conn;
      if ImportOn(st, c) {
        var i :| i in st.imports && st.imports[i].conn == c;
        assert i in st'.imports && st'.imports[i].conn == c;
      }
    }
  }

  lemma CloseAgrees(st: State, r: Request)
    requires Agreement(st) && r.ConnClose?
    ensures Agreement(Step(st, r).0)
  {
    hide OpenConn, RunOne, Batch, BeginTx, CommitTx, RollBackTx, BeginImport, ChunkOf, CommitImport, AbortImport,
         Agreement;
    if r.conn in st.conns {
      ClosedAgrees(st, r.conn);
    }
  }

  lemma FlagWithoutEntry(st: State, conn: nat, s: Session)
    requires Agreement(st) && conn in st.conns && !st.conns[conn].inTx && s.inTx
    ensures !Agreement(WithSession(st, conn, s))
  {
    var st' := WithSession(st, conn, s);
    NoImportOn(st, conn);
    SameImports(st, st', conn);
    assert conn !in st.activeTx;
  }

  lemma BatchAgrees(st: State, r: Request)
    requires Agreement(st) && r.ExecBatch?
    ensures Agreement(Step(st, r).0) <==> !Breaks(st, r)
  {
    hide OpenConn, CloseConn, RunOne, BeginTx, CommitTx, RollBackTx, BeginImport, ChunkOf, CommitImport, AbortImport,
         Agreement, RunBatch;
    if r.conn in st.conns {
      var st', s := Step(st, r).0, st.conns[r.conn];
      BatchOnlyExecutes(s, r.statements, r.stopOnError);
      if Begin(s).Some? {
        BatchOnlyExecutes(Begin(s).value, r.statements, r.stopOnError);
      }
      if Breaks(st, r) {
        FlagWithoutEntry(st, r.conn, st'.conns[r.conn]);
      } else {
        SameFlags(st, st');
      }
    }
  }

  lemma AddedTables(st: State, st': State, conn: nat)
    requires TablesMatch(st) && conn in st.conns && conn !in st.activeTx && st'.conns.Keys == st.conns.Keys
    requires st' == st.(conns := st'.conns, txs := st.txs[st.nextTx := conn],
                        activeTx := st.activeTx[conn := st.nextTx], nextTx := st.nextTx + 1)
    ensures TablesMatch(st')
  {
  }

  lemma TxAdded(st: State, conn: nat, s: Session)
    requires Agreement(st) && conn in st.conns && conn !in st.activeTx && !st.conns[conn].inTx && s.inTx
    ensures Agreement(WithSession(st, conn, s).(txs := st.txs[st.nextTx := conn],
                                                activeTx := st.activeTx[conn := st.nextTx], nextTx := st.nextTx + 1))
  {
    var st' := WithSession(st, conn, s).(txs := st.txs[st.nextTx := conn], activeTx := st.activeTx[conn := st.nextTx],
                                         nextTx := st.nextTx + 1);
    NoImportOn(st, conn);
    AddedTables(st, st', conn);
    assert Exclusive(st') by {
      hide FlagsAgree, TablesMatch;
    }
    hide TablesMatch, Exclusive;
    forall c | c in st'.conns ensures st'.conns[c].inTx <==> (c in st'.activeTx || ImportOn(st', c)) {
      SameImports(st, st', c);
    }
  }

  lemma TxBeginAgrees(st: State, r: Request)
    requires Agreement(st) && r.TxBegin?
    ensures Agreement(Step(st, r).0)
  {
    hide OpenConn, CloseConn, RunOne, Batch, CommitTx, RollBackTx, BeginImport, ChunkOf, CommitImport, AbortImport,
         Agreement;
    var st' := Step(st, r).0;
    if st' != st {
      TxAdded(st, r.conn, Begin(st.conns[r.conn]).value);
    }
  }

  lemma TxGone(st: State, s: Session, tx: nat)
    requires Agreement(st) && tx in st.txs && !s.inTx
    ensures Agreement(WithoutTx(WithSession(st, st.txs[tx], s), tx))
  {
    var conn := st.txs[tx];
    var st' := WithoutTx(WithSession(st, conn, s), tx);
    forall c | c in st'.conns
      ensures st'.conns[c].inTx <==> (c in st'.activeTx || ImportOn(st', c))
    {
      assert ImportOn(st', c) == ImportOn(st, c);
    }
  }

  lemma TxCommitAgrees(st: State, r: Request)
    requires Agreement(st) && r.TxCommit?
    ensures Agreement(Step(st, r).0) <==> !Breaks(st, r)
  {
    hide OpenConn, CloseConn, RunOne, Batch, BeginTx, RollBackTx, BeginImport, ChunkOf, CommitImport, AbortImport;
    if r.txId in st.txs {
      var conn, st' := st.txs[r.txId], Step(st, r).0;
      match r.commit {
        case Committed => TxGone(st, Commit(st.conns[conn], r.commit).0, r.txId);
        case FailedStillOpen => SameFlags(st, st');
        case FailedAndRolledBack => assert conn in st'.activeTx && !st'.conns[conn].inTx;
      }
    }
  }

  lemma TxRollbackAgrees(st: State, r: Request)
    requires Agreement(st) && r.TxRollback?
    ensures Agreement(Step(st, r).0)
  {
    hide OpenConn, CloseConn, RunOne, Batch, BeginTx, CommitTx, BeginImport, ChunkOf, CommitImport, AbortImport;
    if r.txId in st.txs && !r.toSavepoint {
      TxGone(st, Rollback(st.conns[st.txs[r.txId]]).value, r.txId);
    }
  }

  lemma ImportAdded(st: State, conn: nat, s: Session, imp: Import)
    requires Agreement(st) && conn in st.conns && !st.conns[conn].inTx && s.inTx && imp.conn == conn
    requires conn !in st.activeTx
    ensures Agreement(WithSession(st, conn, s).(imports := st.imports[st.nextImport := imp],
                                                nextImport := st.nextImport + 1))
  {
    var st' := WithSession(st, conn, s).(imports := st.imports[st.nextImport := imp], nextImport := st.nextImport + 1);
    NoImportOn(st, conn);
    assert TablesMatch(st') by {
      hide Exclusive, FlagsAgree, ImportOn;
    }
    assert Exclusive(st') by {
      hide FlagsAgree, TablesMatch;
    }
    assert st.nextImport !in st.imports;
    hide TablesMatch, Exclusive;
    forall c | c in st'.conns ensures st'.conns[c].inTx <==> (c in st'.activeTx || ImportOn(st', c)) {
      OneMoreImport(st, st', imp, c);
    }
  }

  lemma NoImportOn(st: State, conn: nat)
    requires FlagsAgree(st) && conn in st.conns && !st.conns[conn].inTx
    ensures forall i :: i in st.imports ==> st.imports[i].conn != conn
    ensures !ImportOn(st, conn)
  {
  }

  lemma OneMoreImport(st: State, st': State, imp: Import, c: nat)
    requires st.nextImport !in st.imports && st'.imports == st.imports[st.nextImport := imp]
    ensures ImportOn(st', c) <==> ImportOn(st, c) || c == imp.conn
  {
    if ImportOn(st, c) {
      var i :| i in st.imports && st.imports[i].conn == c;
      assert i in st'.imports && st'.imports[i].conn == c;
    }
    assert st'.imports[st.nextImport].conn == imp.conn;
  }

  lemma ImportBeginAgrees(st: State, r: Request)
    requires Agreement(st) && r.ImportBegin?
    ensures Agreement(Step(st, r).0)
  {
    hide OpenConn, CloseConn, RunOne, Batch, BeginTx, CommitTx, RollBackTx, ChunkOf, CommitImport, AbortImport,
         Agreement;
    var st' := Step(st, r).0;
    if st' != st {
      ImportAdded(st, r.conn, Begin(st.conns[r.conn]).value, Import(r.conn, r.abortOnFailures, 0, 0, 0));
    }
  }

  lemma MovedTables(st: State, st': State)
    requires TablesMatch(st) && Exclusive(st) && st' == st.(conns := st'.conns, imports := st'.imports)
    requires st'.conns.Keys == st.conns.Keys && st'.imports.Keys == st.imports.Keys
    requires forall i :: i in st.imports ==> st'.imports[i].conn == st.imports[i].conn
    ensures TablesMatch(st') && Exclusive(st')
  {
    assert TablesMatch(st') by {
      hide Exclusive;
    }
    hide TablesMatch;
  }

  lemma ImportMoved(st: State, id: nat, s: Session, counted: Import)
    requires Agreement(st) && id in st.imports && counted.conn == st.imports[id].conn
    requires counted.conn in st.conns && s.inTx == st.conns[counted.conn].inTx
    ensures Agreement(WithSession(st, counted.conn, s).(imports := st.imports[id := counted]))
  {
    var st' := WithSession(st, counted.conn, s).(imports := st.imports[id := counted]);
    assert st'.imports.Keys == st.imports.Keys;
    assert forall i :: i in st.imports ==> st'.imports[i].conn == st.imports[i].conn;
    MovedTables(st, st');
    hide TablesMatch, Exclusive;
    forall c | c in st'.conns ensures st'.conns[c].inTx <==> (c in st'.activeTx || ImportOn(st', c)) {
      SameImports(st, st', c);
    }
  }

  lemma ImportChunkAgrees(st: State, r: Request)
    requires Agreement(st) && r.ImportChunk?
    ensures Agreement(Step(st, r).0)
  {
    hide OpenConn, CloseConn, RunOne, Batch, BeginTx, CommitTx, RollBackTx, BeginImport, CommitImport, AbortImport,
         Agreement, RunChunk;
    var st' := Step(st, r).0;
    if st' != st {
      var imp := st.imports[r.importId];
      ChunkOnlyCounts(st.conns[imp.conn], imp, r.rows);
      var (s, counted, _) := RunChunk(st.conns[imp.conn], imp, r.rows);
      ImportMoved(st, r.importId, s, counted);
    }
  }

  lemma SameImports(st: State, st': State, c: nat)
    requires st'.imports.Keys == st.imports.Keys
    requires forall i :: i in st.imports ==> st'.imports[i].conn == st.imports[i].conn
    ensures ImportOn(st', c) <==> ImportOn(st, c)
  {
    if ImportOn(st, c) {
      var i :| i in st.imports && st.imports[i].conn == c;
      assert i in st'.imports && st'.imports[i].conn == c;
    }
    if ImportOn(st', c) {
      var i :| i in st'.imports && st'.imports[i].conn == c;
      assert i in st.imports && st.imports[i].conn == c;
    }
  }

  lemma ImportGone(st: State, s: Session, id: nat)
    requires Agreement(st) && id in st.imports && !s.inTx
    ensures Agreement(WithSession(st.(imports := st.imports - {id}), st.imports[id].conn, s))
  {
    var conn := st.imports[id].conn;
    var st' := WithSession(st.(imports := st.imports - {id}), conn, s);
    forall c | c in st'.conns
      ensures st'.conns[c].inTx <==> (c in st'.activeTx || ImportOn(st', c))
    {
      if c == conn {
        assert !ImportOn(st', c);
      } else if ImportOn(st, c) {
        var i :| i in st.imports && st.imports[i].conn == c;
        assert i in st'.imports && st'.imports[i].conn == c;
      }
    }
  }

  lemma ImportIsOpen(st: State, id: nat)
    requires Agreement(st) && id in st.imports
    ensures var conn := st.imports[id].conn;
            conn in st.conns && st.conns[conn].inTx && conn !in st.activeTx && ImportOn(st, conn)
    ensures forall i :: i in st.imports && i != id ==> st.imports[i].conn != st.imports[id].conn
  {
    assert ImportOn(st, st.imports[id].conn);
  }

  lemma ImportLeft(st: State, s: Session, id: nat)
    requires Agreement(st) && id in st.imports && s.inTx
    ensures !Agreement(WithSession(st.(imports := st.imports - {id}), st.imports[id].conn, s))
  {
    ImportIsOpen(st, id);
    var conn := st.imports[id].conn;
    var st' := WithSession(st.(imports := st.imports - {id}), conn, s);
    assert st'.conns[conn].inTx && conn !in st'.activeTx && !ImportOn(st', conn);
  }

  lemma ImportEndAgrees(st: State, r: Request)
    requires Agreement(st) && (r.ImportCommit? || r.ImportAbort?)
    ensures Agreement(Step(st, r).0) <==> !Breaks(st, r)
  {
    hide OpenConn, CloseConn, RunOne, Batch, BeginTx, CommitTx, RollBackTx, BeginImport, ChunkOf, Agreement;
    if r.importId in st.imports {
      ImportIsOpen(st, r.importId);
      var conn := st.imports[r.importId].conn;
      var s := st.conns[conn];
      if r.ImportAbort? {
        ImportGone(st, Rollback(s).value, r.importId);
      } else if !Breaks(st, r) {
        ImportGone(st, Commit(s, r.commit).0, r.importId);
      } else {
        ImportLeft(st, s, r.importId);
      }
    }
  }

  // ---------- whole runs ----------

  function Run(st: State, requests: seq<Request>): State
    decreases |requests|
  {
    if requests == [] then st else Step(Run(st, requests[..|requests| - 1]), requests[|requests| - 1]).0
  }

  /** No commit of the run fails in one of the breaking ways. */
  predicate CommitsHonestly(st: State, requests: seq<Request>)
    decreases |requests|
  {
    requests == []
    || (CommitsHonestly(st, requests[..|requests| - 1])
        && !Breaks(Run(st, requests[..|requests| - 1]), requests[|requests| - 1]))
  }

  lemma {:induction false} RunAgrees(st: State, requests: seq<Request>)
    requires Agreement(st) && CommitsHonestly(st, requests)
    ensures Agreement(Run(st, requests))
    decreases |requests|
  {
    if requests != [] {
      RunAgrees(st, requests[..|requests| - 1]);
      StepAgreesIff(Run(st, requests[..|requests| - 1]), requests[|requests| - 1]);
    }
  }

  /**
   * From the empty state, after any run of requests: a session is in a transaction exactly when it has an active wire
   * transaction or an open import, never both, and the two transaction tables are mutually inverse.
   */
  lemma TransactionAgreement(requests: seq<Request>, c: nat)
    requires CommitsHonestly(EMPTY_STATE, requests)
    ensures var st := Run(EMPTY_STATE, requests);
            && (c in st.conns ==> (st.conns[c].inTx <==> (c in st.activeTx || ImportOn(st, c))))
            && !(c in st.activeTx && ImportOn(st, c))
            && (forall t :: t in st.txs <==> exists d :: d in st.activeTx && st.activeTx[d] == t)
            && (forall t :: t in st.txs ==> st.txs[t] in st.activeTx && st.activeTx[st.txs[t]] == t)
  {
    RunAgrees(EMPTY_STATE, requests);
    var st := Run(EMPTY_STATE, requests);
    forall t
      ensures t in st.txs <==> exists d :: d in st.activeTx && st.activeTx[d] == t
    {
      if t in st.txs {
        assert st.txs[t] in st.activeTx && st.activeTx[st.txs[t]] == t;
      }
    }
  }

  // ---------- what rollback and abort go back to ----------

  /** No request moves the rollback point of a session that is inside a transaction. */
  lemma PointStays(st: State, r: Request, c: nat)
    requires Agreement(st) && c in st.conns && c in Step(st, r).0.conns && st.conns[c].inTx
    ensures Step(st, r).0.conns[c].atBegin == st.conns[c].atBegin
  {
    assert c < st.nextConn;
    hide Agreement, Step;
    PointKept(st, r, c);
  }

  lemma PointKept(st: State, r: Request, c: nat)
    requires c in st.conns && c < st.nextConn && st.conns[c].inTx
    ensures KeepsPoint(st, Step(st, r).0, c)
  {
    hide KeepsPoint, OpenConn, CloseConn, RunOne, Batch, BeginTx, CommitTx, RollBackTx, BeginImport, ChunkOf,
         CommitImport, AbortImport;
    match r
    case ExecBatch(conn, statements, stop, inTransaction, commit) =>
      BatchKeepsPoint(st, c, conn, statements, stop, inTransaction, commit);
    case ImportChunk(id, prepares, rows) => ChunkKeepsPoint(st, c, id, prepares, rows);
    case ImportBegin(_, _, _, _, _) => ImportsKeepPoint(st, c, r, 0, Committed);
    case ImportCommit(id, commit) => ImportsKeepPoint(st, c, ImportBegin(0, false, false, false, None), id, commit);
    case ImportAbort(id) => ImportsKeepPoint(st, c, ImportBegin(0, false, false, false, None), id, Committed);
    case ConnOpen(contents) => ConnsKeepPoint(st, c, contents, 0, None, Failed);
    case ConnClose(conn) => ConnsKeepPoint(st, c, [], conn, None, Failed);
    case ExecRun(conn, tx, outcome) => ConnsKeepPoint(st, c, [], conn, tx, outcome);
    case TxBegin(conn, supported) => TxsKeepPoint(st, c, conn, supported, 0, Committed, false);
    case TxCommit(tx, commit) => TxsKeepPoint(st, c, 0, false, tx, commit, false);
    case TxRollback(tx, toSavepoint) => TxsKeepPoint(st, c, 0, false, tx, Committed, toSavepoint);
  }

  /** The session of c, if it is still there, goes back to where it went back to before. */
  predicate KeepsPoint(st: State, st': State, c: nat)
    requires c in st.conns
  {
    c in st'.conns ==> st'.conns[c].atBegin == st.conns[c].atBegin
  }

  lemma BatchKeepsPoint(st: State, c: nat, conn: nat, statements: seq<StatementOutcome>, stop: bool,
                        inTransaction: bool, commit: CommitOutcome)
    requires c in st.conns && st.conns[c].inTx
    ensures KeepsPoint(st, Batch(st, conn, statements, stop, inTransaction, commit).0, c)
  {
    hide RunBatch;
    if conn in st.conns {
      BatchOnlyExecutes(st.conns[conn], statements, stop);
    }
  }

  lemma ChunkKeepsPoint(st: State, c: nat, id: nat, prepares: bool, rows: seq<StatementOutcome>)
    requires c in st.conns && st.conns[c].inTx
    ensures KeepsPoint(st, ChunkOf(st, id, prepares, rows).0, c)
  {
    hide RunChunk;
    if id in st.imports && st.imports[id].conn in st.conns {
      ChunkOnlyCounts(st.conns[st.imports[id].conn], st.imports[id], rows);
    }
  }

  lemma ImportsKeepPoint(st: State, c: nat, begin: Request, id: nat, commit: CommitOutcome)
    requires c in st.conns && st.conns[c].inTx && begin.ImportBegin?
    ensures KeepsPoint(st, BeginImport(st, begin).0, c) && KeepsPoint(st, CommitImport(st, id, commit).0, c)
    ensures KeepsPoint(st, AbortImport(st, id).0, c)
  {
  }

  lemma ConnsKeepPoint(st: State, c: nat, contents: Contents, conn: nat, tx: Option<nat>, outcome: StatementOutcome)
    requires c in st.conns && c < st.nextConn
    ensures KeepsPoint(st, OpenConn(st, contents).0, c) && KeepsPoint(st, CloseConn(st, conn).0, c)
    ensures KeepsPoint(st, RunOne(st, conn, tx, outcome).0, c)
  {
  }

  lemma TxsKeepPoint(st: State, c: nat, conn: nat, supported: bool, tx: nat, commit: CommitOutcome, toSavepoint: bool)
    requires c in st.conns && st.conns[c].inTx
    ensures KeepsPoint(st, BeginTx(st, conn, supported).0, c) && KeepsPoint(st, CommitTx(st, tx, commit).0, c)
    ensures KeepsPoint(st, RollBackTx(st, tx, toSavepoint).0, c)
  {
  }

  /** Every transaction of the new state that was handed out before is the same as before. */
  ghost predicate TxsKept(st: State, st': State) {
    && st'.nextTx >= st.nextTx
    && forall t :: t in st'.txs && t < st.nextTx ==> t in st.txs && st'.txs[t] == st.txs[t]
  }

  ghost predicate ImportsKept(st: State, st': State) {
    && st'.nextImport >= st.nextImport
    && forall i :: i in st'.imports && i < st.nextImport ==>
         i in st.imports && st'.imports[i].conn == st.imports[i].conn
  }

  lemma TablesKept(st: State, r: Request)
    ensures TxsKept(st, Step(st, r).0) && ImportsKept(st, Step(st, r).0)
  {
    hide TxsKept, ImportsKept, OpenConn, CloseConn, RunOne, Batch, BeginTx, CommitTx, RollBackTx, BeginImport, ChunkOf,
         CommitImport, AbortImport;
    match r
    case ExecBatch(conn, statements, stop, inTransaction, commit) =>
      BatchKeepsTables(st, conn, statements, stop, inTransaction, commit);
    case ImportChunk(id, prepares, rows) => ChunkKeepsTables(st, id, prepares, rows);
    case ImportBegin(_, _, _, _, _) => ImportsKeepTables(st, r, 0, Committed);
    case ImportCommit(id, commit) => ImportsKeepTables(st, ImportBegin(0, false, false, false, None), id, commit);
    case ImportAbort(id) => ImportsKeepTables(st, ImportBegin(0, false, false, false, None), id, Committed);
    case ConnOpen(contents) => ConnsKeepTables(st, contents, 0, None, Failed);
    case ConnClose(conn) => ConnsKeepTables(st, [], conn, None, Failed);
    case ExecRun(conn, tx, outcome) => ConnsKeepTables(st, [], conn, tx, outcome);
    case TxBegin(conn, supported) => TxsKeepTables(st, conn, supported, 0, Committed, false);
    case TxCommit(tx, commit) => TxsKeepTables(st, 0, false, tx, commit, false);
    case TxRollback(tx, toSavepoint) => TxsKeepTables(st, 0, false, tx, Committed, toSavepoint);
  }

  lemma BatchKeepsTables(st: State, conn: nat, statements: seq<StatementOutcome>, stop: bool, inTransaction: bool,
                         commit: CommitOutcome)
    ensures var st' := Batch(st, conn, statements, stop, inTransaction, commit).0;
            TxsKept(st, st') && ImportsKept(st, st')
  {
    hide RunBatch, Commit, Begin, Rollback;
  }

  lemma ChunkKeepsTables(st: State, id: nat, prepares: bool, rows: seq<StatementOutcome>)
    ensures TxsKept(st, ChunkOf(st, id, prepares, rows).0) && ImportsKept(st, ChunkOf(st, id, prepares, rows).0)
  {
    hide RunChunk;
    if id in st.imports && st.imports[id].conn in st.conns {
      ChunkOnlyCounts(st.conns[st.imports[id].conn], st.imports[id], rows);
    }
  }

  lemma ImportsKeepTables(st: State, begin: Request, id: nat, commit: CommitOutcome)
    requires begin.ImportBegin?
    ensures TxsKept(st, BeginImport(st, begin).0) && ImportsKept(st, BeginImport(st, begin).0)
    ensures TxsKept(st, CommitImport(st, id, commit).0) && ImportsKept(st, CommitImport(st, id, commit).0)
    ensures TxsKept(st, AbortImport(st, id).0) && ImportsKept(st, AbortImport(st, id).0)
  {
    hide Commit, Begin, Rollback;
  }

  lemma ConnsKeepTables(st: State, contents: Contents, conn: nat, tx: Option<nat>, outcome: StatementOutcome)
    ensures TxsKept(st, OpenConn(st, contents).0) && ImportsKept(st, OpenConn(st, contents).0)
    ensures TxsKept(st, CloseConn(st, conn).0) && ImportsKept(st, CloseConn(st, conn).0)
    ensures TxsKept(st, RunOne(st, conn, tx, outcome).0) && ImportsKept(st, RunOne(st, conn, tx, outcome).0)
  {
  }

  lemma TxsKeepTables(st: State, conn: nat, supported: bool, tx: nat, commit: CommitOutcome, toSavepoint: bool)
    ensures TxsKept(st, BeginTx(st, conn, supported).0) && ImportsKept(st, BeginTx(st, conn, supported).0)
    ensures TxsKept(st, CommitTx(st, tx, commit).0) && ImportsKept(st, CommitTx(st, tx, commit).0)
    ensures TxsKept(st, RollBackTx(st, tx, toSavepoint).0) && ImportsKept(st, RollBackTx(st, tx, toSavepoint).0)
  {
    hide Commit, Begin, Rollback;
  }

  lemma TxStays(st: State, r: Request, tx: nat)
    requires tx < st.nextTx
    ensures Step(st, r).0.nextTx >= st.nextTx
    ensures tx in Step(st, r).0.txs ==> tx in st.txs && Step(st, r).0.txs[tx] == st.txs[tx]
  {
    TablesKept(st, r);
    hide Step, ImportsKept;
  }

  lemma ImportStays(st: State, r: Request, id: nat)
    requires id < st.nextImport
    ensures Step(st, r).0.nextImport >= st.nextImport
    ensures id in Step(st, r).0.imports ==> id in st.imports && Step(st, r).0.imports[id].conn == st.imports[id].conn
  {
    TablesKept(st, r);
    hide Step, TxsKept;
  }

  /** While a transaction is open its connection and its rollback point stay what they were. */
  lemma TxPointStep(st: State, r: Request, tx: nat)
    requires Agreement(st) && !Breaks(st, r) && tx < st.nextTx
    ensures Step(st, r).0.nextTx >= st.nextTx
    ensures tx in Step(st, r).0.txs ==>
              tx in st.txs && Step(st, r).0.txs[tx] == st.txs[tx]
              && st.txs[tx] in st.conns && st.txs[tx] in Step(st, r).0.conns
              && Step(st, r).0.conns[st.txs[tx]].atBegin == st.conns[st.txs[tx]].atBegin
  {
    StepAgreesIff(st, r);
    TxStays(st, r, tx);
    if tx in Step(st, r).0.txs {
      assert st.txs[tx] in st.activeTx && Step(st, r).0.txs[tx] in Step(st, r).0.activeTx;
      PointStays(st, r, st.txs[tx]);
    }
  }

  lemma {:induction false} TxPointKept(st: State, requests: seq<Request>, tx: nat)
    requires Agreement(st) && CommitsHonestly(st, requests) && tx < st.nextTx
    ensures Run(st, requests).nextTx >= st.nextTx
    ensures tx in Run(st, requests).txs ==>
              tx in st.txs && Run(st, requests).txs[tx] == st.txs[tx]
              && st.txs[tx] in st.conns && st.txs[tx] in Run(st, requests).conns
              && Run(st, requests).conns[st.txs[tx]].atBegin == st.conns[st.txs[tx]].atBegin
    decreases |requests|
  {
    if requests != [] {
      var front := requests[..|requests| - 1];
      TxPointKept(st, front, tx);
      RunAgrees(st, front);
      TxPointStep(Run(st, front), requests[|requests| - 1], tx);
    } else if tx in st.txs {
      assert st.txs[tx] in st.activeTx;
    }
  }

  /**
   * Rollback undoes a transaction: if `tx/begin` handed out an id and any requests followed while that transaction was
   * open, rolling it back succeeds and leaves the database exactly as it was when the transaction began.
   */
  lemma RollbackReturnsToBegin(st: State, conn: nat, requests: seq<Request>)
    requires Agreement(st) && Step(st, TxBegin(conn, true)).1.Opened?
    requires CommitsHonestly(Step(st, TxBegin(conn, true)).0, requests)
    requires Step(st, TxBegin(conn, true)).1.id in Run(Step(st, TxBegin(conn, true)).0, requests).txs
    ensures conn in st.conns
    ensures var begun, tx := Step(st, TxBegin(conn, true)).0, Step(st, TxBegin(conn, true)).1.id;
            var (after, response) := Step(Run(begun, requests), TxRollback(tx, false));
            response == Acknowledged && tx !in after.txs
            && conn in after.conns && !after.conns[conn].inTx && after.conns[conn].contents == st.conns[conn].contents
  {
    var begun, tx := Step(st, TxBegin(conn, true)).0, Step(st, TxBegin(conn, true)).1.id;
    StepAgreesIff(st, TxBegin(conn, true));
    TxPointKept(begun, requests, tx);
    RunAgrees(begun, requests);
    var st' := Run(begun, requests);
    assert st'.activeTx[conn] == tx;
  }

  /** While an import is open its connection and its rollback point stay what they were. */
  lemma ImportPointStep(st: State, r: Request, id: nat)
    requires Agreement(st) && !Breaks(st, r) && id < st.nextImport
    ensures Step(st, r).0.nextImport >= st.nextImport
    ensures id in Step(st, r).0.imports ==>
              id in st.imports && Step(st, r).0.imports[id].conn == st.imports[id].conn
              && st.imports[id].conn in st.conns && st.imports[id].conn in Step(st, r).0.conns
              && Step(st, r).0.conns[st.imports[id].conn].atBegin == st.conns[st.imports[id].conn].atBegin
  {
    StepAgreesIff(st, r);
    ImportStays(st, r, id);
    if id in Step(st, r).0.imports {
      assert ImportOn(st, st.imports[id].conn);
      PointStays(st, r, st.imports[id].conn);
    }
  }

  lemma {:induction false} ImportPointKept(st: State, requests: seq<Request>, id: nat)
    requires Agreement(st) && CommitsHonestly(st, requests) && id < st.nextImport
    ensures Run(st, requests).nextImport >= st.nextImport
    ensures id in Run(st, requests).imports ==>
              id in st.imports && Run(st, requests).imports[id].conn == st.imports[id].conn
              && st.imports[id].conn in st.conns && st.imports[id].conn in Run(st, requests).conns
              && Run(st, requests).conns[st.imports[id].conn].atBegin == st.conns[st.imports[id].conn].atBegin
    decreases |requests|
  {
    if requests != [] {
      var front := requests[..|requests| - 1];
      ImportPointKept(st, front, id);
      RunAgrees(st, front);
      ImportPointStep(Run(st, front), requests[|requests| - 1], id);
    }
  }

  /** Abort undoes an import in the same way, whatever chunks it was sent, counted or not. */
  lemma AbortReturnsToBegin(st: State, begin: Request, requests: seq<Request>)
    requires Agreement(st) && begin.ImportBegin? && Step(st, begin).1.Opened?
    requires CommitsHonestly(Step(st, begin).0, requests)
    requires Step(st, begin).1.id in Run(Step(st, begin).0, requests).imports
    ensures begin.conn in st.conns
    ensures var begun, id := Step(st, begin).0, Step(st, begin).1.id;
            var (after, response) := Step(Run(begun, requests), ImportAbort(id));
            response == Acknowledged && id !in after.imports && begin.conn in after.conns
            && !after.conns[begin.conn].inTx && after.conns[begin.conn].contents == st.conns[begin.conn].contents
  {
    var begun, id := Step(st, begin).0, Step(st, begin).1.id;
    StepAgreesIff(st, begin);
    ImportPointKept(begun, requests, id);
    RunAgrees(begun, requests);
    assert ImportOn(Run(begun, requests), begin.conn);
  }

  // ---------- atomic batches ----------

  lemma {:induction false} CleanBatch(s: Session, statements: seq<StatementOutcome>, stopOnError: bool)
    ensures var (s', results, errors) := RunBatch(s, statements, stopOnError);
            && (errors == [] <==> forall i :: 0 <= i < |statements| ==> statements[i].Done?)
            && (errors == [] ==> |results| == |statements|)
            && (errors == [] ==> s'.contents == if statements == [] then s.contents
              else statements[|statements| - 1].contents)
    decreases |statements|
  {
    if statements != [] {
      var front, last := statements[..|statements| - 1], statements[|statements| - 1];
      CleanBatch(s, front, stopOnError);
      assert forall i :: 0 <= i < |front| ==> front[i] == statements[i];
      assert forall i :: 0 <= i < |statements| ==> statements[i] == if i < |front| then front[i] else last;
      assert last == statements[|statements| - 1];
    }
  }

  /**
   * A batch in a transaction is all or nothing: every statement took effect, or the database is as it was. Where COMMIT
   * fails with the transaction still open nothing is decided: the statements that ran are visible inside it, and a
   * rollback leads back to the contents before the batch.
   */
  lemma BatchIsAtomic(st: State, conn: nat, statements: seq<StatementOutcome>, stop: bool, commit: CommitOutcome)
    requires conn in st.conns
    ensures var (after, response) := Step(st, ExecBatch(conn, statements, stop, true, commit));
            var done := response.BatchResult? && response.errors == [];
            var undecided := after.conns[conn].inTx && !st.conns[conn].inTx;
            && after.conns.Keys == st.conns.Keys
            && (done || undecided ==>
                  (forall i :: 0 <= i < |statements| ==> statements[i].Done?)
                  && (statements != [] ==> after.conns[conn].contents == statements[|statements| - 1].contents))
            && (!done && !undecided ==> after.conns[conn].contents == st.conns[conn].contents)
            && (undecided ==>
                  !done && Rollback(after.conns[conn]).Some?
                  && Rollback(after.conns[conn]).value.contents == st.conns[conn].contents)
            && (undecided <==> !st.conns[conn].inTx && commit.FailedStillOpen?
                               && forall i :: 0 <= i < |statements| ==> statements[i].Done?)
  {
    hide OpenConn, CloseConn, RunOne, BeginTx, CommitTx, RollBackTx, BeginImport, ChunkOf, CommitImport, AbortImport;
    if Begin(st.conns[conn]).Some? {
      BatchOnlyExecutes(Begin(st.conns[conn]).value, statements, stop);
      CleanBatch(Begin(st.conns[conn]).value, statements, stop);
    }
  }

  // ---------- what a broken commit leaves behind ----------

  /**
   * A COMMIT of a transaction that fails and rolls back leaves the driver with a transaction it can neither commit nor
   * roll back, and the connection refuses a new one and an import.
   */
  lemma StuckTransaction(st: State, tx: nat, commit: CommitOutcome, imp: Request)
    requires Agreement(st) && tx in st.txs && imp.ImportBegin? && imp.conn == st.txs[tx] && imp.paramsValid
    ensures var (after, response) := Step(st, TxCommit(tx, FailedAndRolledBack));
            && response == Error(TxRollbackRequired) && !Agreement(after)
            && Step(after, TxCommit(tx, commit)) == (after, Error(TxRollbackRequired))
            && Step(after, TxRollback(tx, false)) == (after, Error(TxRollbackRequired))
            && Step(after, TxBegin(st.txs[tx], true)) == (after, Error(TxNestedNotSupported))
            && Step(after, imp) == (after, Error(TxNestedNotSupported))
  {
    hide OpenConn, CloseConn, RunOne, Batch, ChunkOf, CommitImport, AbortImport;
    hide TablesMatch, Exclusive, FlagsAgree;
    StepAgreesIff(st, TxCommit(tx, FailedAndRolledBack));
    TxIsOpen(st, tx);
    var after := Step(st, TxCommit(tx, FailedAndRolledBack)).0;
    var s := after.conns[st.txs[tx]];
    assert !s.inTx && Commit(s, commit) == (s, false) && Rollback(s) == None;
    assert after.conns[st.txs[tx] := s] == after.conns;
  }

  lemma TxIsOpen(st: State, tx: nat)
    requires Agreement(st) && tx in st.txs
    ensures st.txs[tx] in st.activeTx && st.txs[tx] in st.conns && st.conns[st.txs[tx]].inTx
  {
  }

  /**
   * An import whose COMMIT fails and stays open is forgotten while the session is still inside its transaction: no
   * transaction and no import can begin on that connection, and no request names what is open.
   */
  lemma StrandedImport(st: State, id: nat)
    requires Agreement(st) && id in st.imports
    ensures var (after, response) := Step(st, ImportCommit(id, FailedStillOpen));
            var conn := st.imports[id].conn;
            && response == Error(TxRollbackRequired) && !Agreement(after)
            && conn in after.conns && after.conns[conn].inTx && conn !in after.activeTx && !ImportOn(after, conn)
            && Step(after, TxBegin(conn, true)) == (after, Error(TxRollbackRequired))
            && Step(after, ImportBegin(conn, true, true, true, None)) == (after, Error(TxRollbackRequired))
  {
    hide OpenConn, CloseConn, RunOne, Batch, CommitTx, RollBackTx, ChunkOf, AbortImport;
    StepAgreesIff(st, ImportCommit(id, FailedStillOpen));
    assert ImportOn(st, st.imports[id].conn);
  }

  lemma EmptyAgrees()
    ensures Agreement(EMPTY_STATE)
  {
  }

  /** Such a commit is reached by three requests: open a connection, begin a transaction, commit it. */
  lemma BreakingCommitExample(contents: Contents)
    ensures var st := Run(EMPTY_STATE, [ConnOpen(contents), TxBegin(1, true)]);
            && Agreement(st) && Breaks(st, TxCommit(1, FailedAndRolledBack))
            && !Agreement(Step(st, TxCommit(1, FailedAndRolledBack)).0)
  {
    hide CloseConn, RunOne, Batch, RollBackTx, BeginImport, ChunkOf, CommitImport, AbortImport;
    var requests := [ConnOpen(contents), TxBegin(1, true)];
    var s0 := EMPTY_STATE;
    var s1 := Step(s0, ConnOpen(contents)).0;
    assert requests[..1] == [ConnOpen(contents)] && requests[..1][..0] == [];
    assert Run(s0, requests[..1]) == s1;
    EmptyAgrees();
    hide Agreement;
    StepAgreesIff(s0, ConnOpen(contents));
    StepAgreesIff(s1, TxBegin(1, true));
    StepAgreesIff(Run(s0, requests), TxCommit(1, FailedAndRolledBack));
  }

  /** The second case: an import is begun and its COMMIT fails with the transaction still open. */
  lemma BreakingImportExample(contents: Contents)
    ensures var st := Run(EMPTY_STATE, [ConnOpen(contents), ImportBegin(1, true, true, true, None)]);
            && Agreement(st) && Breaks(st, ImportCommit(1, FailedStillOpen))
            && !Agreement(Step(st, ImportCommit(1, FailedStillOpen)).0)
  {
    hide CloseConn, RunOne, Batch, BeginTx, CommitTx, RollBackTx, ChunkOf, AbortImport;
    var begin := ImportBegin(1, true, true, true, None);
    var requests := [ConnOpen(contents), begin];
    var s0 := EMPTY_STATE;
    var s1 := Step(s0, ConnOpen(contents)).0;
    assert requests[..1] == [ConnOpen(contents)] && requests[..1][..0] == [];
    assert Run(s0, requests[..1]) == s1;
    EmptyAgrees();
    hide Agreement;
    StepAgreesIff(s0, ConnOpen(contents));
    StepAgreesIff(s1, begin);
    StepAgreesIff(Run(s0, requests), ImportCommit(1, FailedStillOpen));
  }

  /** The third: a batch in a transaction of its own whose COMMIT fails in the same way; even an empty one. */
  lemma BreakingBatchExample(contents: Contents)
    ensures var st := Run(EMPTY_STATE, [ConnOpen(contents)]);
            var batch := ExecBatch(1, [], false, true, FailedStillOpen);
            && Agreement(st) && Breaks(st, batch) && !Agreement(Step(st, batch).0)
  {
    hide CloseConn, RunOne, BeginTx, CommitTx, RollBackTx, BeginImport, ChunkOf, CommitImport, AbortImport;
    var requests := [ConnOpen(contents)];
    assert requests[..0] == [];
    assert Run(EMPTY_STATE, requests) == Step(EMPTY_STATE, ConnOpen(contents)).0;
    EmptyAgrees();
    StepAgreesIff(EMPTY_STATE, ConnOpen(contents));
    assert RunBatch(Begin(Session(false, contents, contents)).value, [], false).2 == [];
    hide Agreement, RunBatch;
    StepAgreesIff(Run(EMPTY_STATE, requests), ExecBatch(1, [], false, true, FailedStillOpen));
  }
}
