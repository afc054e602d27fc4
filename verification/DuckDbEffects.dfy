/**
 * What a request does to the databases and what it is answered, told from the request and the tables: which statements
 * take effect, what a commit keeps, whom a request leaves alone.
 */
module DuckDbEffects {
  import opened Wrappers
  import opened DuckDbSession

  // ---------- sequences of statements ----------

  /** The contents the last statement that succeeded left, or those before all of them. */
  function LastDone(statements: seq<StatementOutcome>, before: Contents): Contents {
    if statements == [] then before
    else if statements[|statements| - 1].Done? then statements[|statements| - 1].contents
    else LastDone(statements[..|statements| - 1], before)
  }

  function CountDone(statements: seq<StatementOutcome>): (n: nat)
    ensures n <= |statements|
  {
    if statements == [] then 0
    else CountDone(statements[..|statements| - 1]) + if statements[|statements| - 1].Done? then 1 else 0
  }

  /** The first statement that fails, or how many there are. */
  function FirstFailure(statements: seq<StatementOutcome>): (n: nat)
    ensures n <= |statements| && (n < |statements| ==> statements[n].Failed?)
    ensures forall k :: 0 <= k < n ==> statements[k].Done?
  {
    if statements == [] then 0
    else
      var n, last := FirstFailure(statements[..|statements| - 1]), |statements| - 1;
      if n < last || statements[last].Failed? then n else n + 1
  }

  /** How many statements of a batch run: all, or those up to and with the first failure when it ends there. */
  function BatchLength(statements: seq<StatementOutcome>, stopOnError: bool): (n: nat)
    ensures n <= |statements|
  {
    if stopOnError && FirstFailure(statements) < |statements| then FirstFailure(statements) + 1 else |statements|
  }

  ghost predicate Reported(statements: seq<StatementOutcome>, n: nat, results: seq<bool>, errors: seq<nat>)
    requires n <= |statements|
  {
    && |results| == n && (forall k :: 0 <= k < n ==> (results[k] <==> statements[k].Done?))
    && (forall k: nat :: k in errors <==> k < n && statements[k].Failed?)
    && (forall a, b :: 0 <= a < b < |errors| ==> errors[a] < errors[b])
  }

  lemma ReportedMore(statements: seq<StatementOutcome>, results: seq<bool>, errors: seq<nat>)
    requires statements != []
    requires Reported(statements[..|statements| - 1], |statements| - 1, results, errors)
    ensures var n := |statements| - 1;
      Reported(statements, n + 1, results + [statements[n].Done?], if statements[n].Done? then errors else errors + [n])
  {
    var n := |statements| - 1;
    assert forall k :: 0 <= k < n ==> statements[..n][k] == statements[k];
    assert forall a :: 0 <= a < |errors| ==> errors[a] in errors;
  }

  lemma ReportedFront(statements: seq<StatementOutcome>, n: nat, results: seq<bool>, errors: seq<nat>)
    requires statements != [] && n < |statements| && Reported(statements[..|statements| - 1], n, results, errors)
    ensures Reported(statements, n, results, errors)
  {
    assert forall k :: 0 <= k < n ==> statements[..|statements| - 1][k] == statements[k];
  }

  /** A batch runs its statements in order up to there; each is reported, and exactly the failures as errors. */
  lemma {:induction false} BatchRuns(s: Session, statements: seq<StatementOutcome>, stopOnError: bool)
    ensures var (s', results, errors) := RunBatch(s, statements, stopOnError);
      var n := BatchLength(statements, stopOnError);
      s'.contents == LastDone(statements[..n], s.contents) && Reported(statements, n, results, errors)
    decreases |statements|
  {
    hide Reported;
    if statements == [] {
      NothingReported();
    } else {
      var m := |statements| - 1;
      var front := statements[..m];
      var (before, results, errors) := RunBatch(s, front, stopOnError);
      BatchRuns(s, front, stopOnError);
      FailureSeen(front, BatchLength(front, stopOnError), results, errors);
      if stopOnError && FirstFailure(front) < m {
        ReportedFront(statements, BatchLength(front, true), results, errors);
        assert statements[..FirstFailure(front) + 1] == front[..FirstFailure(front) + 1];
      } else {
        ReportedMore(statements, results, errors);
        assert statements[..m + 1] == statements && front[..m] == front;
      }
    }
  }

  lemma NothingReported()
    ensures Reported([], 0, [], [])
  {
  }

  lemma FailureSeen(statements: seq<StatementOutcome>, n: nat, results: seq<bool>, errors: seq<nat>)
    requires n <= |statements| && Reported(statements, n, results, errors)
    ensures errors != [] <==> FirstFailure(statements) < n
  {
    if errors != [] {
      assert errors[0] in errors;
    }
    if FirstFailure(statements) < n {
      assert FirstFailure(statements) in errors;
    }
  }

  // ---------- chunks of an import ----------

  /** With these rows the import has more failures than it may have. */
  predicate Exceeds(imp: Import, rows: seq<StatementOutcome>) {
    imp.abortOnFailures.Some? && imp.failedCount + |rows| - CountDone(rows) > imp.abortOnFailures.value
  }

  /** How many rows of a chunk run: all, or those up to and with the one that exceeds the threshold. */
  function ChunkLength(imp: Import, rows: seq<StatementOutcome>): (n: nat)
    ensures n <= |rows|
  {
    if rows == [] then 0
    else
      var n, last := ChunkLength(imp, rows[..|rows| - 1]), |rows| - 1;
      if n < last || (last > 0 && Exceeds(imp, rows[..last])) then n else last + 1
  }

  /** A chunk runs its rows in order up to there, and the import counts exactly those. */
  lemma {:induction false} ChunkRuns(s: Session, imp: Import, rows: seq<StatementOutcome>)
    ensures var (s', imp', within) := RunChunk(s, imp, rows);
      var n := ChunkLength(imp, rows);
      && s'.contents == LastDone(rows[..n], s.contents)
      && imp'.inserted == imp.inserted + CountDone(rows[..n])
      && imp'.failedCount == imp.failedCount + n - CountDone(rows[..n])
      && imp'.nextRow == imp.nextRow + n && imp'.abortOnFailures == imp.abortOnFailures && imp'.conn == imp.conn
      && (within <==> rows == [] || (n == |rows| && !Exceeds(imp, rows)))
    decreases |rows|
  {
    if rows != [] {
      var m := |rows| - 1;
      var front, n := rows[..m], ChunkLength(imp, rows[..m]);
      ChunkRuns(s, imp, front);
      assert front[..n] == rows[..n];
      assert front[..m] == front;
      assert rows[..m + 1] == rows;
    }
  }

  predicate ExceedsAt(imp: Import, rows: seq<StatementOutcome>, k: nat) {
    k <= |rows| && Exceeds(imp, rows[..k])
  }

  /** That is the first place at which the threshold is exceeded, or the end. */
  lemma {:induction false} ChunkEndsThere(imp: Import, rows: seq<StatementOutcome>)
    ensures var n := ChunkLength(imp, rows);
      && (rows != [] ==> n > 0) && (n < |rows| ==> ExceedsAt(imp, rows, n))
      && (forall k: nat :: 0 < k < n ==> !ExceedsAt(imp, rows, k))
    decreases |rows|
  {
    if rows != [] {
      var last := |rows| - 1;
      var front := rows[..last];
      ChunkEndsThere(imp, front);
      forall k: nat | k <= last ensures ExceedsAt(imp, front, k) <==> ExceedsAt(imp, rows, k) {
        assert front[..k] == rows[..k];
      }
      assert front[..last] == front;
    }
  }

  // ---------- whom a request concerns ----------

  /** The connection a request is about. */
  function ConnOf(st: State, r: Request): Option<nat> {
    match r
    case ConnOpen(_) => None
    case ConnClose(conn) => Some(conn)
    case ExecRun(conn, _, _) => Some(conn)
    case ExecBatch(conn, _, _, _, _) => Some(conn)
    case TxBegin(conn, _) => Some(conn)
    case TxCommit(tx, _) => if tx in st.txs then Some(st.txs[tx]) else None
    case TxRollback(tx, _) => if tx in st.txs then Some(st.txs[tx]) else None
    case ImportBegin(conn, _, _, _, _) => Some(conn)
    case ImportChunk(id, _, _) => if id in st.imports then Some(st.imports[id].conn) else None
    case ImportCommit(id, _) => if id in st.imports then Some(st.imports[id].conn) else None
    case ImportAbort(id) => if id in st.imports then Some(st.imports[id].conn) else None
  }

  /** A request leaves the sessions of all other connections as they are. */
  lemma OthersUntouched(st: State, r: Request, c: nat)
    requires c in st.conns && c < st.nextConn && ConnOf(st, r) != Some(c)
    ensures c in Step(st, r).0.conns && Step(st, r).0.conns[c] == st.conns[c]
  {
    hide RunBatch, RunChunk;
  }

  // ---------- refusals ----------

  /** Why a request is refused before anything is done, in the order of the checks. */
  function Refusal(st: State, r: Request): Option<ErrorCode> {
    match r
    case ConnOpen(_) => None
    case ConnClose(conn) => if conn !in st.conns then Some(UnknownConn) else None
    case ExecRun(conn, tx, _) =>
      if tx.Some? && (tx.value !in st.txs || st.txs[tx.value] != conn) then Some(UnknownTx)
      else if conn !in st.conns then Some(UnknownConn) else None
    case ExecBatch(conn, _, _, inTransaction, _) =>
      if conn !in st.conns then Some(UnknownConn)
      else if inTransaction && st.conns[conn].inTx then Some(TxRollbackRequired) else None
    case TxBegin(conn, optionsSupported) =>
      if !optionsSupported then Some(TxOptionsNotSupported)
      else if conn in st.activeTx then Some(TxNestedNotSupported)
      else if conn !in st.conns then Some(UnknownConn)
      else if st.conns[conn].inTx then Some(TxRollbackRequired) else None
    case TxCommit(tx, _) =>
      if tx !in st.txs then Some(UnknownTx) else if st.txs[tx] !in st.conns then Some(UnknownConn) else None
    case TxRollback(tx, toSavepoint) =>
      if tx !in st.txs then Some(UnknownTx)
      else if toSavepoint then Some(TxNestedNotSupported)
      else if st.txs[tx] !in st.conns then Some(UnknownConn)
      else if !st.conns[st.txs[tx]].inTx then Some(TxRollbackRequired) else None
    case ImportBegin(conn, paramsValid, columnsNamed, tableKnown, _) =>
      if !paramsValid then Some(InvalidParams)
      else if conn in st.activeTx then Some(TxNestedNotSupported)
      else if !columnsNamed then Some(InvalidParams)
      else if conn !in st.conns then Some(UnknownConn)
      else if !tableKnown then Some(SqlError)
      else if st.conns[conn].inTx then Some(TxRollbackRequired) else None
    case ImportChunk(id, prepares, rows) =>
      if id !in st.imports then Some(UnknownImport)
      else if rows == [] then None
      else if st.imports[id].conn !in st.conns then Some(UnknownConn)
      else if !prepares then Some(SqlError) else None
    case ImportCommit(id, _) => if id !in st.imports then Some(UnknownImport) else None
    case ImportAbort(id) => if id !in st.imports then Some(UnknownImport) else None
  }

  /** A refused request is answered with its reason and changes nothing at all. */
  lemma RefusedChangesNothing(st: State, r: Request)
    requires Refusal(st, r).Some?
    ensures Step(st, r) == (st, Error(Refusal(st, r).value))
  {
    hide RunBatch, RunChunk;
  }

  // ---------- effects ----------

  /** COMMIT: what was done stays, unless the database itself took it back. */
  predicate AfterCommit(before: Session, after: Session, outcome: CommitOutcome) {
    if !before.inTx then after == before
    else match outcome
      case Committed => !after.inTx && after.contents == before.contents
      case FailedAndRolledBack => !after.inTx && after.contents == before.atBegin
      case FailedStillOpen => after == before
  }

  predicate AfterRollback(before: Session, after: Session) {
    if before.inTx then !after.inTx && after.contents == before.atBegin else after == before
  }

  predicate Ran(before: Session, after: Session, contents: Contents) {
    after.inTx == before.inTx && after.atBegin == before.atBegin && after.contents == contents
  }

  /** What a request that was not refused makes of the session it is about. */
  predicate Effect(r: Request, before: Session, after: Session, imp: Option<Import>) {
    match r
    case ExecRun(_, _, outcome) => Ran(before, after, LastDone([outcome], before.contents))
    case ExecBatch(_, statements, stopOnError, inTransaction, commit) =>
      var done := LastDone(statements[..BatchLength(statements, stopOnError)], before.contents);
      if !inTransaction then Ran(before, after, done)
      else if FirstFailure(statements) < |statements| then !after.inTx && after.contents == before.contents
      else AfterCommit(Session(true, done, before.contents), after, commit)
    case TxBegin(_, _) => after == Session(true, before.contents, before.contents)
    case TxCommit(_, commit) => AfterCommit(before, after, commit)
    case TxRollback(_, _) => AfterRollback(before, after)
    case ImportBegin(_, _, _, _, _) => after == Session(true, before.contents, before.contents)
    case ImportChunk(_, _, rows) =>
      imp.Some? && Ran(before, after, LastDone(rows[..ChunkLength(imp.value, rows)], before.contents))
    case ImportCommit(_, commit) => AfterCommit(before, after, commit)
    case ImportAbort(_) => AfterRollback(before, after)
    case _ => true
  }

  function ImportOf(st: State, r: Request): Option<Import> {
    if r.ImportChunk? && r.importId in st.imports then Some(st.imports[r.importId]) else None
  }

  lemma EffectsAre(st: State, r: Request, c: nat)
    requires Refusal(st, r).None? && ConnOf(st, r) == Some(c) && c in st.conns && !r.ConnClose?
    ensures c in Step(st, r).0.conns
    ensures Effect(r, st.conns[c], Step(st, r).0.conns[c], ImportOf(st, r))
  {
    match r
    case ExecBatch(_, statements, stopOnError, inTransaction, commit) =>
      BatchEffect(st, c, statements, stopOnError, inTransaction, commit);
    case ImportChunk(id, _, rows) =>
      ChunkRuns(st.conns[c], st.imports[id], rows);
      ChunkOnlyCounts(st.conns[c], st.imports[id], rows);
    case ExecRun(_, _, outcome) => assert [outcome][..0] == [];
    case _ =>
  }

  lemma BatchEffect(st: State, c: nat, statements: seq<StatementOutcome>, stopOnError: bool, inTransaction: bool,
    commit: CommitOutcome)
    requires c in st.conns && !(inTransaction && st.conns[c].inTx)
    ensures var r := ExecBatch(c, statements, stopOnError, inTransaction, commit);
      c in Step(st, r).0.conns && Effect(r, st.conns[c], Step(st, r).0.conns[c], None)
  {
    hide RunBatch, LastDone, BatchLength, FirstFailure, Reported;
    var s := if inTransaction then Begin(st.conns[c]).value else st.conns[c];
    BatchRuns(s, statements, stopOnError);
    BatchOnlyExecutes(s, statements, stopOnError);
    var (_, results, errors) := RunBatch(s, statements, stopOnError);
    FailureSeen(statements, BatchLength(statements, stopOnError), results, errors);
    FailureRuns(statements, stopOnError);
  }

  lemma FailureRuns(statements: seq<StatementOutcome>, stopOnError: bool)
    ensures FirstFailure(statements) < BatchLength(statements, stopOnError)
      <==> FirstFailure(statements) < |statements|
  {
  }

  // ---------- answers ----------

  /** What a request that was not refused is answered. */
  ghost predicate Answer(st: State, r: Request, response: Response)
    requires Refusal(st, r).None?
  {
    match r
    case ConnOpen(_) => response == Opened(st.nextConn)
    case ConnClose(_) => response == Acknowledged
    case ExecRun(_, _, outcome) => response == if outcome.Done? then Acknowledged else Error(SqlError)
    case ExecBatch(conn, statements, stopOnError, inTransaction, commit) =>
      if inTransaction && FirstFailure(statements) == |statements| && !commit.Committed? then
        response == Error(TxRollbackRequired)
      else
        response.BatchResult?
        && Reported(statements, BatchLength(statements, stopOnError), response.results, response.errors)
    case TxBegin(_, _) => response == Opened(st.nextTx)
    case TxCommit(tx, commit) =>
      response == if EndsWell(st, st.txs[tx], commit) then Acknowledged else Error(TxRollbackRequired)
    case TxRollback(_, _) => response == Acknowledged
    case ImportBegin(_, _, _, _, _) => response == Opened(st.nextImport)
    case ImportChunk(id, _, rows) =>
      if ChunkLength(st.imports[id], rows) == |rows| && (rows == [] || !Exceeds(st.imports[id], rows)) then
        response == ChunkResult(CountDone(rows))
      else
        response == Error(FailureThresholdExceeded)
    case ImportCommit(id, commit) =>
      var imp := st.imports[id];
      response ==
        if imp.conn !in st.conns then Error(UnknownConn)
        else if EndsWell(st, imp.conn, commit) then ImportResult(imp.inserted) else Error(TxRollbackRequired)
    case ImportAbort(id) =>
      var imp := st.imports[id];
      response ==
        if imp.conn !in st.conns then Error(UnknownConn)
        else if st.conns[imp.conn].inTx then Acknowledged else Error(TxRollbackRequired)
  }

  predicate EndsWell(st: State, conn: nat, commit: CommitOutcome)
    requires conn in st.conns
  {
    st.conns[conn].inTx && commit.Committed?
  }

  lemma AnswersAre(st: State, r: Request)
    requires Refusal(st, r).None?
    ensures Answer(st, r, Step(st, r).1)
  {
    match r
    case ExecBatch(conn, statements, stopOnError, inTransaction, commit) =>
      BatchAnswer(st, conn, statements, stopOnError, inTransaction, commit);
    case ImportChunk(id, _, rows) =>
      if rows != [] {
        ChunkRuns(st.conns[st.imports[id].conn], st.imports[id], rows);
        assert rows[..|rows|] == rows;
      }
    case _ => hide RunBatch, RunChunk;
  }

  lemma BatchAnswer(st: State, c: nat, statements: seq<StatementOutcome>, stopOnError: bool, inTransaction: bool,
    commit: CommitOutcome)
    requires c in st.conns && !(inTransaction && st.conns[c].inTx)
    ensures var r := ExecBatch(c, statements, stopOnError, inTransaction, commit); Answer(st, r, Step(st, r).1)
  {
    hide RunBatch, LastDone, BatchLength, FirstFailure, Reported;
    var s := if inTransaction then Begin(st.conns[c]).value else st.conns[c];
    BatchRuns(s, statements, stopOnError);
    BatchOnlyExecutes(s, statements, stopOnError);
    var (_, results, errors) := RunBatch(s, statements, stopOnError);
    FailureSeen(statements, BatchLength(statements, stopOnError), results, errors);
    FailureRuns(statements, stopOnError);
    FailureIsInside(statements);
  }

  lemma FailureIsInside(statements: seq<StatementOutcome>)
    ensures FirstFailure(statements) <= |statements|
  {
  }

  // ---------- the tables ----------

  /** What is opened is there under its id, as it was asked for; nothing else gets an id. */
  lemma OpenedIsThere(st: State, r: Request)
    requires Refusal(st, r).None?
    ensures var (after, response) := Step(st, r);
      && (response.Opened? <==> r.ConnOpen? || r.TxBegin? || r.ImportBegin?)
      && (r.ConnOpen? ==>
            response.id in after.conns && after.conns[response.id] == Session(false, r.contents, r.contents))
      && (r.TxBegin? ==>
            && response.id in after.txs && after.txs[response.id] == r.conn
            && r.conn in after.activeTx && after.activeTx[r.conn] == response.id)
      && (r.ImportBegin? ==>
            response.id in after.imports && after.imports[response.id] == Import(r.conn, r.abortOnFailures, 0, 0, 0))
  {
    hide RunBatch, RunChunk;
  }

  /** Ids go up with every opening and with nothing else, so none is given twice. */
  lemma IdsGoUp(st: State, r: Request)
    ensures var (after, response) := Step(st, r);
      && after.nextConn == st.nextConn + (if r.ConnOpen? then 1 else 0)
      && after.nextTx == st.nextTx + (if r.TxBegin? && response.Opened? then 1 else 0)
      && after.nextImport == st.nextImport + (if r.ImportBegin? && response.Opened? then 1 else 0)
      && (response.Opened? ==>
            response.id == if r.ConnOpen? then st.nextConn else if r.TxBegin? then st.nextTx else st.nextImport)
  {
    hide RunBatch, RunChunk;
  }

  predicate TxLeaves(st: State, r: Request, tx: nat)
    requires tx in st.txs
  {
    || (r.TxCommit? && r.txId == tx && st.txs[tx] in st.conns && EndsWell(st, st.txs[tx], r.commit))
    || (r == TxRollback(tx, false) && st.txs[tx] in st.conns && st.conns[st.txs[tx]].inTx)
    || (r == ConnClose(st.txs[tx]) && st.txs[tx] in st.conns)
  }

  predicate ImportLeaves(st: State, r: Request, id: nat)
    requires id in st.imports
  {
    || (r.ImportCommit? && r.importId == id) || r == ImportAbort(id)
    || (r == ConnClose(st.imports[id].conn) && st.imports[id].conn in st.conns)
  }

  /** A chunk's rows are counted, and nothing else about an import ever changes. */
  predicate Counted(st: State, r: Request, id: nat, before: Import, after: Import) {
    if r.ImportChunk? && r.importId == id && Refusal(st, r).None? then
      var n := ChunkLength(before, r.rows);
      var done := CountDone(r.rows[..n]);
      after == before.(inserted := before.inserted + done, failedCount := before.failedCount + n - done,
        nextRow := before.nextRow + n)
    else after == before
  }

  /** A transaction leaves the tables exactly with its successful end or its connection, and never changes hands. */
  lemma TxsStay(st: State, r: Request, tx: nat)
    requires TablesMatch(st) && tx in st.txs
    ensures var after := Step(st, r).0;
      && (tx in after.txs <==> !TxLeaves(st, r, tx))
      && (tx in after.txs ==> after.txs[tx] == st.txs[tx])
  {
    hide RunBatch, RunChunk;
  }

  /** An import leaves its table exactly with its commit, its abort or its connection; until then it counts its rows. */
  lemma ImportsStay(st: State, r: Request, id: nat)
    requires TablesMatch(st) && id in st.imports
    ensures var after := Step(st, r).0;
      && (id in after.imports <==> !ImportLeaves(st, r, id))
      && (id in after.imports ==> Counted(st, r, id, st.imports[id], after.imports[id]))
  {
    hide RunBatch, RunChunk;
    if r.ImportChunk? && r.importId == id && Refusal(st, r).None? {
      ChunkRuns(st.conns[st.imports[id].conn], st.imports[id], r.rows);
      assert r.rows == [] ==> r.rows[..0] == [];
    }
  }

  // ---------- what a commit keeps ----------

  /**
   * The counterpart of rolling back: after any requests between, an acknowledged commit leaves the connection outside
   * a transaction with exactly the contents it had before, and it is acknowledged exactly when COMMIT succeeds.
   */
  lemma CommitKeepsEffects(st: State, conn: nat, requests: seq<Request>, commit: CommitOutcome)
    requires Agreement(st) && Step(st, TxBegin(conn, true)).1.Opened?
    requires CommitsHonestly(Step(st, TxBegin(conn, true)).0, requests)
    requires Step(st, TxBegin(conn, true)).1.id in Run(Step(st, TxBegin(conn, true)).0, requests).txs
    ensures var tx := Step(st, TxBegin(conn, true)).1.id;
            var st' := Run(Step(st, TxBegin(conn, true)).0, requests);
            var (after, response) := Step(st', TxCommit(tx, commit));
            && conn in st'.conns && conn in after.conns && st'.conns[conn].inTx
            && (response == Acknowledged <==> commit.Committed?)
            && (response == Acknowledged ==>
                  && tx !in after.txs && conn !in after.activeTx && !after.conns[conn].inTx
                  && after.conns[conn].contents == st'.conns[conn].contents)
            && (commit.FailedAndRolledBack? ==> after.conns[conn].contents == st.conns[conn].contents)
  {
    var begun, tx := Step(st, TxBegin(conn, true)).0, Step(st, TxBegin(conn, true)).1.id;
    StepAgreesIff(st, TxBegin(conn, true));
    TxPointKept(begun, requests, tx);
    RunAgrees(begun, requests);
    var st' := Run(begun, requests);
    assert st'.activeTx[conn] == tx;
    hide Run, Step, Agreement, TablesMatch, CommitsHonestly;
    CommitOf(st', tx, conn, commit);
    TxBeganAt(st, conn);
  }

  lemma CommitOf(st: State, tx: nat, conn: nat, commit: CommitOutcome)
    requires tx in st.txs && st.txs[tx] == conn && conn in st.conns && st.conns[conn].inTx
    requires conn in st.activeTx && st.activeTx[conn] == tx
    ensures var (after, response) := Step(st, TxCommit(tx, commit));
            && conn in after.conns && (response == Acknowledged <==> commit.Committed?)
            && (response == Acknowledged ==>
                  && tx !in after.txs && conn !in after.activeTx && !after.conns[conn].inTx
                  && after.conns[conn].contents == st.conns[conn].contents)
            && (commit.FailedAndRolledBack? ==> after.conns[conn].contents == st.conns[conn].atBegin)
  {
  }

  lemma TxBeganAt(st: State, conn: nat)
    requires Step(st, TxBegin(conn, true)).1.Opened?
    ensures conn in st.conns && conn in Step(st, TxBegin(conn, true)).0.conns
    ensures Step(st, TxBegin(conn, true)).0.conns[conn].atBegin == st.conns[conn].contents
  {
  }

  /** The same for an import: its commit, acknowledged with all the rows counted, keeps what its chunks did. */
  lemma ImportCommitKeepsEffects(st: State, begin: Request, requests: seq<Request>, commit: CommitOutcome)
    requires Agreement(st) && begin.ImportBegin? && Step(st, begin).1.Opened?
    requires CommitsHonestly(Step(st, begin).0, requests)
    requires Step(st, begin).1.id in Run(Step(st, begin).0, requests).imports
    ensures var id := Step(st, begin).1.id;
            var st' := Run(Step(st, begin).0, requests);
            var (after, response) := Step(st', ImportCommit(id, commit));
            && begin.conn in st'.conns && begin.conn in after.conns && st'.conns[begin.conn].inTx
            && (response == ImportResult(st'.imports[id].inserted) <==> commit.Committed?)
            && id !in after.imports
            && (commit.Committed? ==>
                  !after.conns[begin.conn].inTx
                  && after.conns[begin.conn].contents == st'.conns[begin.conn].contents)
  {
    var begun, id := Step(st, begin).0, Step(st, begin).1.id;
    StepAgreesIff(st, begin);
    ImportPointKept(begun, requests, id);
    RunAgrees(begun, requests);
    assert ImportOn(Run(begun, requests), begin.conn);
  }
}
