/**
 * What the server answers and where it lets SQL run, told from its tables, the requests and what the library said. None
 * of the statements names the functions that say what a request does.
 */
module GoServerAnswers {
  import opened Wrappers
  import opened GoServer
  import opened GoServerLaws

  // ---------- where SQL runs ----------

  predicate IsTx(w: World, id: nat, conn: nat, h: Handle) {
    id in w.txs && w.txs[id].conn == conn && w.txs[id].handle == h
  }

  predicate IsConn(w: World, conn: nat, h: Handle) {
    conn in w.conns && w.conns[conn] == h
  }

  /** The request has SQL to run, and this is the handle it must run on. */
  predicate RunsOn(w: World, request: Request, h: Handle) {
    match request
    case QueryStart(conn, tx, _) =>
      conn in w.conns && if tx.Some? then IsTx(w, tx.value, conn, h) else IsConn(w, conn, h)
    case ExecRun(conn, tx, _) =>
      conn in w.conns && if tx.Some? then IsTx(w, tx.value, conn, h) else IsConn(w, conn, h)
    case ExecBatch(conn, inTransaction, tx, _, _) =>
      conn in w.conns && if inTransaction then tx.Some? && h == TxHandle(tx.value) else IsConn(w, conn, h)
    case ImportChunk(id) => id in w.imports && IsConn(w, w.imports[id], h)
    case DataExport(conn, _, bytes) => IsConn(w, conn, h) && bytes.Some?
    case TxRollback(id, toSavepoint) => toSavepoint && id in w.txs && w.txs[id].handle == h
    case TxSavepoint(id, named, _) => named && id in w.txs && w.txs[id].handle == h
    case TxRelease(id, named, _) => named && id in w.txs && w.txs[id].handle == h
    case _ => false
  }

  lemma RunsOnIff(w: World, request: Request, failing: set<Handle>, h: Handle)
    ensures Step(w, request, failing).1.ranOn == Some(h) <==> RunsOn(w, request, h)
  {
  }

  /** What the handler says. */
  predicate Succeeds(w: World, request: Request, failing: set<Handle>) {
    match request
    case ConnTest(open) => open.Pinged? && Db(open.db) !in failing
    case ConnOpen(open) => open.Pinged?
    case ConnClose(conn) =>
      && conn in w.conns && w.conns[conn] !in failing
      && (forall c :: c in w.cursors && w.cursors[c].conn == conn ==> RowsClose(w, c, failing))
      && (forall t :: t in w.txs && w.txs[t].conn == conn ==> w.txs[t].handle !in failing)
    case QueryStart(conn, tx, query) =>
      query.Started? && conn in w.conns && (tx.Some? ==> tx.value in w.txs && w.txs[tx.value].conn == conn)
    case CursorFetch(id, fetch) =>
      && id in w.cursors
      && (w.cursors[id].done || w.cursors[id].rows.None?
          || (fetch.Page? && (fetch.last ==> w.cursors[id].rows.value !in failing)))
    case CursorClose(id) => id in w.cursors && RowsClose(w, id, failing)
    case CursorCancel(id) => id in w.cursors && RowsClose(w, id, failing)
    case ExecRun(conn, tx, succeeds) =>
      succeeds && conn in w.conns && (tx.Some? ==> tx.value in w.txs && w.txs[tx.value].conn == conn)
    case ExecBatch(conn, inTransaction, tx, _, _) =>
      conn in w.conns && (inTransaction ==> tx.Some? && TxHandle(tx.value) !in failing)
    case TxBegin(conn, tx) => conn in w.conns && tx.Some?
    case TxCommit(id) => id in w.txs && w.txs[id].handle !in failing
    case TxRollback(id, _) => id in w.txs && w.txs[id].handle !in failing
    case TxSavepoint(id, named, succeeds) => id in w.txs && named && succeeds
    case TxRelease(id, named, succeeds) => id in w.txs && named && succeeds
    case ImportBegin(conn, formatKnown) => conn in w.conns && formatKnown
    case ImportChunk(id) => id in w.imports && w.imports[id] in w.conns
    case ImportCommit(id) => id in w.imports
    case ImportAbort(_) => true
    case DataExport(conn, _, bytes) => conn in w.conns && bytes.Some?
    case StreamRead(id, _) => id in w.streams
    case StreamClose(_) => true
    case Shutdown =>
      && (forall c :: c in w.conns ==> w.conns[c] !in failing)
      && (forall c :: c in w.cursors ==> RowsClose(w, c, failing))
      && (forall t :: t in w.txs ==> w.txs[t].handle !in failing)
  }

  predicate RowsClose(w: World, cursor: nat, failing: set<Handle>)
    requires cursor in w.cursors
  {
    w.cursors[cursor].rows.Some? ==> w.cursors[cursor].rows.value !in failing
  }

  lemma SucceedsIff(w: World, request: Request, failing: set<Handle>)
    ensures Step(w, request, failing).1.ok <==> Succeeds(w, request, failing)
  {
    if request.ConnClose? {
      CloseSucceedsIff(w, request.conn, failing);
    } else if request.Shutdown? {
      ShutdownSucceedsIff(w, failing);
    } else {
      OthersSucceedIff(w, request, failing);
    }
    hide *;
  }

  lemma OthersSucceedIff(w: World, request: Request, failing: set<Handle>)
    requires !request.ConnClose? && !request.Shutdown?
    ensures Step(w, request, failing).1.ok <==> Succeeds(w, request, failing)
  {
  }

  lemma CloseSucceedsIff(w: World, conn: nat, failing: set<Handle>)
    ensures AfterConnClose(w, conn, failing).1.ok <==> Succeeds(w, ConnClose(conn), failing)
  {
    if conn in w.conns {
      var rows, txs := RowsOf(w.cursors, conn), TxHandlesOf(w.txs, conn);
      DisjointWhen(rows + txs + {w.conns[conn]}, failing);
      assert forall c :: c in w.cursors && w.cursors[c].conn == conn && w.cursors[c].rows.Some? ==>
          w.cursors[c].rows.value in rows;
      assert forall t :: t in w.txs && w.txs[t].conn == conn ==> w.txs[t].handle in txs;
    }
  }

  lemma ShutdownSucceedsIff(w: World, failing: set<Handle>)
    ensures AfterShutdown(w, failing).1.ok <==> Succeeds(w, Shutdown, failing)
  {
    var rows, txs, dbs := AllRows(w.cursors), AllTxHandles(w.txs), AllDbs(w.conns);
    DisjointWhen(rows + txs + dbs, failing);
    assert forall c :: c in w.cursors && w.cursors[c].rows.Some? ==> w.cursors[c].rows.value in rows;
    assert forall t :: t in w.txs ==> w.txs[t].handle in txs;
    assert forall c :: c in w.conns ==> w.conns[c] in dbs;
  }

  /** A transaction's own statements run inside it, a connection's on it; and nothing else runs SQL. */
  lemma SqlRunsWhereAsked(calls: seq<Call>, i: nat, h: Handle)
    requires i < |calls|
    ensures ResponseTo(calls, i).ranOn == Some(h) <==> RunsOn(After(calls[..i]), calls[i].request, h)
  {
    RunsOnIff(After(calls[..i]), calls[i].request, calls[i].failing, h);
  }

  /** Success is reported exactly when the server knows what the request names and nothing it had to do failed. */
  lemma SuccessIsReported(calls: seq<Call>, i: nat)
    requires i < |calls|
    ensures ResponseTo(calls, i).ok <==> Succeeds(After(calls[..i]), calls[i].request, calls[i].failing)
  {
    SucceedsIff(After(calls[..i]), calls[i].request, calls[i].failing);
  }

  // ---------- a batch's failures ----------

  /** Exactly the statements that failed are reported, in order; with stop-on-error only the first, which ends it. */
  lemma {:induction false} FailuresAre(outcomes: seq<bool>, stopOnError: bool)
    ensures var failed := Failures(outcomes, stopOnError);
      && (forall k: nat :: k in failed <==>
            k < |outcomes| && !outcomes[k] && (stopOnError ==> forall m :: 0 <= m < k ==> outcomes[m]))
      && forall a, b :: 0 <= a < b < |failed| ==> failed[a] < failed[b]
    decreases |outcomes|
  {
    if outcomes != [] {
      var n := |outcomes| - 1;
      FailuresAre(outcomes[..n], stopOnError);
      var before := Failures(outcomes[..n], stopOnError);
      assert forall k :: 0 <= k < n ==> outcomes[..n][k] == outcomes[k];
      assert forall a :: 0 <= a < |before| ==> before[a] in before;
      if stopOnError && before != [] {
        assert before[0] in before;
      } else if stopOnError {
        AllSucceed(outcomes[..n]);
      }
    }
  }

  lemma {:induction false} AllSucceed(outcomes: seq<bool>)
    requires Failures(outcomes, true) == []
    ensures forall m :: 0 <= m < |outcomes| ==> outcomes[m]
    decreases |outcomes|
  {
    if outcomes != [] {
      AllSucceed(outcomes[..|outcomes| - 1]);
    }
  }

  lemma BatchReports(calls: seq<Call>, i: nat)
    requires i < |calls| && calls[i].request.ExecBatch? && ResponseTo(calls, i).ok
    ensures var request := calls[i].request;
      forall k: nat :: k in ResponseTo(calls, i).failed <==>
        && k < |request.outcomes| && !request.outcomes[k]
        && (request.stopOnError ==> forall m :: 0 <= m < k ==> request.outcomes[m])
  {
    hide After;
    FailuresAre(calls[i].request.outcomes, calls[i].request.stopOnError);
  }

  // ---------- what was committed ----------

  predicate AllTrue(outcomes: seq<bool>) {
    forall k :: 0 <= k < |outcomes| ==> outcomes[k]
  }

  /** The call asks to commit this handle: the transaction it names, or its own after a batch without failure. */
  predicate AsksToCommit(w: World, request: Request, h: Handle) {
    match request
    case TxCommit(id) => id in w.txs && w.txs[id].handle == h
    case ExecBatch(conn, inTransaction, tx, _, outcomes) =>
      conn in w.conns && inTransaction && tx.Some? && h == TxHandle(tx.value) && AllTrue(outcomes)
    case _ => false
  }

  predicate CommitFits(w: World, outcome: (World, Response), request: Request, h: Handle) {
    h in outcome.0.committed <==> h in w.committed || AsksToCommit(w, request, h)
  }

  lemma CommitsWhenAsked(w: World, request: Request, failing: set<Handle>, h: Handle)
    ensures CommitFits(w, Step(w, request, failing), request, h)
  {
    hide AfterConnTest, AfterConnOpen, AfterConnClose, AfterQueryStart, AfterCursorFetch, AfterCursorClose,
         AfterCursorCancel, AfterExecBatch, AfterTxBegin, AfterTxEnd, AfterTxRollback, AfterShutdown, AfterExecRun,
         AfterImportBegin, AfterImportChunk, AfterExport, AfterStreamRead, AfterTxNamed, CommitFits;
    match request
    case ConnTest(open) => OpenCommits(w, open, failing, h);
    case ConnOpen(open) => OpenCommits(w, open, failing, h);
    case ConnClose(conn) => CloseCommits(w, conn, failing, h);
    case Shutdown => CloseCommits(w, 0, failing, h);
    case QueryStart(conn, tx, query) => QueryCommits(w, conn, tx, query, h);
    case CursorFetch(cursor, fetch) => FetchCommits(w, cursor, fetch, failing, h);
    case CursorClose(cursor) => ShutCommits(w, cursor, failing, h);
    case CursorCancel(cursor) => ShutCommits(w, cursor, failing, h);
    case ExecRun(conn, tx, succeeds) => RunCommits(w, conn, tx, succeeds, h);
    case TxBegin(conn, tx) => RunCommits(w, conn, tx, false, h);
    case ExecBatch(conn, inTransaction, tx, stopOnError, outcomes) =>
      BatchCommits(w, conn, inTransaction, tx, stopOnError, outcomes, failing, h);
    case TxCommit(tx) => EndCommits(w, tx, false, failing, h);
    case TxRollback(tx, toSavepoint) => EndCommits(w, tx, toSavepoint, failing, h);
    case TxSavepoint(tx, named, succeeds) => SavepointCommits(w, tx, named, succeeds, h);
    case TxRelease(tx, named, succeeds) => SavepointCommits(w, tx, named, succeeds, h);
    case ImportBegin(conn, formatKnown) => ImportCommits(w, conn, formatKnown, 0, h);
    case ImportChunk(importId) => ImportCommits(w, 0, false, importId, h);
    case ImportCommit(importId) => ImportEndCommits(w, importId, failing, h);
    case ImportAbort(importId) => ImportEndCommits(w, importId, failing, h);
    case DataExport(conn, stream, bytes) => StreamCommits(w, conn, stream, bytes, 0, failing, h);
    case StreamRead(stream, maxBytes) => StreamCommits(w, 0, stream, None, maxBytes, failing, h);
    case StreamClose(stream) => StreamCommits(w, 0, stream, None, 0, failing, h);
  }

  lemma OpenCommits(w: World, open: OpenOutcome, failing: set<Handle>, h: Handle)
    ensures CommitFits(w, AfterConnTest(w, open, failing), ConnTest(open), h)
    ensures CommitFits(w, AfterConnOpen(w, open), ConnOpen(open), h)
  {
  }

  lemma CloseCommits(w: World, conn: nat, failing: set<Handle>, h: Handle)
    ensures CommitFits(w, AfterConnClose(w, conn, failing), ConnClose(conn), h)
    ensures CommitFits(w, AfterShutdown(w, failing), Shutdown, h)
  {
  }

  lemma QueryCommits(w: World, conn: nat, tx: Option<nat>, query: QueryOutcome, h: Handle)
    ensures CommitFits(w, AfterQueryStart(w, conn, tx, query), QueryStart(conn, tx, query), h)
  {
  }

  lemma FetchCommits(w: World, cursor: nat, fetch: FetchOutcome, failing: set<Handle>, h: Handle)
    ensures CommitFits(w, AfterCursorFetch(w, cursor, fetch, failing), CursorFetch(cursor, fetch), h)
  {
  }

  lemma ShutCommits(w: World, cursor: nat, failing: set<Handle>, h: Handle)
    ensures CommitFits(w, AfterCursorClose(w, cursor, failing), CursorClose(cursor), h)
    ensures CommitFits(w, AfterCursorCancel(w, cursor, failing), CursorCancel(cursor), h)
  {
  }

  lemma RunCommits(w: World, conn: nat, tx: Option<nat>, succeeds: bool, h: Handle)
    ensures CommitFits(w, AfterExecRun(w, conn, tx, succeeds), ExecRun(conn, tx, succeeds), h)
    ensures CommitFits(w, AfterTxBegin(w, conn, tx), TxBegin(conn, tx), h)
  {
  }

  lemma BatchCommits(w: World, conn: nat, inTransaction: bool, tx: Option<nat>, stopOnError: bool,
    outcomes: seq<bool>, failing: set<Handle>, h: Handle)
    ensures CommitFits(w, AfterExecBatch(w, conn, inTransaction, tx, Failures(outcomes, stopOnError), failing),
              ExecBatch(conn, inTransaction, tx, stopOnError, outcomes), h)
  {
    NoFailureIff(outcomes, stopOnError);
  }

  lemma EndCommits(w: World, tx: nat, toSavepoint: bool, failing: set<Handle>, h: Handle)
    ensures CommitFits(w, AfterTxEnd(w, tx, true, failing), TxCommit(tx), h)
    ensures CommitFits(w, AfterTxRollback(w, tx, toSavepoint, failing), TxRollback(tx, toSavepoint), h)
  {
  }

  lemma SavepointCommits(w: World, tx: nat, named: bool, succeeds: bool, h: Handle)
    ensures CommitFits(w, AfterTxNamed(w, tx, named, succeeds), TxSavepoint(tx, named, succeeds), h)
    ensures CommitFits(w, AfterTxNamed(w, tx, named, succeeds), TxRelease(tx, named, succeeds), h)
  {
  }

  lemma ImportCommits(w: World, conn: nat, formatKnown: bool, importId: nat, h: Handle)
    ensures CommitFits(w, AfterImportBegin(w, conn, formatKnown), ImportBegin(conn, formatKnown), h)
    ensures CommitFits(w, AfterImportChunk(w, importId), ImportChunk(importId), h)
  {
  }

  lemma ImportEndCommits(w: World, importId: nat, failing: set<Handle>, h: Handle)
    ensures CommitFits(w, Step(w, ImportCommit(importId), failing), ImportCommit(importId), h)
    ensures CommitFits(w, Step(w, ImportAbort(importId), failing), ImportAbort(importId), h)
  {
  }

  lemma StreamCommits(w: World, conn: nat, stream: nat, bytes: Option<nat>, maxBytes: nat,
    failing: set<Handle>, h: Handle)
    ensures CommitFits(w, AfterExport(w, conn, stream, bytes), DataExport(conn, stream, bytes), h)
    ensures CommitFits(w, AfterStreamRead(w, stream, maxBytes), StreamRead(stream, maxBytes), h)
    ensures CommitFits(w, Step(w, StreamClose(stream), failing), StreamClose(stream), h)
  {
  }

  lemma NoFailureIff(outcomes: seq<bool>, stopOnError: bool)
    ensures Failures(outcomes, stopOnError) == [] <==> AllTrue(outcomes)
  {
    FailuresAre(outcomes, stopOnError);
    if !AllTrue(outcomes) {
      var k := FirstFalse(outcomes);
      assert k in Failures(outcomes, stopOnError);
    } else if Failures(outcomes, stopOnError) != [] {
      assert Failures(outcomes, stopOnError)[0] in Failures(outcomes, stopOnError);
    }
  }

  lemma {:induction false} FirstFalse(outcomes: seq<bool>) returns (k: nat)
    requires !AllTrue(outcomes)
    ensures k < |outcomes| && !outcomes[k] && forall m :: 0 <= m < k ==> outcomes[m]
    decreases |outcomes|
  {
    var front := outcomes[..|outcomes| - 1];
    if AllTrue(front) {
      k := |outcomes| - 1;
    } else {
      k := FirstFalse(front);
    }
  }

  ghost predicate AskedFor(calls: seq<Call>, h: Handle) {
    exists i :: 0 <= i < |calls| && AsksToCommit(After(calls[..i]), calls[i].request, h)
  }

  lemma AskedOneMore(calls: seq<Call>, h: Handle)
    requires calls != []
    ensures var front, last := calls[..|calls| - 1], calls[|calls| - 1];
      AskedFor(calls, h) <==> AskedFor(front, h) || AsksToCommit(After(front), last.request, h)
  {
    hide After, AsksToCommit;
    var front := calls[..|calls| - 1];
    assert forall i :: 0 <= i < |front| ==> front[..i] == calls[..i] && front[i] == calls[i];
  }

  lemma {:induction false} CommittedExactly(calls: seq<Call>, h: Handle)
    ensures h in After(calls).committed <==> AskedFor(calls, h)
    decreases |calls|
  {
    hide Step, AsksToCommit, AskedFor;
    if calls == [] {
      NeverAsked(h);
    } else {
      var front, last := calls[..|calls| - 1], calls[|calls| - 1];
      CommittedExactly(front, h);
      CommitsWhenAsked(After(front), last.request, last.failing, h);
      AskedOneMore(calls, h);
    }
  }

  lemma NeverAsked(h: Handle)
    ensures !AskedFor([], h)
  {
  }

  /** A transaction is committed if and only if a request asked for it; every other end of one is a rollback. */
  lemma CommittedIff(calls: seq<Call>, h: Handle)
    ensures h in After(calls).committed <==>
      exists i :: 0 <= i < |calls| && AsksToCommit(After(calls[..i]), calls[i].request, h)
  {
    hide After, AsksToCommit;
    CommittedExactly(calls, h);
  }

  // ---------- where entries come from ----------

  predicate Issues(calls: seq<Call>, j: int, issued: Issued) {
    0 <= j < |calls| && ResponseTo(calls, j).issued == Some(issued)
  }

  predicate TxFrom(calls: seq<Call>, j: int, id: nat, tx: Tx) {
    && Issues(calls, j, NewTx(id)) && calls[j].request.TxBegin?
    && calls[j].request.tx.Some? && tx == Tx(calls[j].request.conn, TxHandle(calls[j].request.tx.value))
  }

  predicate ConnFrom(calls: seq<Call>, j: int, id: nat, db: Handle) {
    && Issues(calls, j, NewConn(id)) && calls[j].request.ConnOpen?
    && calls[j].request.open.Pinged? && db == Db(calls[j].request.open.db)
  }

  predicate CursorFrom(calls: seq<Call>, j: int, id: nat, cursor: Cursor) {
    && Issues(calls, j, NewCursor(id)) && calls[j].request.QueryStart? && calls[j].request.query.Started?
    && cursor.conn == calls[j].request.conn
    && (cursor.rows.Some? ==> cursor.rows.value == Rows(calls[j].request.query.rows))
  }

  predicate ImportFrom(calls: seq<Call>, j: int, id: nat, conn: nat) {
    && Issues(calls, j, NewImport(id)) && calls[j].request.ImportBegin? && conn == calls[j].request.conn
  }

  // An entry after one request was there before or is the one the request was answered with.

  predicate TxKept(w: World, w': World, r: Response, request: Request, id: nat) {
    id in w'.txs ==>
      || (id in w.txs && w'.txs[id] == w.txs[id])
      || (r.issued == Some(NewTx(id)) && request.TxBegin? && request.tx.Some?
          && w'.txs[id] == Tx(request.conn, TxHandle(request.tx.value)))
  }

  predicate ConnKept(w: World, w': World, r: Response, request: Request, id: nat) {
    id in w'.conns ==>
      || (id in w.conns && w'.conns[id] == w.conns[id])
      || (r.issued == Some(NewConn(id)) && request.ConnOpen? && request.open.Pinged?
          && w'.conns[id] == Db(request.open.db))
  }

  predicate ImportKept(w: World, w': World, r: Response, request: Request, id: nat) {
    id in w'.imports ==>
      || (id in w.imports && w'.imports[id] == w.imports[id])
      || (r.issued == Some(NewImport(id)) && request.ImportBegin? && w'.imports[id] == request.conn)
  }

  predicate CursorKept(w: World, w': World, r: Response, request: Request, id: nat) {
    id in w'.cursors ==>
      || (id in w.cursors && w'.cursors[id].conn == w.cursors[id].conn
          && (w'.cursors[id].rows.Some? ==> w'.cursors[id].rows == w.cursors[id].rows))
      || (r.issued == Some(NewCursor(id)) && request.QueryStart? && request.query.Started?
          && w'.cursors[id].conn == request.conn && w'.cursors[id].rows == Some(Rows(request.query.rows)))
  }

  predicate EntriesKept(w: World, outcome: (World, Response), request: Request, id: nat) {
    && TxKept(w, outcome.0, outcome.1, request, id) && ConnKept(w, outcome.0, outcome.1, request, id)
    && ImportKept(w, outcome.0, outcome.1, request, id) && CursorKept(w, outcome.0, outcome.1, request, id)
  }

  lemma EntriesStep(w: World, request: Request, failing: set<Handle>, id: nat)
    ensures EntriesKept(w, Step(w, request, failing), request, id)
  {
    hide AfterConnTest, AfterConnOpen, AfterConnClose, AfterQueryStart, AfterCursorFetch, AfterCursorClose,
         AfterCursorCancel, AfterExecBatch, AfterTxBegin, AfterTxEnd, AfterTxRollback, AfterShutdown, AfterExecRun,
         AfterImportBegin, AfterImportChunk, AfterExport, AfterStreamRead, AfterTxNamed, EntriesKept;
    match request
    case ConnTest(open) => OpenKeepsEntries(w, open, failing, id);
    case ConnOpen(open) => OpenKeepsEntries(w, open, failing, id);
    case ConnClose(conn) => CloseKeepsEntries(w, conn, failing, id);
    case Shutdown => CloseKeepsEntries(w, 0, failing, id);
    case QueryStart(conn, tx, query) => QueryKeepsEntries(w, conn, tx, query, id);
    case CursorFetch(cursor, fetch) => FetchKeepsEntries(w, cursor, fetch, failing, id);
    case CursorClose(cursor) => ShutKeepsEntries(w, cursor, failing, id);
    case CursorCancel(cursor) => ShutKeepsEntries(w, cursor, failing, id);
    case ExecRun(conn, tx, succeeds) => RunKeepsEntries(w, conn, tx, succeeds, id);
    case TxBegin(conn, tx) => RunKeepsEntries(w, conn, tx, false, id);
    case ExecBatch(conn, inTransaction, tx, stopOnError, outcomes) =>
      BatchKeepsEntries(w, conn, inTransaction, tx, stopOnError, outcomes, failing, id);
    case TxCommit(tx) => EndKeepsEntries(w, tx, false, failing, id);
    case TxRollback(tx, toSavepoint) => EndKeepsEntries(w, tx, toSavepoint, failing, id);
    case TxSavepoint(tx, named, succeeds) => SavepointKeepsEntries(w, tx, named, succeeds, id);
    case TxRelease(tx, named, succeeds) => SavepointKeepsEntries(w, tx, named, succeeds, id);
    case ImportBegin(conn, formatKnown) => ImportKeepsEntries(w, conn, formatKnown, 0, id);
    case ImportChunk(importId) => ImportKeepsEntries(w, 0, false, importId, id);
    case ImportCommit(importId) => ImportEndKeepsEntries(w, importId, failing, id);
    case ImportAbort(importId) => ImportEndKeepsEntries(w, importId, failing, id);
    case DataExport(conn, stream, bytes) => StreamKeepsEntries(w, conn, stream, bytes, 0, failing, id);
    case StreamRead(stream, maxBytes) => StreamKeepsEntries(w, 0, stream, None, maxBytes, failing, id);
    case StreamClose(stream) => StreamKeepsEntries(w, 0, stream, None, 0, failing, id);
  }

  lemma OpenKeepsEntries(w: World, open: OpenOutcome, failing: set<Handle>, id: nat)
    ensures EntriesKept(w, AfterConnTest(w, open, failing), ConnTest(open), id)
    ensures EntriesKept(w, AfterConnOpen(w, open), ConnOpen(open), id)
  {
  }

  lemma CloseKeepsEntries(w: World, conn: nat, failing: set<Handle>, id: nat)
    ensures EntriesKept(w, AfterConnClose(w, conn, failing), ConnClose(conn), id)
    ensures EntriesKept(w, AfterShutdown(w, failing), Shutdown, id)
  {
  }

  lemma QueryKeepsEntries(w: World, conn: nat, tx: Option<nat>, query: QueryOutcome, id: nat)
    ensures EntriesKept(w, AfterQueryStart(w, conn, tx, query), QueryStart(conn, tx, query), id)
  {
  }

  lemma FetchKeepsEntries(w: World, cursor: nat, fetch: FetchOutcome, failing: set<Handle>, id: nat)
    ensures EntriesKept(w, AfterCursorFetch(w, cursor, fetch, failing), CursorFetch(cursor, fetch), id)
  {
  }

  lemma ShutKeepsEntries(w: World, cursor: nat, failing: set<Handle>, id: nat)
    ensures EntriesKept(w, AfterCursorClose(w, cursor, failing), CursorClose(cursor), id)
    ensures EntriesKept(w, AfterCursorCancel(w, cursor, failing), CursorCancel(cursor), id)
  {
  }

  lemma RunKeepsEntries(w: World, conn: nat, tx: Option<nat>, succeeds: bool, id: nat)
    ensures EntriesKept(w, AfterExecRun(w, conn, tx, succeeds), ExecRun(conn, tx, succeeds), id)
    ensures EntriesKept(w, AfterTxBegin(w, conn, tx), TxBegin(conn, tx), id)
  {
  }

  lemma BatchKeepsEntries(w: World, conn: nat, inTransaction: bool, tx: Option<nat>, stopOnError: bool,
    outcomes: seq<bool>, failing: set<Handle>, id: nat)
    ensures EntriesKept(w, AfterExecBatch(w, conn, inTransaction, tx, Failures(outcomes, stopOnError), failing),
              ExecBatch(conn, inTransaction, tx, stopOnError, outcomes), id)
  {
  }

  /** Ending a transaction touches no other table. */
  lemma EndTouchesTxs(w: World, tx: nat, commit: bool, failing: set<Handle>)
    ensures var (w', r) := AfterTxEnd(w, tx, commit, failing);
      && w'.conns == w.conns && w'.cursors == w.cursors && w'.imports == w.imports && w'.streams == w.streams
      && w'.nextCursor == w.nextCursor
      && w'.txs == (if tx in w.txs && w.txs[tx].handle !in failing then w.txs - {tx} else w.txs) && r.issued == None
  {
  }

  lemma EndKeepsEntries(w: World, tx: nat, toSavepoint: bool, failing: set<Handle>, id: nat)
    ensures EntriesKept(w, AfterTxEnd(w, tx, true, failing), TxCommit(tx), id)
    ensures EntriesKept(w, AfterTxRollback(w, tx, toSavepoint, failing), TxRollback(tx, toSavepoint), id)
  {
    hide AfterTxEnd;
    EndTouchesTxs(w, tx, true, failing);
    EndTouchesTxs(w, tx, false, failing);
  }

  lemma SavepointKeepsEntries(w: World, tx: nat, named: bool, succeeds: bool, id: nat)
    ensures EntriesKept(w, AfterTxNamed(w, tx, named, succeeds), TxSavepoint(tx, named, succeeds), id)
    ensures EntriesKept(w, AfterTxNamed(w, tx, named, succeeds), TxRelease(tx, named, succeeds), id)
  {
  }

  lemma ImportKeepsEntries(w: World, conn: nat, formatKnown: bool, importId: nat, id: nat)
    ensures EntriesKept(w, AfterImportBegin(w, conn, formatKnown), ImportBegin(conn, formatKnown), id)
    ensures EntriesKept(w, AfterImportChunk(w, importId), ImportChunk(importId), id)
  {
  }

  lemma ImportEndKeepsEntries(w: World, importId: nat, failing: set<Handle>, id: nat)
    ensures EntriesKept(w, Step(w, ImportCommit(importId), failing), ImportCommit(importId), id)
    ensures EntriesKept(w, Step(w, ImportAbort(importId), failing), ImportAbort(importId), id)
  {
  }

  lemma StreamKeepsEntries(w: World, conn: nat, stream: nat, bytes: Option<nat>, maxBytes: nat,
    failing: set<Handle>, id: nat)
    ensures EntriesKept(w, AfterExport(w, conn, stream, bytes), DataExport(conn, stream, bytes), id)
    ensures EntriesKept(w, AfterStreamRead(w, stream, maxBytes), StreamRead(stream, maxBytes), id)
    ensures EntriesKept(w, Step(w, StreamClose(stream), failing), StreamClose(stream), id)
  {
  }

  lemma EarlierIssues(calls: seq<Call>, j: int, issued: Issued)
    requires calls != [] && Issues(calls[..|calls| - 1], j, issued)
    ensures Issues(calls, j, issued) && calls[..|calls| - 1][j] == calls[j]
  {
    assert calls[..|calls| - 1][..j] == calls[..j];
  }

  /**
   * Every transaction in the table is the one its id was issued for: same connection, and the very handle the library
   * opened then. So are connections, imports and cursors.
   */
  lemma {:induction false} EntriesAreIssued(calls: seq<Call>, id: nat)
    ensures id in After(calls).txs ==> exists j :: TxFrom(calls, j, id, After(calls).txs[id])
    ensures id in After(calls).conns ==> exists j :: ConnFrom(calls, j, id, After(calls).conns[id])
    ensures id in After(calls).imports ==> exists j :: ImportFrom(calls, j, id, After(calls).imports[id])
    decreases |calls|
  {
    hide Step, ResponseTo;
    if calls != [] {
      var n := |calls| - 1;
      var front, w, w' := calls[..n], After(calls[..n]), After(calls);
      EntriesAreIssued(front, id);
      EntriesStep(w, calls[n].request, calls[n].failing, id);
      LastAnswer(calls);
      if id in w'.txs {
        if j :| TxFrom(front, j, id, w'.txs[id]) {
          EarlierIssues(calls, j, NewTx(id));
          assert TxFrom(calls, j, id, w'.txs[id]);
        } else {
          assert TxFrom(calls, n, id, w'.txs[id]);
        }
      }
      if id in w'.conns {
        if j :| ConnFrom(front, j, id, w'.conns[id]) {
          EarlierIssues(calls, j, NewConn(id));
          assert ConnFrom(calls, j, id, w'.conns[id]);
        } else {
          assert ConnFrom(calls, n, id, w'.conns[id]);
        }
      }
      if id in w'.imports {
        if j :| ImportFrom(front, j, id, w'.imports[id]) {
          EarlierIssues(calls, j, NewImport(id));
          assert ImportFrom(calls, j, id, w'.imports[id]);
        } else {
          assert ImportFrom(calls, n, id, w'.imports[id]);
        }
      }
    }
  }

  lemma LastAnswer(calls: seq<Call>)
    requires calls != []
    ensures var last := calls[|calls| - 1];
      Step(After(calls[..|calls| - 1]), last.request, last.failing) == (After(calls), ResponseTo(calls, |calls| - 1))
  {
    hide Step;
  }

  lemma {:induction false} CursorsAreIssued(calls: seq<Call>, id: nat)
    requires id in After(calls).cursors
    ensures exists j :: CursorFrom(calls, j, id, After(calls).cursors[id])
    decreases |calls|
  {
    hide Step, ResponseTo;
    var n := |calls| - 1;
    var front, cursor := calls[..n], After(calls).cursors[id];
    EntriesStep(After(front), calls[n].request, calls[n].failing, id);
    LastAnswer(calls);
    if id in After(front).cursors {
      CursorsAreIssued(front, id);
      var j :| CursorFrom(front, j, id, After(front).cursors[id]);
      EarlierIssues(calls, j, NewCursor(id));
      if ResponseTo(calls, n).issued == Some(NewCursor(id)) && calls[n].request.QueryStart?
         && calls[n].request.query.Started? && cursor.rows == Some(Rows(calls[n].request.query.rows))
         && cursor.conn == calls[n].request.conn {
        assert CursorFrom(calls, n, id, cursor);
      } else {
        assert CursorFrom(calls, j, id, cursor);
      }
    } else {
      assert CursorFrom(calls, n, id, cursor);
    }
  }

  /** An id is answered exactly by the successful requests that make an entry, and the entry is there from then on. */
  lemma IssuedIsThere(calls: seq<Call>, i: nat)
    requires i < |calls|
    ensures var r, request, w := ResponseTo(calls, i), calls[i].request, After(calls[..i + 1]);
      && (r.issued.Some? <==>
            r.ok && (request.ConnOpen? || request.QueryStart? || request.TxBegin? || request.ImportBegin?))
      && (r.issued.Some? ==>
            match r.issued.value
            case NewConn(id) => request.ConnOpen? && id in w.conns
            case NewCursor(id) => request.QueryStart? && id in w.cursors
            case NewTx(id) => request.TxBegin? && id in w.txs
            case NewImport(id) => request.ImportBegin? && id in w.imports)
  {
    assert calls[..i + 1][..i] == calls[..i];
    IssuesWhen(After(calls[..i]), calls[i].request, calls[i].failing);
    LastAnswer(calls[..i + 1]);
    hide *;
  }

  lemma IssuesWhen(w: World, request: Request, failing: set<Handle>)
    ensures var (w', r) := Step(w, request, failing);
      && (r.issued.Some? <==>
            r.ok && (request.ConnOpen? || request.QueryStart? || request.TxBegin? || request.ImportBegin?))
      && (r.issued.Some? ==>
            match r.issued.value
            case NewConn(id) => request.ConnOpen? && id in w'.conns
            case NewCursor(id) => request.QueryStart? && id in w'.cursors
            case NewTx(id) => request.TxBegin? && id in w'.txs
            case NewImport(id) => request.ImportBegin? && id in w'.imports)
  {
  }

  /** A statement that names a transaction runs on the handle the library opened when that transaction began. */
  lemma RunsInsideItsTransaction(calls: seq<Call>, i: nat)
    requires i < |calls| && (calls[i].request.QueryStart? || calls[i].request.ExecRun?)
    requires calls[i].request.tx.Some? && ResponseTo(calls, i).ranOn.Some?
    ensures exists j :: 0 <= j < i &&
              TxFrom(calls, j, calls[i].request.tx.value, Tx(calls[i].request.conn, ResponseTo(calls, i).ranOn.value))
  {
    hide ResponseTo, After;
    var id, h := calls[i].request.tx.value, ResponseTo(calls, i).ranOn.value;
    SqlRunsWhereAsked(calls, i, h);
    EntriesAreIssued(calls[..i], id);
    var j :| TxFrom(calls[..i], j, id, After(calls[..i]).txs[id]);
    PrefixIssues(calls, i, j, NewTx(id));
    assert TxFrom(calls, j, id, Tx(calls[i].request.conn, h));
  }

  lemma PrefixIssues(calls: seq<Call>, i: nat, j: int, issued: Issued)
    requires i <= |calls| && Issues(calls[..i], j, issued)
    ensures Issues(calls, j, issued)
  {
    assert calls[..i][..j] == calls[..j];
  }

  // ---------- when entries leave ----------

  /** The request takes away everything of a connection. */
  predicate TakesConn(w: World, request: Request, conn: nat) {
    (request.ConnClose? && request.conn == conn && conn in w.conns) || request.Shutdown?
  }

  predicate EndsTx(w: World, request: Request, failing: set<Handle>, id: nat)
    requires id in w.txs
  {
    || ((request == TxCommit(id) || request == TxRollback(id, false)) && w.txs[id].handle !in failing)
    || TakesConn(w, request, w.txs[id].conn)
  }

  predicate EndsCursor(w: World, request: Request, failing: set<Handle>, id: nat)
    requires id in w.cursors
  {
    (request == CursorClose(id) && RowsClose(w, id, failing)) || TakesConn(w, request, w.cursors[id].conn)
  }

  predicate EndsImport(w: World, request: Request, id: nat)
    requires id in w.imports
  {
    request == ImportCommit(id) || request == ImportAbort(id) || TakesConn(w, request, w.imports[id])
  }

  /** Entries leave their tables exactly when they are ended. */
  predicate LeaveWhenEnded(w: World, outcome: (World, Response), request: Request, failing: set<Handle>, id: nat) {
    && (id in w.txs ==> (id !in outcome.0.txs <==> EndsTx(w, request, failing, id)))
    && (id in w.cursors ==> (id !in outcome.0.cursors <==> EndsCursor(w, request, failing, id)))
    && (id in w.imports ==> (id !in outcome.0.imports <==> EndsImport(w, request, id)))
    && (id in w.conns ==> (id !in outcome.0.conns <==> TakesConn(w, request, id)))
  }

  lemma EntriesLeave(w: World, request: Request, failing: set<Handle>, id: nat)
    ensures LeaveWhenEnded(w, Step(w, request, failing), request, failing, id)
  {
    hide AfterConnTest, AfterConnOpen, AfterConnClose, AfterQueryStart, AfterCursorFetch, AfterCursorClose,
         AfterCursorCancel, AfterExecBatch, AfterTxBegin, AfterTxEnd, AfterTxRollback, AfterShutdown, AfterExecRun,
         AfterImportBegin, AfterImportChunk, AfterExport, AfterStreamRead, AfterTxNamed, LeaveWhenEnded;
    match request
    case ConnTest(open) => OpenLeavesEntries(w, open, failing, id);
    case ConnOpen(open) => OpenLeavesEntries(w, open, failing, id);
    case ConnClose(conn) => CloseLeavesEntries(w, conn, failing, id);
    case Shutdown => CloseLeavesEntries(w, 0, failing, id);
    case QueryStart(conn, tx, query) => QueryLeavesEntries(w, conn, tx, query, failing, id);
    case CursorFetch(cursor, fetch) => FetchLeavesEntries(w, cursor, fetch, failing, id);
    case CursorClose(cursor) => ShutLeavesEntries(w, cursor, failing, id);
    case CursorCancel(cursor) => ShutLeavesEntries(w, cursor, failing, id);
    case ExecRun(conn, tx, succeeds) => RunLeavesEntries(w, conn, tx, succeeds, failing, id);
    case TxBegin(conn, tx) => RunLeavesEntries(w, conn, tx, false, failing, id);
    case ExecBatch(conn, inTransaction, tx, stopOnError, outcomes) =>
      BatchLeavesEntries(w, conn, inTransaction, tx, stopOnError, outcomes, failing, id);
    case TxCommit(tx) => EndLeavesEntries(w, tx, false, failing, id);
    case TxRollback(tx, toSavepoint) => EndLeavesEntries(w, tx, toSavepoint, failing, id);
    case TxSavepoint(tx, named, succeeds) => SavepointLeavesEntries(w, tx, named, succeeds, failing, id);
    case TxRelease(tx, named, succeeds) => SavepointLeavesEntries(w, tx, named, succeeds, failing, id);
    case ImportBegin(conn, formatKnown) => ImportLeavesEntries(w, conn, formatKnown, 0, failing, id);
    case ImportChunk(importId) => ImportLeavesEntries(w, 0, false, importId, failing, id);
    case ImportCommit(importId) => ImportEndLeavesEntries(w, importId, failing, id);
    case ImportAbort(importId) => ImportEndLeavesEntries(w, importId, failing, id);
    case DataExport(conn, stream, bytes) => StreamLeavesEntries(w, conn, stream, bytes, 0, failing, id);
    case StreamRead(stream, maxBytes) => StreamLeavesEntries(w, 0, stream, None, maxBytes, failing, id);
    case StreamClose(stream) => StreamLeavesEntries(w, 0, stream, None, 0, failing, id);
  }

  lemma OpenLeavesEntries(w: World, open: OpenOutcome, failing: set<Handle>, id: nat)
    ensures LeaveWhenEnded(w, AfterConnTest(w, open, failing), ConnTest(open), failing, id)
    ensures LeaveWhenEnded(w, AfterConnOpen(w, open), ConnOpen(open), failing, id)
  {
  }

  lemma CloseLeavesEntries(w: World, conn: nat, failing: set<Handle>, id: nat)
    ensures LeaveWhenEnded(w, AfterConnClose(w, conn, failing), ConnClose(conn), failing, id)
    ensures LeaveWhenEnded(w, AfterShutdown(w, failing), Shutdown, failing, id)
  {
  }

  lemma QueryLeavesEntries(w: World, conn: nat, tx: Option<nat>, query: QueryOutcome, failing: set<Handle>, id: nat)
    ensures LeaveWhenEnded(w, AfterQueryStart(w, conn, tx, query), QueryStart(conn, tx, query), failing, id)
  {
  }

  lemma FetchLeavesEntries(w: World, cursor: nat, fetch: FetchOutcome, failing: set<Handle>, id: nat)
    ensures LeaveWhenEnded(w, AfterCursorFetch(w, cursor, fetch, failing), CursorFetch(cursor, fetch), failing, id)
  {
  }

  lemma ShutLeavesEntries(w: World, cursor: nat, failing: set<Handle>, id: nat)
    ensures LeaveWhenEnded(w, AfterCursorClose(w, cursor, failing), CursorClose(cursor), failing, id)
    ensures LeaveWhenEnded(w, AfterCursorCancel(w, cursor, failing), CursorCancel(cursor), failing, id)
  {
  }

  lemma RunLeavesEntries(w: World, conn: nat, tx: Option<nat>, succeeds: bool, failing: set<Handle>, id: nat)
    ensures LeaveWhenEnded(w, AfterExecRun(w, conn, tx, succeeds), ExecRun(conn, tx, succeeds), failing, id)
    ensures LeaveWhenEnded(w, AfterTxBegin(w, conn, tx), TxBegin(conn, tx), failing, id)
  {
  }

  lemma BatchLeavesEntries(w: World, conn: nat, inTransaction: bool, tx: Option<nat>, stopOnError: bool,
    outcomes: seq<bool>, failing: set<Handle>, id: nat)
    ensures LeaveWhenEnded(w, AfterExecBatch(w, conn, inTransaction, tx, Failures(outcomes, stopOnError), failing),
              ExecBatch(conn, inTransaction, tx, stopOnError, outcomes), failing, id)
  {
  }

  lemma EndLeavesEntries(w: World, tx: nat, toSavepoint: bool, failing: set<Handle>, id: nat)
    ensures LeaveWhenEnded(w, AfterTxEnd(w, tx, true, failing), TxCommit(tx), failing, id)
    ensures LeaveWhenEnded(w, AfterTxRollback(w, tx, toSavepoint, failing), TxRollback(tx, toSavepoint), failing, id)
  {
    hide AfterTxEnd;
    EndTouchesTxs(w, tx, true, failing);
    EndTouchesTxs(w, tx, false, failing);
  }

  lemma SavepointLeavesEntries(w: World, tx: nat, named: bool, succeeds: bool, failing: set<Handle>, id: nat)
    ensures LeaveWhenEnded(w, AfterTxNamed(w, tx, named, succeeds), TxSavepoint(tx, named, succeeds), failing, id)
    ensures LeaveWhenEnded(w, AfterTxNamed(w, tx, named, succeeds), TxRelease(tx, named, succeeds), failing, id)
  {
  }

  lemma ImportLeavesEntries(w: World, conn: nat, formatKnown: bool, importId: nat, failing: set<Handle>, id: nat)
    ensures LeaveWhenEnded(w, AfterImportBegin(w, conn, formatKnown), ImportBegin(conn, formatKnown), failing, id)
    ensures LeaveWhenEnded(w, AfterImportChunk(w, importId), ImportChunk(importId), failing, id)
  {
  }

  lemma ImportEndLeavesEntries(w: World, importId: nat, failing: set<Handle>, id: nat)
    ensures LeaveWhenEnded(w, Step(w, ImportCommit(importId), failing), ImportCommit(importId), failing, id)
    ensures LeaveWhenEnded(w, Step(w, ImportAbort(importId), failing), ImportAbort(importId), failing, id)
  {
  }

  lemma StreamLeavesEntries(w: World, conn: nat, stream: nat, bytes: Option<nat>, maxBytes: nat,
    failing: set<Handle>, id: nat)
    ensures LeaveWhenEnded(w, AfterExport(w, conn, stream, bytes), DataExport(conn, stream, bytes), failing, id)
    ensures LeaveWhenEnded(w, AfterStreamRead(w, stream, maxBytes), StreamRead(stream, maxBytes), failing, id)
    ensures LeaveWhenEnded(w, Step(w, StreamClose(stream), failing), StreamClose(stream), failing, id)
  {
  }

  /**
   * A transaction leaves the table exactly with its successful commit or rollback, a cursor with its successful close,
   * an import with its commit or abort, a connection with its close; and all with their connection or at shutdown.
   */
  lemma EntriesLeaveWhenEnded(calls: seq<Call>, i: nat, id: nat)
    requires i < |calls|
    ensures LeaveWhenEnded(After(calls[..i]), (After(calls[..i + 1]), ResponseTo(calls, i)), calls[i].request,
              calls[i].failing, id)
  {
    assert calls[..i + 1][..i] == calls[..i];
    EntriesLeave(After(calls[..i]), calls[i].request, calls[i].failing, id);
    LastAnswer(calls[..i + 1]);
    hide Step, LeaveWhenEnded;
  }

  // ---------- what a cursor has delivered ----------

  /** The rows a request takes from a cursor that may still be read. */
  function PageRows(w: World, request: Request, id: nat): nat {
    if request.CursorFetch? && request.cursor == id && request.fetch.Page?
       && id in w.cursors && !w.cursors[id].done && w.cursors[id].rows.Some?
    then request.fetch.count else 0
  }

  /** The rows of every page that reached the cursor. */
  function Delivered(calls: seq<Call>, id: nat): nat
    decreases |calls|
  {
    if calls == [] then 0
    else
      var front := calls[..|calls| - 1];
      Delivered(front, id) + PageRows(After(front), calls[|calls| - 1].request, id)
  }

  /** A cursor ends with its last page, when it is cancelled, and when it was closed and that failed. */
  predicate Ends(w: World, request: Request, id: nat) {
    id in w.cursors &&
    match request
    case CursorFetch(c, fetch) => c == id && fetch.Page? && fetch.last && w.cursors[id].rows.Some?
    case CursorClose(c) => c == id
    case CursorCancel(c) => c == id
    case _ => false
  }

  /** What a request makes of a cursor. */
  predicate Moved(w: World, outcome: (World, Response), request: Request, id: nat) {
    var w' := outcome.0;
    && w.nextCursor <= w'.nextCursor
    && (id in w'.cursors && id !in w.cursors ==>
          w.nextCursor <= id < w'.nextCursor && w'.cursors[id].fetched == 0 && !w'.cursors[id].done)
    && (id in w'.cursors && id in w.cursors ==>
          && w'.cursors[id].fetched == w.cursors[id].fetched + PageRows(w, request, id)
          && (w'.cursors[id].done <==> w.cursors[id].done || Ends(w, request, id)))
  }

  lemma CursorMoves(w: World, request: Request, failing: set<Handle>, id: nat)
    requires id in w.cursors ==> id < w.nextCursor
    ensures Moved(w, Step(w, request, failing), request, id)
  {
    hide AfterConnTest, AfterConnOpen, AfterConnClose, AfterQueryStart, AfterCursorFetch, AfterCursorClose,
         AfterCursorCancel, AfterExecBatch, AfterTxBegin, AfterTxEnd, AfterTxRollback, AfterShutdown, AfterExecRun,
         AfterImportBegin, AfterImportChunk, AfterExport, AfterStreamRead, AfterTxNamed, Moved;
    match request
    case ConnTest(open) => OpenMovesCursor(w, open, failing, id);
    case ConnOpen(open) => OpenMovesCursor(w, open, failing, id);
    case ConnClose(conn) => CloseMovesCursor(w, conn, failing, id);
    case Shutdown => CloseMovesCursor(w, 0, failing, id);
    case QueryStart(conn, tx, query) => QueryMovesCursor(w, conn, tx, query, id);
    case CursorFetch(cursor, fetch) => FetchMovesCursor(w, cursor, fetch, failing, id);
    case CursorClose(cursor) => ShutMovesCursor(w, cursor, failing, id);
    case CursorCancel(cursor) => ShutMovesCursor(w, cursor, failing, id);
    case ExecRun(conn, tx, succeeds) => RunMovesCursor(w, conn, tx, succeeds, id);
    case TxBegin(conn, tx) => RunMovesCursor(w, conn, tx, false, id);
    case ExecBatch(conn, inTransaction, tx, stopOnError, outcomes) =>
      BatchMovesCursor(w, conn, inTransaction, tx, stopOnError, outcomes, failing, id);
    case TxCommit(tx) => EndMovesCursor(w, tx, false, failing, id);
    case TxRollback(tx, toSavepoint) => EndMovesCursor(w, tx, toSavepoint, failing, id);
    case TxSavepoint(tx, named, succeeds) => SavepointMovesCursor(w, tx, named, succeeds, id);
    case TxRelease(tx, named, succeeds) => SavepointMovesCursor(w, tx, named, succeeds, id);
    case ImportBegin(conn, formatKnown) => ImportMovesCursor(w, conn, formatKnown, 0, id);
    case ImportChunk(importId) => ImportMovesCursor(w, 0, false, importId, id);
    case ImportCommit(importId) => ImportEndMovesCursor(w, importId, failing, id);
    case ImportAbort(importId) => ImportEndMovesCursor(w, importId, failing, id);
    case DataExport(conn, stream, bytes) => StreamMovesCursor(w, conn, stream, bytes, 0, failing, id);
    case StreamRead(stream, maxBytes) => StreamMovesCursor(w, 0, stream, None, maxBytes, failing, id);
    case StreamClose(stream) => StreamMovesCursor(w, 0, stream, None, 0, failing, id);
  }

  lemma OpenMovesCursor(w: World, open: OpenOutcome, failing: set<Handle>, id: nat)
    ensures Moved(w, AfterConnTest(w, open, failing), ConnTest(open), id)
    ensures Moved(w, AfterConnOpen(w, open), ConnOpen(open), id)
  {
  }

  lemma CloseMovesCursor(w: World, conn: nat, failing: set<Handle>, id: nat)
    ensures Moved(w, AfterConnClose(w, conn, failing), ConnClose(conn), id)
    ensures Moved(w, AfterShutdown(w, failing), Shutdown, id)
  {
  }

  lemma QueryMovesCursor(w: World, conn: nat, tx: Option<nat>, query: QueryOutcome, id: nat)
    requires id in w.cursors ==> id < w.nextCursor
    ensures Moved(w, AfterQueryStart(w, conn, tx, query), QueryStart(conn, tx, query), id)
  {
  }

  lemma FetchMovesCursor(w: World, cursor: nat, fetch: FetchOutcome, failing: set<Handle>, id: nat)
    ensures Moved(w, AfterCursorFetch(w, cursor, fetch, failing), CursorFetch(cursor, fetch), id)
  {
  }

  lemma ShutMovesCursor(w: World, cursor: nat, failing: set<Handle>, id: nat)
    ensures Moved(w, AfterCursorClose(w, cursor, failing), CursorClose(cursor), id)
    ensures Moved(w, AfterCursorCancel(w, cursor, failing), CursorCancel(cursor), id)
  {
  }

  lemma RunMovesCursor(w: World, conn: nat, tx: Option<nat>, succeeds: bool, id: nat)
    ensures Moved(w, AfterExecRun(w, conn, tx, succeeds), ExecRun(conn, tx, succeeds), id)
    ensures Moved(w, AfterTxBegin(w, conn, tx), TxBegin(conn, tx), id)
  {
  }

  lemma BatchMovesCursor(w: World, conn: nat, inTransaction: bool, tx: Option<nat>, stopOnError: bool,
    outcomes: seq<bool>, failing: set<Handle>, id: nat)
    ensures Moved(w, AfterExecBatch(w, conn, inTransaction, tx, Failures(outcomes, stopOnError), failing),
              ExecBatch(conn, inTransaction, tx, stopOnError, outcomes), id)
  {
  }

  lemma EndMovesCursor(w: World, tx: nat, toSavepoint: bool, failing: set<Handle>, id: nat)
    ensures Moved(w, AfterTxEnd(w, tx, true, failing), TxCommit(tx), id)
    ensures Moved(w, AfterTxRollback(w, tx, toSavepoint, failing), TxRollback(tx, toSavepoint), id)
  {
    hide AfterTxEnd;
    EndTouchesTxs(w, tx, true, failing);
    EndTouchesTxs(w, tx, false, failing);
  }

  lemma SavepointMovesCursor(w: World, tx: nat, named: bool, succeeds: bool, id: nat)
    ensures Moved(w, AfterTxNamed(w, tx, named, succeeds), TxSavepoint(tx, named, succeeds), id)
    ensures Moved(w, AfterTxNamed(w, tx, named, succeeds), TxRelease(tx, named, succeeds), id)
  {
  }

  lemma ImportMovesCursor(w: World, conn: nat, formatKnown: bool, importId: nat, id: nat)
    ensures Moved(w, AfterImportBegin(w, conn, formatKnown), ImportBegin(conn, formatKnown), id)
    ensures Moved(w, AfterImportChunk(w, importId), ImportChunk(importId), id)
  {
  }

  lemma ImportEndMovesCursor(w: World, importId: nat, failing: set<Handle>, id: nat)
    ensures Moved(w, Step(w, ImportCommit(importId), failing), ImportCommit(importId), id)
    ensures Moved(w, Step(w, ImportAbort(importId), failing), ImportAbort(importId), id)
  {
  }

  lemma StreamMovesCursor(w: World, conn: nat, stream: nat, bytes: Option<nat>, maxBytes: nat,
    failing: set<Handle>, id: nat)
    ensures Moved(w, AfterExport(w, conn, stream, bytes), DataExport(conn, stream, bytes), id)
    ensures Moved(w, AfterStreamRead(w, stream, maxBytes), StreamRead(stream, maxBytes), id)
    ensures Moved(w, Step(w, StreamClose(stream), failing), StreamClose(stream), id)
  {
  }

  ghost predicate EndedIn(calls: seq<Call>, id: nat) {
    exists j :: 0 <= j < |calls| && Ends(After(calls[..j]), calls[j].request, id)
  }

  lemma EndedOneMore(calls: seq<Call>, id: nat)
    requires calls != []
    ensures var front, last := calls[..|calls| - 1], calls[|calls| - 1];
      EndedIn(calls, id) <==> EndedIn(front, id) || Ends(After(front), last.request, id)
  {
    hide After, Ends;
    var front := calls[..|calls| - 1];
    assert forall j :: 0 <= j < |front| ==> front[..j] == calls[..j] && front[j] == calls[j];
  }

  lemma {:induction false} CursorCounts(calls: seq<Call>, id: nat)
    requires Legal(calls)
    ensures id in After(calls).cursors ==>
      && After(calls).cursors[id].fetched == Delivered(calls, id)
      && (After(calls).cursors[id].done <==> EndedIn(calls, id))
    ensures id >= After(calls).nextCursor ==> Delivered(calls, id) == 0 && !EndedIn(calls, id)
    decreases |calls|
  {
    hide Step, Ends, Owned, EndedIn, PageRows;
    if calls == [] {
      NeverEnded(id);
    } else {
      var front, last := calls[..|calls| - 1], calls[|calls| - 1];
      CursorCounts(front, id);
      OwnedAlways(front);
      CursorIdsIssued(After(front), id);
      CursorMoves(After(front), last.request, last.failing, id);
      EndedOneMore(calls, id);
      if id !in After(front).cursors {
        UnknownCursor(After(front), last.request, id);
      }
    }
  }

  lemma NeverEnded(id: nat)
    ensures !EndedIn([], id)
  {
  }

  lemma UnknownCursor(w: World, request: Request, id: nat)
    requires id !in w.cursors
    ensures PageRows(w, request, id) == 0 && !Ends(w, request, id)
  {
  }

  lemma CursorIdsIssued(w: World, id: nat)
    requires Owned(w)
    ensures id in w.cursors ==> id < w.nextCursor
  {
    hide EntriesOwned, NothingLost, CursorsReadable;
  }

  /** A cursor counts exactly the rows of its pages, and is done exactly when one of those requests ended it. */
  lemma CursorsCountRows(calls: seq<Call>, id: nat)
    requires Legal(calls) && id in After(calls).cursors
    ensures After(calls).cursors[id].fetched == Delivered(calls, id)
    ensures After(calls).cursors[id].done <==>
      exists j :: 0 <= j < |calls| && Ends(After(calls[..j]), calls[j].request, id)
  {
    hide After, Delivered, Ends;
    CursorCounts(calls, id);
  }

  // ---------- streams ----------

  /** What a request makes of a stream: an export opens it with its bytes, a close or a shutdown ends it. */
  predicate StreamFits(w: World, outcome: (World, Response), request: Request, id: nat) {
    var left := outcome.0.streams;
    match request
    case DataExport(conn, stream, bytes) =>
      if stream == id && conn in w.conns && bytes.Some? then id in left && left[id] == bytes.value
      else SameStream(w, left, id)
    case StreamRead(stream, maxBytes) => stream == id || SameStream(w, left, id)
    case StreamClose(stream) => if stream == id then id !in left else SameStream(w, left, id)
    case Shutdown => id !in left
    case _ => SameStream(w, left, id)
  }

  predicate SameStream(w: World, left: map<nat, nat>, id: nat) {
    (id in left <==> id in w.streams) && (id in left ==> left[id] == w.streams[id])
  }

  lemma StreamFollows(w: World, request: Request, failing: set<Handle>, id: nat)
    ensures StreamFits(w, Step(w, request, failing), request, id)
  {
    hide AfterConnTest, AfterConnOpen, AfterConnClose, AfterQueryStart, AfterCursorFetch, AfterCursorClose,
         AfterCursorCancel, AfterExecBatch, AfterTxBegin, AfterTxEnd, AfterTxRollback, AfterShutdown, AfterExecRun,
         AfterImportBegin, AfterImportChunk, AfterExport, AfterStreamRead, AfterTxNamed, StreamFits;
    match request
    case ConnTest(open) => OpenKeepsStreams(w, open, failing, id);
    case ConnOpen(open) => OpenKeepsStreams(w, open, failing, id);
    case ConnClose(conn) => CloseKeepsStreams(w, conn, failing, id);
    case Shutdown => CloseKeepsStreams(w, 0, failing, id);
    case QueryStart(conn, tx, query) => QueryKeepsStreams(w, conn, tx, query, id);
    case CursorFetch(cursor, fetch) => FetchKeepsStreams(w, cursor, fetch, failing, id);
    case CursorClose(cursor) => ShutKeepsStreams(w, cursor, failing, id);
    case CursorCancel(cursor) => ShutKeepsStreams(w, cursor, failing, id);
    case ExecRun(conn, tx, succeeds) => RunKeepsStreams(w, conn, tx, succeeds, id);
    case TxBegin(conn, tx) => RunKeepsStreams(w, conn, tx, false, id);
    case ExecBatch(conn, inTransaction, tx, stopOnError, outcomes) =>
      BatchKeepsStreams(w, conn, inTransaction, tx, stopOnError, outcomes, failing, id);
    case TxCommit(tx) => EndKeepsStreams(w, tx, false, failing, id);
    case TxRollback(tx, toSavepoint) => EndKeepsStreams(w, tx, toSavepoint, failing, id);
    case TxSavepoint(tx, named, succeeds) => SavepointKeepsStreams(w, tx, named, succeeds, id);
    case TxRelease(tx, named, succeeds) => SavepointKeepsStreams(w, tx, named, succeeds, id);
    case ImportBegin(conn, formatKnown) => ImportKeepsStreams(w, conn, formatKnown, 0, id);
    case ImportChunk(importId) => ImportKeepsStreams(w, 0, false, importId, id);
    case ImportCommit(importId) => ImportEndKeepsStreams(w, importId, failing, id);
    case ImportAbort(importId) => ImportEndKeepsStreams(w, importId, failing, id);
    case DataExport(conn, stream, bytes) => StreamKeepsStreams(w, conn, stream, bytes, 0, failing, id);
    case StreamRead(stream, maxBytes) => StreamKeepsStreams(w, 0, stream, None, maxBytes, failing, id);
    case StreamClose(stream) => StreamKeepsStreams(w, 0, stream, None, 0, failing, id);
  }

  lemma OpenKeepsStreams(w: World, open: OpenOutcome, failing: set<Handle>, id: nat)
    ensures StreamFits(w, AfterConnTest(w, open, failing), ConnTest(open), id)
    ensures StreamFits(w, AfterConnOpen(w, open), ConnOpen(open), id)
  {
  }

  lemma CloseKeepsStreams(w: World, conn: nat, failing: set<Handle>, id: nat)
    ensures StreamFits(w, AfterConnClose(w, conn, failing), ConnClose(conn), id)
    ensures StreamFits(w, AfterShutdown(w, failing), Shutdown, id)
  {
  }

  lemma QueryKeepsStreams(w: World, conn: nat, tx: Option<nat>, query: QueryOutcome, id: nat)
    ensures StreamFits(w, AfterQueryStart(w, conn, tx, query), QueryStart(conn, tx, query), id)
  {
  }

  lemma FetchKeepsStreams(w: World, cursor: nat, fetch: FetchOutcome, failing: set<Handle>, id: nat)
    ensures StreamFits(w, AfterCursorFetch(w, cursor, fetch, failing), CursorFetch(cursor, fetch), id)
  {
  }

  lemma ShutKeepsStreams(w: World, cursor: nat, failing: set<Handle>, id: nat)
    ensures StreamFits(w, AfterCursorClose(w, cursor, failing), CursorClose(cursor), id)
    ensures StreamFits(w, AfterCursorCancel(w, cursor, failing), CursorCancel(cursor), id)
  {
  }

  lemma RunKeepsStreams(w: World, conn: nat, tx: Option<nat>, succeeds: bool, id: nat)
    ensures StreamFits(w, AfterExecRun(w, conn, tx, succeeds), ExecRun(conn, tx, succeeds), id)
    ensures StreamFits(w, AfterTxBegin(w, conn, tx), TxBegin(conn, tx), id)
  {
  }

  lemma BatchKeepsStreams(w: World, conn: nat, inTransaction: bool, tx: Option<nat>, stopOnError: bool,
    outcomes: seq<bool>, failing: set<Handle>, id: nat)
    ensures StreamFits(w, AfterExecBatch(w, conn, inTransaction, tx, Failures(outcomes, stopOnError), failing),
              ExecBatch(conn, inTransaction, tx, stopOnError, outcomes), id)
  {
  }

  lemma EndKeepsStreams(w: World, tx: nat, toSavepoint: bool, failing: set<Handle>, id: nat)
    ensures StreamFits(w, AfterTxEnd(w, tx, true, failing), TxCommit(tx), id)
    ensures StreamFits(w, AfterTxRollback(w, tx, toSavepoint, failing), TxRollback(tx, toSavepoint), id)
  {
    hide AfterTxEnd;
    EndTouchesTxs(w, tx, true, failing);
    EndTouchesTxs(w, tx, false, failing);
  }

  lemma SavepointKeepsStreams(w: World, tx: nat, named: bool, succeeds: bool, id: nat)
    ensures StreamFits(w, AfterTxNamed(w, tx, named, succeeds), TxSavepoint(tx, named, succeeds), id)
    ensures StreamFits(w, AfterTxNamed(w, tx, named, succeeds), TxRelease(tx, named, succeeds), id)
  {
  }

  lemma ImportKeepsStreams(w: World, conn: nat, formatKnown: bool, importId: nat, id: nat)
    ensures StreamFits(w, AfterImportBegin(w, conn, formatKnown), ImportBegin(conn, formatKnown), id)
    ensures StreamFits(w, AfterImportChunk(w, importId), ImportChunk(importId), id)
  {
  }

  lemma ImportEndKeepsStreams(w: World, importId: nat, failing: set<Handle>, id: nat)
    ensures StreamFits(w, Step(w, ImportCommit(importId), failing), ImportCommit(importId), id)
    ensures StreamFits(w, Step(w, ImportAbort(importId), failing), ImportAbort(importId), id)
  {
  }

  lemma StreamKeepsStreams(w: World, conn: nat, stream: nat, bytes: Option<nat>, maxBytes: nat,
    failing: set<Handle>, id: nat)
    ensures StreamFits(w, AfterExport(w, conn, stream, bytes), DataExport(conn, stream, bytes), id)
    ensures StreamFits(w, AfterStreamRead(w, stream, maxBytes), StreamRead(stream, maxBytes), id)
    ensures StreamFits(w, Step(w, StreamClose(stream), failing), StreamClose(stream), id)
  {
  }

  /** The bytes asked for; a request for none asks for a chunk of the default size. */
  function Wanted(sizes: seq<nat>): nat {
    if sizes == [] then 0
    else Wanted(sizes[..|sizes| - 1]) + if sizes[|sizes| - 1] == 0 then 64 * 1024 else sizes[|sizes| - 1]
  }

  function ReadAll(w: World, stream: nat, sizes: seq<nat>): World {
    if sizes == [] then w
    else Step(ReadAll(w, stream, sizes[..|sizes| - 1]), StreamRead(stream, sizes[|sizes| - 1]), {}).0
  }

  lemma OneRead(w: World, stream: nat, size: nat, other: nat)
    ensures var left, n := Step(w, StreamRead(stream, size), {}).0.streams, if size == 0 then 64 * 1024 else size;
      && (stream in left <==> stream in w.streams && n < w.streams[stream])
      && (stream in left ==> left[stream] == w.streams[stream] - n)
      && (other != stream ==> (other in left <==> other in w.streams))
      && (other != stream && other in left ==> left[other] == w.streams[other])
  {
  }

  /** Reads of any sizes take their bytes off a stream, which the one that leaves none forgets; no other is touched. */
  lemma {:induction false} StreamLasts(w: World, stream: nat, sizes: seq<nat>, other: nat)
    requires stream in w.streams && sizes != []
    ensures var left := ReadAll(w, stream, sizes).streams;
      && (stream in left <==> Wanted(sizes) < w.streams[stream])
      && (stream in left ==> left[stream] == w.streams[stream] - Wanted(sizes))
      && (other != stream ==> (other in left <==> other in w.streams))
      && (other != stream && other in left ==> left[other] == w.streams[other])
    decreases |sizes|
  {
    hide Step;
    var front := sizes[..|sizes| - 1];
    OneRead(ReadAll(w, stream, front), stream, sizes[|sizes| - 1], other);
    if front == [] {
      assert Wanted(front) == 0 && ReadAll(w, stream, front) == w;
    } else {
      StreamLasts(w, stream, front, other);
    }
  }
}
