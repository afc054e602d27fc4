/**
 * The resource tables of the generic database/sql server: connections, cursors, transactions, imports and streams,
 * beside the handles the database library really has open. A handle leaves the library's hands only through a close,
 * commit or rollback call, each of which may fail; what the library answers comes with the request.
 */
module GoServer {
  import opened Wrappers

  /** A *sql.DB, a *sql.Rows or a *sql.Tx. */
  datatype Handle = Db(n: nat) | Rows(n: nat) | TxHandle(n: nat)

  /** What a handle was opened for; a test connection or a connection whose ping fails serves nobody. */
  datatype Owner = ForConn(conn: nat) | Temporary

  datatype Cursor = Cursor(conn: nat, rows: Option<Handle>, fetched: nat, done: bool)

  datatype Tx = Tx(conn: nat, handle: Handle)

  /**
   * The server's tables, then the handles opened so far, those for which a close, commit or rollback was attempted, and
   * those of the latter for which a commit was.
   */
  datatype World = World(
    conns: map<nat, Handle>,
    cursors: map<nat, Cursor>,
    txs: map<nat, Tx>,
    imports: map<nat, nat>,
    streams: map<nat, nat>,
    nextConn: nat,
    nextCursor: nat,
    nextTx: nat,
    nextImport: nat,
    acquired: map<Handle, Owner>,
    attempted: set<Handle>,
    committed: set<Handle>)

  datatype OpenOutcome = OpenFailed | PingFailed(db: nat) | Pinged(db: nat)

  datatype QueryOutcome = QueryFailed | ColumnsFailed(rows: nat) | Started(rows: nat)

  datatype FetchOutcome = FetchFailed | Page(count: nat, last: bool)

  /** `failing` holds the handles whose close, commit or rollback fails if it is called. */
  datatype Request =
    | ConnTest(open: OpenOutcome)
    | ConnOpen(open: OpenOutcome)
    | ConnClose(conn: nat)
    | QueryStart(conn: nat, tx: Option<nat>, query: QueryOutcome)
    | CursorFetch(cursor: nat, fetch: FetchOutcome)
    | CursorClose(cursor: nat)
    | CursorCancel(cursor: nat)
    | ExecRun(conn: nat, tx: Option<nat>, succeeds: bool)
    | ExecBatch(conn: nat, inTransaction: bool, tx: Option<nat>, stopOnError: bool, outcomes: seq<bool>)
    | TxBegin(conn: nat, tx: Option<nat>)
    | TxCommit(txId: nat)
    | TxRollback(txId: nat, toSavepoint: bool)
    | TxSavepoint(txId: nat, named: bool, succeeds: bool)
    | TxRelease(txId: nat, named: bool, succeeds: bool)
    | ImportBegin(conn: nat, formatKnown: bool)
    | ImportChunk(importId: nat)
    | ImportCommit(importId: nat)
    | ImportAbort(importId: nat)
    | DataExport(conn: nat, stream: nat, bytes: Option<nat>)
    | StreamRead(stream: nat, maxBytes: nat)
    | StreamClose(stream: nat)
    | Shutdown

  datatype Issued = NewConn(id: nat) | NewCursor(id: nat) | NewTx(id: nat) | NewImport(id: nat)

  /** Whether the request succeeded, the id it issued, the handle its SQL ran on, and a batch's failed statements. */
  datatype Response = Response(ok: bool, issued: Option<Issued>, ranOn: Option<Handle>, failed: seq<nat>)

  const OK := Response(true, None, None, [])
  const FAILED := Response(false, None, None, [])
  const EMPTY := World(map[], map[], map[], map[], map[], 1, 1, 1, 1, map[], {}, {})

  // ---------- parts of the tables ----------

  function RowsOf(cursors: map<nat, Cursor>, conn: nat): set<Handle> {
    set c | c in cursors && cursors[c].conn == conn && cursors[c].rows.Some? :: cursors[c].rows.value
  }

  function TxHandlesOf(txs: map<nat, Tx>, conn: nat): set<Handle> {
    set t | t in txs && txs[t].conn == conn :: txs[t].handle
  }

  function AllRows(cursors: map<nat, Cursor>): set<Handle> {
    set c | c in cursors && cursors[c].rows.Some? :: cursors[c].rows.value
  }

  function AllTxHandles(txs: map<nat, Tx>): set<Handle> {
    set t | t in txs :: txs[t].handle
  }

  function AllDbs(conns: map<nat, Handle>): set<Handle> {
    set c | c in conns :: conns[c]
  }

  function CursorsElsewhere(cursors: map<nat, Cursor>, conn: nat): map<nat, Cursor> {
    map c | c in cursors && cursors[c].conn != conn :: cursors[c]
  }

  function TxsElsewhere(txs: map<nat, Tx>, conn: nat): map<nat, Tx> {
    map t | t in txs && txs[t].conn != conn :: txs[t]
  }

  function ImportsElsewhere(imports: map<nat, nat>, conn: nat): map<nat, nat> {
    map i | i in imports && imports[i] != conn :: imports[i]
  }

  /** The transaction a request names, if it may use it: the connection's own. */
  function TxForRequest(w: World, tx: nat, conn: nat): Option<Handle> {
    if tx in w.txs && w.txs[tx].conn == conn then Some(w.txs[tx].handle) else None
  }

  /** What the request's SQL runs on: the connection itself or its transaction; None is refused. */
  function Executor(w: World, conn: nat, tx: Option<nat>): Option<Handle> {
    if conn !in w.conns then None
    else match tx {
      case None => Some(w.conns[conn])
      case Some(id) => TxForRequest(w, id, conn)
    }
  }

  // ---------- what each request does ----------

  function Opening(w: World, h: Handle, owner: Owner): World {
    w.(acquired := w.acquired[h := owner])
  }

  /** The library was asked to close the handles. */
  function Closing(w: World, handles: set<Handle>): World {
    w.(attempted := w.attempted + handles)
  }

  function AfterConnOpen(w: World, open: OpenOutcome): (World, Response) {
    match open
    case OpenFailed => (w, FAILED)
    case PingFailed(db) => (Closing(Opening(w, Db(db), Temporary), {Db(db)}), FAILED)
    case Pinged(db) =>
      (Opening(w, Db(db), ForConn(w.nextConn)).(conns := w.conns[w.nextConn := Db(db)], nextConn := w.nextConn + 1),
       Response(true, Some(NewConn(w.nextConn)), None, []))
  }

  function AfterConnTest(w: World, open: OpenOutcome, failing: set<Handle>): (World, Response) {
    match open
    case OpenFailed => (w, FAILED)
    case PingFailed(db) => (Closing(Opening(w, Db(db), Temporary), {Db(db)}), FAILED)
    case Pinged(db) =>
      (Closing(Opening(w, Db(db), Temporary), {Db(db)}), if Db(db) in failing then FAILED else OK)
  }

  function AfterConnClose(w: World, conn: nat, failing: set<Handle>): (World, Response) {
    if conn !in w.conns then (w, FAILED)
    else
      var handles := RowsOf(w.cursors, conn) + TxHandlesOf(w.txs, conn) + {w.conns[conn]};
      (Closing(w, handles).(
         conns := w.conns - {conn},
         cursors := CursorsElsewhere(w.cursors, conn),
         txs := TxsElsewhere(w.txs, conn),
         imports := ImportsElsewhere(w.imports, conn)),
       if handles * failing == {} then OK else FAILED)
  }

  function AfterQueryStart(w: World, conn: nat, tx: Option<nat>, query: QueryOutcome): (World, Response) {
    match Executor(w, conn, tx)
    case None => (w, FAILED)
    case Some(h) =>
      match query
      case QueryFailed => (w, Response(false, None, Some(h), []))
      case ColumnsFailed(rows) =>
        (Closing(Opening(w, Rows(rows), ForConn(conn)), {Rows(rows)}), Response(false, None, Some(h), []))
      case Started(rows) =>
        (Opening(w, Rows(rows), ForConn(conn)).(
           cursors := w.cursors[w.nextCursor := Cursor(conn, Some(Rows(rows)), 0, false)],
           nextCursor := w.nextCursor + 1),
         Response(true, Some(NewCursor(w.nextCursor)), Some(h), []))
  }

  /** The page that ends a result also closes it; when that fails the handle stays with the cursor. */
  function AfterCursorFetch(w: World, id: nat, fetch: FetchOutcome, failing: set<Handle>): (World, Response) {
    if id !in w.cursors then (w, FAILED)
    else
      var cursor := w.cursors[id];
      if cursor.done || cursor.rows.None? then (w, OK)
      else
        match fetch
        case FetchFailed => (w, FAILED)
        case Page(count, last) =>
          var moved := cursor.(fetched := cursor.fetched + count);
          if !last then (w.(cursors := w.cursors[id := moved]), OK)
          else
            var h := cursor.rows.value;
            if h in failing then
              (Closing(w, {h}).(cursors := w.cursors[id := moved.(done := true)]), FAILED)
            else
              (Closing(w, {h}).(cursors := w.cursors[id := moved.(done := true, rows := None)]), OK)
  }

  /** Closing a cursor's rows, whatever comes of it; the cursor stays in the table. */
  function CursorShut(w: World, id: nat): World
    requires id in w.cursors
  {
    var cursor := w.cursors[id];
    Closing(w, if cursor.rows.Some? then {cursor.rows.value} else {}).(
      cursors := w.cursors[id := cursor.(rows := None, done := true)])
  }

  predicate ShutFails(w: World, id: nat, failing: set<Handle>)
    requires id in w.cursors
  {
    w.cursors[id].rows.Some? && w.cursors[id].rows.value in failing
  }

  function AfterCursorClose(w: World, id: nat, failing: set<Handle>): (World, Response) {
    if id !in w.cursors then (w, FAILED)
    else if ShutFails(w, id, failing) then (CursorShut(w, id), FAILED)
    else (CursorShut(w, id).(cursors := w.cursors - {id}), OK)
  }

  function AfterCursorCancel(w: World, id: nat, failing: set<Handle>): (World, Response) {
    if id !in w.cursors then (w, FAILED)
    else (CursorShut(w, id), if ShutFails(w, id, failing) then FAILED else OK)
  }

  function AfterExecRun(w: World, conn: nat, tx: Option<nat>, succeeds: bool): (World, Response) {
    match Executor(w, conn, tx)
    case None => (w, FAILED)
    case Some(h) => (w, Response(succeeds, None, Some(h), []))
  }

  /** The library was asked to commit a transaction. */
  function Committing(w: World, h: Handle): World {
    Closing(w, {h}).(committed := w.committed + {h})
  }

  /** Which statements of a batch failed, of those that ran: with stop-on-error none runs after a failure. */
  function Failures(outcomes: seq<bool>, stopOnError: bool): seq<nat> {
    if outcomes == [] then []
    else
      var n := |outcomes| - 1;
      var before := Failures(outcomes[..n], stopOnError);
      if outcomes[n] || (stopOnError && before != []) then before else before + [n]
  }

  /** A batch in a transaction commits it when no statement failed and rolls it back otherwise; either call may fail. */
  function AfterExecBatch(w: World, conn: nat, inTransaction: bool, tx: Option<nat>, failed: seq<nat>,
    failing: set<Handle>): (World, Response)
  {
    if conn !in w.conns then (w, FAILED)
    else if !inTransaction then (w, Response(true, None, Some(w.conns[conn]), failed))
    else
      match tx
      case None => (w, FAILED)
      case Some(n) =>
        var h := TxHandle(n);
        var begun := Opening(w, h, ForConn(conn));
        (if failed == [] then Committing(begun, h) else Closing(begun, {h}),
         if h in failing then Response(false, None, Some(h), []) else Response(true, None, Some(h), failed))
  }

  function AfterTxBegin(w: World, conn: nat, tx: Option<nat>): (World, Response) {
    if conn !in w.conns || tx.None? then (w, FAILED)
    else
      var h := TxHandle(tx.value);
      (Opening(w, h, ForConn(conn)).(txs := w.txs[w.nextTx := Tx(conn, h)], nextTx := w.nextTx + 1),
       Response(true, Some(NewTx(w.nextTx)), None, []))
  }

  /** COMMIT and the full ROLLBACK: a failed one leaves the transaction in the table. */
  function AfterTxEnd(w: World, tx: nat, commit: bool, failing: set<Handle>): (World, Response) {
    if tx !in w.txs then (w, FAILED)
    else
      var h := w.txs[tx].handle;
      var ended := if commit then Committing(w, h) else Closing(w, {h});
      if h in failing then (ended, FAILED) else (ended.(txs := w.txs - {tx}), OK)
  }

  /** Going back to a savepoint is a statement inside the transaction, which goes on. */
  function AfterTxRollback(w: World, tx: nat, toSavepoint: bool, failing: set<Handle>): (World, Response) {
    if tx in w.txs && toSavepoint then
      (w, Response(w.txs[tx].handle !in failing, None, Some(w.txs[tx].handle), []))
    else AfterTxEnd(w, tx, false, failing)
  }

  /** Setting or releasing a savepoint, which needs a name. */
  function AfterTxNamed(w: World, tx: nat, named: bool, succeeds: bool): (World, Response) {
    if tx !in w.txs || !named then (w, FAILED) else (w, Response(succeeds, None, Some(w.txs[tx].handle), []))
  }

  function AfterImportBegin(w: World, conn: nat, formatKnown: bool): (World, Response) {
    if conn !in w.conns || !formatKnown then (w, FAILED)
    else
      (w.(imports := w.imports[w.nextImport := conn], nextImport := w.nextImport + 1),
       Response(true, Some(NewImport(w.nextImport)), None, []))
  }

  /** Rows go to the import's own connection; failed rows are reported inside a successful response. */
  function AfterImportChunk(w: World, id: nat): (World, Response) {
    if id !in w.imports || w.imports[id] !in w.conns then (w, FAILED)
    else (w, Response(true, None, Some(w.conns[w.imports[id]]), []))
  }

  function AfterExport(w: World, conn: nat, stream: nat, bytes: Option<nat>): (World, Response) {
    if conn !in w.conns || bytes.None? then (w, FAILED)
    else (w.(streams := w.streams[stream := bytes.value]), Response(true, None, Some(w.conns[conn]), []))
  }

  const DEFAULT_CHUNK := 65536

  /** The stream is forgotten with the chunk that empties it. */
  function AfterStreamRead(w: World, stream: nat, maxBytes: nat): (World, Response) {
    if stream !in w.streams then (w, FAILED)
    else
      var left := w.streams[stream] - (if maxBytes == 0 then DEFAULT_CHUNK else maxBytes);
      (w.(streams := if left <= 0 then w.streams - {stream} else w.streams[stream := left]), OK)
  }

  function AfterShutdown(w: World, failing: set<Handle>): (World, Response) {
    var handles := AllRows(w.cursors) + AllTxHandles(w.txs) + AllDbs(w.conns);
    (Closing(w, handles).(conns := map[], cursors := map[], txs := map[], imports := map[], streams := map[]),
     if handles * failing == {} then OK else FAILED)
  }

  function Step(w: World, request: Request, failing: set<Handle>): (World, Response) {
    match request
    case ConnTest(open) => AfterConnTest(w, open, failing)
    case ConnOpen(open) => AfterConnOpen(w, open)
    case ConnClose(conn) => AfterConnClose(w, conn, failing)
    case QueryStart(conn, tx, query) => AfterQueryStart(w, conn, tx, query)
    case CursorFetch(cursor, fetch) => AfterCursorFetch(w, cursor, fetch, failing)
    case CursorClose(cursor) => AfterCursorClose(w, cursor, failing)
    case CursorCancel(cursor) => AfterCursorCancel(w, cursor, failing)
    case ExecRun(conn, tx, succeeds) => AfterExecRun(w, conn, tx, succeeds)
    case ExecBatch(conn, inTransaction, tx, stopOnError, outcomes) =>
      AfterExecBatch(w, conn, inTransaction, tx, Failures(outcomes, stopOnError), failing)
    case TxBegin(conn, tx) => AfterTxBegin(w, conn, tx)
    case TxCommit(tx) => AfterTxEnd(w, tx, true, failing)
    case TxRollback(tx, toSavepoint) => AfterTxRollback(w, tx, toSavepoint, failing)
    case TxSavepoint(tx, named, succeeds) => AfterTxNamed(w, tx, named, succeeds)
    case TxRelease(tx, named, succeeds) => AfterTxNamed(w, tx, named, succeeds)
    case ImportBegin(conn, formatKnown) => AfterImportBegin(w, conn, formatKnown)
    case ImportChunk(id) => AfterImportChunk(w, id)
    case ImportCommit(id) => if id in w.imports then (w.(imports := w.imports - {id}), OK) else (w, FAILED)
    case ImportAbort(id) => (w.(imports := w.imports - {id}), OK)
    case DataExport(conn, stream, bytes) => AfterExport(w, conn, stream, bytes)
    case StreamRead(stream, maxBytes) => AfterStreamRead(w, stream, maxBytes)
    case StreamClose(stream) => (w.(streams := w.streams - {stream}), OK)
    case Shutdown => AfterShutdown(w, failing)
  }

  /** The handle the library would hand out for the request. */
  function Brought(request: Request): Option<Handle> {
    match request
    case ConnTest(PingFailed(db)) => Some(Db(db))
    case ConnTest(Pinged(db)) => Some(Db(db))
    case ConnOpen(PingFailed(db)) => Some(Db(db))
    case ConnOpen(Pinged(db)) => Some(Db(db))
    case QueryStart(_, _, ColumnsFailed(rows)) => Some(Rows(rows))
    case QueryStart(_, _, Started(rows)) => Some(Rows(rows))
    case ExecBatch(_, true, Some(tx), _, _) => Some(TxHandle(tx))
    case TxBegin(_, Some(tx)) => Some(TxHandle(tx))
    case _ => None
  }

  /** The library never hands out a handle twice. */
  predicate Fresh(w: World, request: Request) {
    Brought(request).Some? ==> Brought(request).value !in w.acquired
  }

  // ---------- ownership ----------

  ghost predicate Held(w: World, h: Handle) {
    || (exists c :: c in w.conns && w.conns[c] == h)
    || (exists c :: c in w.cursors && w.cursors[c].rows == Some(h))
    || (exists t :: t in w.txs && w.txs[t].handle == h)
  }

  /** Every entry names a live connection, and its handle was opened for that connection. */
  ghost predicate EntriesOwned(w: World) {
    && (forall c :: c in w.conns ==>
          w.conns[c].Db? && w.conns[c] in w.acquired && w.acquired[w.conns[c]] == ForConn(c)
            && w.conns[c] !in w.attempted)
    && (forall c :: c in w.cursors ==>
          && w.cursors[c].conn in w.conns
          && (w.cursors[c].rows.Some? ==>
                var h := w.cursors[c].rows.value;
                h.Rows? && h in w.acquired && w.acquired[h] == ForConn(w.cursors[c].conn)))
    && (forall t :: t in w.txs ==>
          && w.txs[t].conn in w.conns
          && var h := w.txs[t].handle; h.TxHandle? && h in w.acquired && w.acquired[h] == ForConn(w.txs[t].conn))
    && (forall i :: i in w.imports ==> w.imports[i] in w.conns)
  }

  /** Ids in use were issued, and so was every connection a handle was opened for. */
  ghost predicate IdsIssued(w: World) {
    && (forall c :: c in w.conns ==> c < w.nextConn)
    && (forall c :: c in w.cursors ==> c < w.nextCursor)
    && (forall t :: t in w.txs ==> t < w.nextTx)
    && (forall i :: i in w.imports ==> i < w.nextImport)
    && forall h :: h in w.acquired && w.acquired[h].ForConn? ==> w.acquired[h].conn < w.nextConn
  }

  /** Nothing is lost: an opened handle is in a table or was closed. */
  ghost predicate NothingLost(w: World) {
    && w.attempted <= w.acquired.Keys
    && forall h :: h in w.acquired && h !in w.attempted ==> Held(w, h)
  }

  /** No two cursors share rows, and a cursor that may still be read has rows that nobody tried to close. */
  ghost predicate CursorsReadable(w: World) {
    && (forall c, d :: c in w.cursors && d in w.cursors && c != d && w.cursors[c].rows.Some?
          ==> w.cursors[c].rows != w.cursors[d].rows)
    && forall c :: c in w.cursors && !w.cursors[c].done ==>
         w.cursors[c].rows.Some? && w.cursors[c].rows.value !in w.attempted
  }

  ghost predicate Owned(w: World) {
    EntriesOwned(w) && IdsIssued(w) && NothingLost(w) && CursorsReadable(w)
  }
}
