/** The server object with its tables, and the handlers that update it in place. */
module GoServerHandlers {
  import opened Wrappers
  import opened GoServer

  class Server {
    var conns: map<nat, Handle>
    var cursors: map<nat, Cursor>
    var txs: map<nat, Tx>
    var imports: map<nat, nat>
    var streams: map<nat, nat>
    var nextConnID: nat
    var nextCursor: nat
    var nextTx: nat
    var nextImport: nat

    // The database library's side: what it handed out, and what it was asked to close.
    var acquired: map<Handle, Owner>
    var attempted: set<Handle>
    var committed: set<Handle>

    function Snapshot(): World
      reads this
    {
      World(conns, cursors, txs, imports, streams, nextConnID, nextCursor, nextTx, nextImport, acquired, attempted,
        committed)
    }

    constructor ()
      ensures Snapshot() == EMPTY
    {
      conns, cursors, txs, imports, streams := map[], map[], map[], map[], map[];
      nextConnID, nextCursor, nextTx, nextImport := 1, 1, 1, 1;
      acquired, attempted, committed := map[], {}, {};
    }

    // ---------- the library ----------

    method Acquire(h: Handle, owner: Owner)
      modifies this`acquired
      ensures Snapshot() == Opening(old(Snapshot()), h, owner)
    {
      acquired := acquired[h := owner];
    }

    /** Close or Rollback of a handle. */
    method Release(h: Handle, failing: set<Handle>) returns (ok: bool)
      modifies this`attempted
      ensures Snapshot() == Closing(old(Snapshot()), {h}) && ok == (h !in failing)
    {
      attempted := attempted + {h};
      ok := h !in failing;
    }

    method Commit(h: Handle, failing: set<Handle>) returns (ok: bool)
      modifies this`attempted, this`committed
      ensures Snapshot() == Committing(old(Snapshot()), h) && ok == (h !in failing)
    {
      attempted := attempted + {h};
      committed := committed + {h};
      ok := h !in failing;
    }

    // ---------- helpers ----------

    method CloseCursor(id: nat, failing: set<Handle>) returns (ok: bool)
      modifies this`attempted, this`cursors
      ensures id !in old(cursors) ==> ok && Snapshot() == old(Snapshot())
      ensures id in old(cursors) ==>
                Snapshot() == CursorShut(old(Snapshot()), id) && ok == !ShutFails(old(Snapshot()), id, failing)
    {
      if id !in cursors || cursors[id].rows.None? {
        if id in cursors {
          cursors := cursors[id := cursors[id].(done := true)];
        }
        return true;
      }
      ok := Release(cursors[id].rows.value, failing);
      cursors := cursors[id := cursors[id].(rows := None)];
      cursors := cursors[id := cursors[id].(done := true)];
    }

    /** The table is walked in no particular order. */
    method CloseCursorsForConn(conn: nat, failing: set<Handle>) returns (ok: bool)
      modifies this`attempted, this`cursors
      ensures attempted == old(attempted) + RowsOf(old(cursors), conn)
      ensures cursors == CursorsElsewhere(old(cursors), conn)
      ensures ok <==> RowsOf(old(cursors), conn) * failing == {}
    {
      hide RowsOf;
      ok := true;
      var todo := cursors.Keys;
      while todo != {}
        invariant todo <= cursors.Keys
        invariant forall c :: c in cursors ==> c in old(cursors) && cursors[c] == old(cursors)[c]
        invariant forall c :: c in old(cursors) && old(cursors)[c].conn != conn ==> c in cursors
        invariant forall c :: c in cursors && c !in todo ==> cursors[c].conn != conn
        invariant attempted + RowsOf(cursors, conn) == old(attempted) + RowsOf(old(cursors), conn)
        invariant (ok && RowsOf(cursors, conn) * failing == {}) <==> RowsOf(old(cursors), conn) * failing == {}
        decreases todo
      {
        var id :| id in todo;
        todo := todo - {id};
        if cursors[id].conn == conn {
          ghost var before := cursors;
          RowsOfRemoved(before, conn, id, failing);
          var one := CloseCursor(id, failing);
          ok := ok && one;
          cursors := cursors - {id};
          assert cursors == before - {id};
        }
      }
      NobodysCursors(cursors, conn);
      assert cursors == CursorsElsewhere(old(cursors), conn);
    }

    method RollbackTxsForConn(conn: nat, failing: set<Handle>) returns (ok: bool)
      modifies this`attempted, this`txs
      ensures attempted == old(attempted) + TxHandlesOf(old(txs), conn)
      ensures txs == TxsElsewhere(old(txs), conn)
      ensures ok <==> TxHandlesOf(old(txs), conn) * failing == {}
    {
      ok := true;
      var todo := txs.Keys;
      while todo != {}
        invariant todo <= txs.Keys
        invariant forall t :: t in txs ==> t in old(txs) && txs[t] == old(txs)[t]
        invariant forall t :: t in old(txs) && old(txs)[t].conn != conn ==> t in txs
        invariant forall t :: t in txs && t !in todo ==> txs[t].conn != conn
        invariant attempted + TxHandlesOf(txs, conn) == old(attempted) + TxHandlesOf(old(txs), conn)
        invariant (ok && TxHandlesOf(txs, conn) * failing == {}) <==> TxHandlesOf(old(txs), conn) * failing == {}
        decreases todo
      {
        var id :| id in todo;
        todo := todo - {id};
        if txs[id].conn == conn {
          TxHandlesRemoved(txs, conn, id, failing);
          var one := Release(txs[id].handle, failing);
          ok := ok && one;
          txs := txs - {id};
        }
      }
      assert TxHandlesOf(txs, conn) == {};
      assert txs == TxsElsewhere(old(txs), conn);
    }

    method DropImportsForConn(conn: nat)
      modifies this`imports
      ensures imports == ImportsElsewhere(old(imports), conn)
    {
      var all := imports;
      var todo := imports.Keys;
      while todo != {}
        invariant todo <= imports.Keys <= all.Keys
        invariant forall i :: i in imports ==> imports[i] == all[i]
        invariant forall i :: i in all && i !in imports ==> all[i] == conn
        invariant forall i :: i in imports && i !in todo ==> all[i] != conn
        decreases todo
      {
        var id :| id in todo;
        todo := todo - {id};
        if imports[id] == conn {
          imports := imports - {id};
        }
      }
      assert imports == map i | i in all && all[i] != conn :: all[i];
    }

    method TxForRequest(tx: nat, conn: nat) returns (h: Option<Handle>)
      ensures h == GoServer.TxForRequest(Snapshot(), tx, conn)
    {
      if tx !in txs {
        return None;
      }
      if txs[tx].conn != conn {
        return None;
      }
      return Some(txs[tx].handle);
    }

    // ---------- handlers ----------

    method HandleConnTest(open: OpenOutcome, failing: set<Handle>) returns (response: Response)
      modifies this
      ensures (Snapshot(), response) == Step(old(Snapshot()), ConnTest(open), failing)
    {
      if open.OpenFailed? {
        return FAILED;
      }
      Acquire(Db(open.db), Temporary);
      var closed := Release(Db(open.db), failing);
      if open.PingFailed? || !closed {
        return FAILED;
      }
      return OK;
    }

    method HandleConnOpen(open: OpenOutcome) returns (response: Response)
      modifies this
      ensures (Snapshot(), response) == Step(old(Snapshot()), ConnOpen(open), {})
    {
      if open.OpenFailed? {
        return FAILED;
      }
      if open.PingFailed? {
        Acquire(Db(open.db), Temporary);
        var _ := Release(Db(open.db), {});
        return FAILED;
      }
      Acquire(Db(open.db), ForConn(nextConnID));
      var connID := nextConnID;
      nextConnID := nextConnID + 1;
      conns := conns[connID := Db(open.db)];
      return Response(true, Some(NewConn(connID)), None, []);
    }

    method HandleConnClose(conn: nat, failing: set<Handle>) returns (response: Response)
      modifies this
      ensures (Snapshot(), response) == AfterConnClose(old(Snapshot()), conn, failing)
    {
      if conn !in conns {
        return FAILED;
      }
      hide RowsOf, TxHandlesOf, AllRows, AllTxHandles, AllDbs, CursorsElsewhere, TxsElsewhere, ImportsElsewhere;
      var db := conns[conn];
      var entriesClosed := ReleaseEntries(conn, failing);
      var dbClosed := Release(db, failing);
      conns := conns - {conn};
      ghost var w := old(Snapshot());
      ghost var entries := RowsOf(w.cursors, conn) + TxHandlesOf(w.txs, conn);
      DisjointUnion(entries, {db}, {}, failing);
      assert entries + {db} + {} == entries + {db};
      assert attempted == w.attempted + (entries + {db});
      return if entriesClosed && dbClosed then OK else FAILED;
    }

    /** Cursors, transactions and imports, in this order. */
    method ReleaseEntries(conn: nat, failing: set<Handle>) returns (ok: bool)
      modifies this`attempted, this`cursors, this`txs, this`imports
      ensures attempted == old(attempted) + (RowsOf(old(cursors), conn) + TxHandlesOf(old(txs), conn))
      ensures cursors == CursorsElsewhere(old(cursors), conn) && txs == TxsElsewhere(old(txs), conn)
      ensures imports == ImportsElsewhere(old(imports), conn)
      ensures ok <==> (RowsOf(old(cursors), conn) + TxHandlesOf(old(txs), conn)) * failing == {}
    {
      hide *;
      var cursorsClosed := CloseCursorsForConn(conn, failing);
      var rolledBack := RollbackTxsForConn(conn, failing);
      DropImportsForConn(conn);
      DisjointUnion(RowsOf(old(cursors), conn), TxHandlesOf(old(txs), conn), {}, failing);
      ok := cursorsClosed && rolledBack;
    }

    method HandleQueryStart(conn: nat, tx: Option<nat>, query: QueryOutcome) returns (response: Response)
      modifies this
      ensures (Snapshot(), response) == Step(old(Snapshot()), QueryStart(conn, tx, query), {})
    {
      if conn !in conns {
        return FAILED;
      }
      var queryer := conns[conn];
      if tx.Some? {
        var own := TxForRequest(tx.value, conn);
        if own.None? {
          return FAILED;
        }
        queryer := own.value;
      }
      if query.QueryFailed? {
        return Response(false, None, Some(queryer), []);
      }
      Acquire(Rows(query.rows), ForConn(conn));
      if query.ColumnsFailed? {
        var _ := Release(Rows(query.rows), {});
        return Response(false, None, Some(queryer), []);
      }
      var cursorID := nextCursor;
      nextCursor := nextCursor + 1;
      cursors := cursors[cursorID := Cursor(conn, Some(Rows(query.rows)), 0, false)];
      return Response(true, Some(NewCursor(cursorID)), Some(queryer), []);
    }

    method HandleCursorFetch(id: nat, fetch: FetchOutcome, failing: set<Handle>) returns (response: Response)
      modifies this
      ensures (Snapshot(), response) == Step(old(Snapshot()), CursorFetch(id, fetch), failing)
    {
      if id !in cursors {
        return FAILED;
      }
      if cursors[id].done || cursors[id].rows.None? {
        return OK;
      }
      if fetch.FetchFailed? {
        return FAILED;
      }
      cursors := cursors[id := cursors[id].(fetched := cursors[id].fetched + fetch.count)];
      if fetch.last {
        cursors := cursors[id := cursors[id].(done := true)];
        ghost var moved := cursors[id];
        assert cursors == old(cursors)[id := moved];
        var closed := Release(cursors[id].rows.value, failing);
        if !closed {
          return FAILED;
        }
        cursors := cursors[id := cursors[id].(rows := None)];
        assert cursors == old(cursors)[id := moved.(rows := None)];
      }
      return OK;
    }

    method HandleCursorClose(id: nat, failing: set<Handle>) returns (response: Response)
      modifies this
      ensures (Snapshot(), response) == Step(old(Snapshot()), CursorClose(id), failing)
    {
      if id !in cursors {
        return FAILED;
      }
      var closed := CloseCursor(id, failing);
      if !closed {
        return FAILED;
      }
      cursors := cursors - {id};
      assert cursors == old(cursors) - {id};
      return OK;
    }

    method HandleCursorCancel(id: nat, failing: set<Handle>) returns (response: Response)
      modifies this
      ensures (Snapshot(), response) == Step(old(Snapshot()), CursorCancel(id), failing)
    {
      if id !in cursors {
        return FAILED;
      }
      var closed := CloseCursor(id, failing);
      if !closed {
        return FAILED;
      }
      assert cursors[id].done && cursors == cursors[id := cursors[id]];
      cursors := cursors[id := cursors[id].(done := true)];
      return OK;
    }

    method HandleExecRun(conn: nat, tx: Option<nat>, succeeds: bool) returns (response: Response)
      modifies this
      ensures (Snapshot(), response) == Step(old(Snapshot()), ExecRun(conn, tx, succeeds), {})
    {
      if conn !in conns {
        return FAILED;
      }
      var execer := conns[conn];
      if tx.Some? {
        var own := TxForRequest(tx.value, conn);
        if own.None? {
          return FAILED;
        }
        execer := own.value;
      }
      return Response(succeeds, None, Some(execer), []);
    }

    /** The statement loop: the indices of the statements that failed. */
    method RunBatch(outcomes: seq<bool>, stopOnError: bool) returns (failed: seq<nat>)
      ensures failed == Failures(outcomes, stopOnError)
    {
      failed := [];
      var index := 0;
      while index < |outcomes|
        invariant 0 <= index <= |outcomes| && failed == Failures(outcomes[..index], stopOnError)
        invariant stopOnError ==> failed == []
      {
        assert outcomes[..index + 1][..index] == outcomes[..index];
        if !outcomes[index] {
          failed := failed + [index];
          if stopOnError {
            FailuresStop(outcomes, index + 1);
            return;
          }
        }
        index := index + 1;
      }
      assert outcomes[..index] == outcomes;
    }

    method HandleExecBatch(conn: nat, inTransaction: bool, tx: Option<nat>, stopOnError: bool, outcomes: seq<bool>,
      failing: set<Handle>) returns (response: Response)
      modifies this
      ensures (Snapshot(), response) ==
        Step(old(Snapshot()), ExecBatch(conn, inTransaction, tx, stopOnError, outcomes), failing)
    {
      if conn !in conns {
        return FAILED;
      }
      var execer := conns[conn];
      if inTransaction {
        if tx.None? {
          return FAILED;
        }
        execer := TxHandle(tx.value);
        Acquire(execer, ForConn(conn));
      }
      var failed := RunBatch(outcomes, stopOnError);
      if inTransaction {
        var ended;
        if failed != [] {
          ended := Release(execer, failing);
        } else {
          ended := Commit(execer, failing);
        }
        if !ended {
          return Response(false, None, Some(execer), []);
        }
      }
      return Response(true, None, Some(execer), failed);
    }

    method HandleTxBegin(conn: nat, tx: Option<nat>) returns (response: Response)
      modifies this
      ensures (Snapshot(), response) == Step(old(Snapshot()), TxBegin(conn, tx), {})
    {
      if conn !in conns {
        return FAILED;
      }
      if tx.None? {
        return FAILED;
      }
      Acquire(TxHandle(tx.value), ForConn(conn));
      var txID := nextTx;
      nextTx := nextTx + 1;
      txs := txs[txID := Tx(conn, TxHandle(tx.value))];
      return Response(true, Some(NewTx(txID)), None, []);
    }

    method HandleTxCommit(id: nat, failing: set<Handle>) returns (response: Response)
      modifies this
      ensures (Snapshot(), response) == Step(old(Snapshot()), TxCommit(id), failing)
    {
      if id !in txs {
        return FAILED;
      }
      var committed := Commit(txs[id].handle, failing);
      if !committed {
        return FAILED;
      }
      txs := txs - {id};
      return OK;
    }

    method HandleTxRollback(id: nat, toSavepoint: bool, failing: set<Handle>) returns (response: Response)
      modifies this
      ensures (Snapshot(), response) == Step(old(Snapshot()), TxRollback(id, toSavepoint), failing)
    {
      if id !in txs {
        return FAILED;
      }
      if toSavepoint {
        return Response(txs[id].handle !in failing, None, Some(txs[id].handle), []);
      }
      var rolledBack := Release(txs[id].handle, failing);
      if !rolledBack {
        return FAILED;
      }
      txs := txs - {id};
      return OK;
    }

    method HandleTxSavepoint(id: nat, named: bool, succeeds: bool) returns (response: Response)
      ensures (Snapshot(), response) == Step(old(Snapshot()), TxSavepoint(id, named, succeeds), {})
    {
      if id !in txs {
        return FAILED;
      }
      if !named {
        return FAILED;
      }
      return Response(succeeds, None, Some(txs[id].handle), []);
    }

    method HandleTxRelease(id: nat, named: bool, succeeds: bool) returns (response: Response)
      ensures (Snapshot(), response) == Step(old(Snapshot()), TxRelease(id, named, succeeds), {})
    {
      if id !in txs {
        return FAILED;
      }
      if !named {
        return FAILED;
      }
      return Response(succeeds, None, Some(txs[id].handle), []);
    }

    method HandleDataImportBegin(conn: nat, formatKnown: bool) returns (response: Response)
      modifies this
      ensures (Snapshot(), response) == Step(old(Snapshot()), ImportBegin(conn, formatKnown), {})
    {
      if conn !in conns {
        return FAILED;
      }
      if !formatKnown {
        return FAILED;
      }
      var importID := nextImport;
      nextImport := nextImport + 1;
      imports := imports[importID := conn];
      return Response(true, Some(NewImport(importID)), None, []);
    }

    method HandleDataImportCommit(id: nat) returns (response: Response)
      modifies this
      ensures (Snapshot(), response) == Step(old(Snapshot()), ImportCommit(id), {})
    {
      if id !in imports {
        return FAILED;
      }
      imports := imports - {id};
      return OK;
    }

    method HandleDataImportAbort(id: nat) returns (response: Response)
      modifies this
      ensures (Snapshot(), response) == Step(old(Snapshot()), ImportAbort(id), {})
    {
      imports := imports - {id};
      return OK;
    }

    method HandleStreamRead(id: nat, maxBytes: nat) returns (response: Response)
      modifies this
      ensures (Snapshot(), response) == AfterStreamRead(old(Snapshot()), id, maxBytes)
    {
      if id !in streams {
        return FAILED;
      }
      var size := if maxBytes == 0 then DEFAULT_CHUNK else maxBytes;
      var left := if size > streams[id] then 0 else streams[id] - size;
      streams := streams[id := left];
      if left == 0 {
        streams := streams - {id};
        assert streams == old(streams) - {id};
      }
      return OK;
    }

    /** Shutdown: five tables emptied one after the other, each close attempted whatever the ones before it returned. */
    method CloseAll(failing: set<Handle>) returns (response: Response)
      modifies this
      ensures (Snapshot(), response) == AfterShutdown(old(Snapshot()), failing)
    {
      hide RowsOf, TxHandlesOf, AllRows, AllTxHandles, AllDbs, CursorsElsewhere, TxsElsewhere, ImportsElsewhere;
      var cursorsClosed := CloseAllCursors(failing);
      var rolledBack := RollbackAllTxs(failing);
      imports := map[];
      streams := map[];
      var connsClosed := CloseAllConns(failing);
      DisjointUnion(AllRows(old(cursors)), AllTxHandles(old(txs)), AllDbs(old(conns)), failing);
      assert attempted ==
        old(attempted) + (AllRows(old(cursors)) + AllTxHandles(old(txs)) + AllDbs(old(conns)));
      return if cursorsClosed && rolledBack && connsClosed then OK else FAILED;
    }

    method CloseAllCursors(failing: set<Handle>) returns (ok: bool)
      modifies this`attempted, this`cursors
      ensures attempted == old(attempted) + AllRows(old(cursors)) && cursors == map[]
      ensures ok <==> AllRows(old(cursors)) * failing == {}
    {
      hide AllRows;
      ok := true;
      while cursors.Keys != {}
        invariant attempted + AllRows(cursors) == old(attempted) + AllRows(old(cursors))
        invariant (ok && AllRows(cursors) * failing == {}) <==> AllRows(old(cursors)) * failing == {}
        decreases cursors.Keys
      {
        ghost var before := cursors;
        var id :| id in cursors.Keys;
        AllRowsRemoved(before, id, failing);
        var one := CloseCursor(id, failing);
        ok := ok && one;
        cursors := cursors - {id};
        assert cursors == before - {id} && cursors.Keys == before.Keys - {id};
      }
      NothingThere();
      assert cursors == map[];
    }

    method RollbackAllTxs(failing: set<Handle>) returns (ok: bool)
      modifies this`attempted, this`txs
      ensures attempted == old(attempted) + AllTxHandles(old(txs)) && txs == map[]
      ensures ok <==> AllTxHandles(old(txs)) * failing == {}
    {
      ok := true;
      while txs.Keys != {}
        invariant attempted + AllTxHandles(txs) == old(attempted) + AllTxHandles(old(txs))
        invariant (ok && AllTxHandles(txs) * failing == {}) <==> AllTxHandles(old(txs)) * failing == {}
        decreases txs.Keys
      {
        ghost var before := txs;
        var id :| id in txs.Keys;
        AllTxHandlesRemoved(txs, id, failing);
        var one := Release(txs[id].handle, failing);
        ok := ok && one;
        txs := txs - {id};
        assert txs.Keys == before.Keys - {id};
      }
      NothingThere();
      assert txs == map[];
    }

    method CloseAllConns(failing: set<Handle>) returns (ok: bool)
      modifies this`attempted, this`conns
      ensures attempted == old(attempted) + AllDbs(old(conns)) && conns == map[]
      ensures ok <==> AllDbs(old(conns)) * failing == {}
    {
      ok := true;
      while conns.Keys != {}
        invariant attempted + AllDbs(conns) == old(attempted) + AllDbs(old(conns))
        invariant (ok && AllDbs(conns) * failing == {}) <==> AllDbs(old(conns)) * failing == {}
        decreases conns.Keys
      {
        ghost var before := conns;
        var id :| id in conns.Keys;
        AllDbsRemoved(conns, id, failing);
        var one := Release(conns[id], failing);
        ok := ok && one;
        conns := conns - {id};
        assert conns.Keys == before.Keys - {id};
      }
      NothingThere();
      assert conns == map[];
    }
  }

  /** After the first failure of a batch that stops there, nothing is added. */
  lemma {:induction false} FailuresStop(outcomes: seq<bool>, n: nat)
    requires n <= |outcomes| && Failures(outcomes[..n], true) != []
    ensures Failures(outcomes, true) == Failures(outcomes[..n], true)
    decreases |outcomes|
  {
    if n == |outcomes| {
      assert outcomes[..n] == outcomes;
    } else {
      var front := outcomes[..|outcomes| - 1];
      assert front[..n] == outcomes[..n];
      FailuresStop(front, n);
    }
  }

  // ---------- taking one entry out of a table ----------

  lemma NothingThere()
    ensures AllRows(map[]) == {} && AllTxHandles(map[]) == {} && AllDbs(map[]) == {}
  {
  }

  lemma NobodysCursors(cursors: map<nat, Cursor>, conn: nat)
    requires forall c :: c in cursors ==> cursors[c].conn != conn
    ensures RowsOf(cursors, conn) == {}
  {
  }

  lemma RowsOfRemoved(cursors: map<nat, Cursor>, conn: nat, id: nat, failing: set<Handle>)
    requires id in cursors && cursors[id].conn == conn
    ensures var one := if cursors[id].rows.Some? then {cursors[id].rows.value} else {};
      && RowsOf(cursors, conn) == RowsOf(cursors - {id}, conn) + one
      && (RowsOf(cursors, conn) * failing == {} <==>
          (RowsOf(cursors - {id}, conn) * failing == {}
            && !(cursors[id].rows.Some? && cursors[id].rows.value in failing)))
  {
    var one := if cursors[id].rows.Some? then {cursors[id].rows.value} else {};
    var rest := cursors - {id};
    forall h | h in RowsOf(cursors, conn) ensures h in RowsOf(rest, conn) + one {
      var k :| k in cursors && cursors[k].conn == conn && cursors[k].rows.Some? && cursors[k].rows.value == h;
      assert k != id ==> k in rest && rest[k] == cursors[k];
    }
    forall h | h in RowsOf(rest, conn) ensures h in RowsOf(cursors, conn) {
      var k :| k in rest && rest[k].conn == conn && rest[k].rows.Some? && rest[k].rows.value == h;
      assert k in cursors && rest[k] == cursors[k];
    }
    DisjointUnion(RowsOf(cursors - {id}, conn), one, {}, failing);
  }

  lemma TxHandlesRemoved(txs: map<nat, Tx>, conn: nat, id: nat, failing: set<Handle>)
    requires id in txs && txs[id].conn == conn
    ensures TxHandlesOf(txs, conn) == TxHandlesOf(txs - {id}, conn) + {txs[id].handle}
    ensures TxHandlesOf(txs, conn) * failing == {} <==>
              TxHandlesOf(txs - {id}, conn) * failing == {} && txs[id].handle !in failing
  {
    var rest := txs - {id};
    forall h | h in TxHandlesOf(txs, conn) ensures h in TxHandlesOf(rest, conn) + {txs[id].handle} {
      var k :| k in txs && txs[k].conn == conn && txs[k].handle == h;
      assert k != id ==> k in rest && rest[k] == txs[k];
    }
    forall h | h in TxHandlesOf(rest, conn) ensures h in TxHandlesOf(txs, conn) {
      var k :| k in rest && rest[k].conn == conn && rest[k].handle == h;
      assert k in txs && rest[k] == txs[k];
    }
    DisjointUnion(TxHandlesOf(txs - {id}, conn), {txs[id].handle}, {}, failing);
  }

  lemma AllRowsRemoved(cursors: map<nat, Cursor>, id: nat, failing: set<Handle>)
    requires id in cursors
    ensures var one := if cursors[id].rows.Some? then {cursors[id].rows.value} else {};
      && AllRows(cursors) == AllRows(cursors - {id}) + one
      && (AllRows(cursors) * failing == {} <==>
          (AllRows(cursors - {id}) * failing == {} && !(cursors[id].rows.Some? && cursors[id].rows.value in failing)))
  {
    var one := if cursors[id].rows.Some? then {cursors[id].rows.value} else {};
    var rest := cursors - {id};
    forall h | h in AllRows(cursors) ensures h in AllRows(rest) + one {
      var k :| k in cursors && cursors[k].rows.Some? && cursors[k].rows.value == h;
      assert k != id ==> k in rest && rest[k] == cursors[k];
    }
    forall h | h in AllRows(rest) ensures h in AllRows(cursors) {
      var k :| k in rest && rest[k].rows.Some? && rest[k].rows.value == h;
      assert k in cursors && rest[k] == cursors[k];
    }
    DisjointUnion(AllRows(cursors - {id}), one, {}, failing);
  }

  lemma AllTxHandlesRemoved(txs: map<nat, Tx>, id: nat, failing: set<Handle>)
    requires id in txs
    ensures AllTxHandles(txs) == AllTxHandles(txs - {id}) + {txs[id].handle}
    ensures AllTxHandles(txs) * failing == {} <==>
              AllTxHandles(txs - {id}) * failing == {} && txs[id].handle !in failing
  {
    var rest := txs - {id};
    forall h | h in AllTxHandles(txs) ensures h in AllTxHandles(rest) + {txs[id].handle} {
      var k :| k in txs && txs[k].handle == h;
      assert k != id ==> k in rest && rest[k] == txs[k];
    }
    forall h | h in AllTxHandles(rest) ensures h in AllTxHandles(txs) {
      var k :| k in rest && rest[k].handle == h;
      assert k in txs && rest[k] == txs[k];
    }
    DisjointUnion(AllTxHandles(txs - {id}), {txs[id].handle}, {}, failing);
  }

  lemma AllDbsRemoved(conns: map<nat, Handle>, id: nat, failing: set<Handle>)
    requires id in conns
    ensures AllDbs(conns) == AllDbs(conns - {id}) + {conns[id]}
    ensures AllDbs(conns) * failing == {} <==> AllDbs(conns - {id}) * failing == {} && conns[id] !in failing
  {
    var rest := conns - {id};
    forall h | h in AllDbs(conns) ensures h in AllDbs(rest) + {conns[id]} {
      var k :| k in conns && conns[k] == h;
      assert k != id ==> k in rest && rest[k] == conns[k];
    }
    forall h | h in AllDbs(rest) ensures h in AllDbs(conns) {
      var k :| k in rest && rest[k] == h;
      assert k in conns && rest[k] == conns[k];
    }
    DisjointUnion(AllDbs(conns - {id}), {conns[id]}, {}, failing);
  }

  lemma DisjointUnion(a: set<Handle>, b: set<Handle>, c: set<Handle>, failing: set<Handle>)
    ensures (a + b + c) * failing == {} <==> a * failing == {} && b * failing == {} && c * failing == {}
  {
    assert (a + b + c) * failing == a * failing + b * failing + c * failing;
  }
}
