/** The connection state the DuckDB driver updates in place, and the handlers that update it. */
module DuckDbHandlers {
  import opened Wrappers
  import opened DuckDbSession

  class ConnectionState {
    var conns: map<nat, Session>
    var imports: map<nat, Import>
    var txs: map<nat, nat>
    var activeTxByConn: map<nat, nat>
    var nextConnId: nat
    var nextImportId: nat
    var nextTxId: nat

    function Snapshot(): State
      reads this
    {
      State(conns, imports, txs, activeTxByConn, nextConnId, nextImportId, nextTxId)
    }

    constructor ()
      ensures Snapshot() == EMPTY_STATE
    {
      conns, imports, txs, activeTxByConn := map[], map[], map[], map[];
      nextConnId, nextImportId, nextTxId := 1, 1, 1;
    }

    method OpenConn(contents: Contents) returns (response: Response)
      modifies this
      ensures (Snapshot(), response) == Step(old(Snapshot()), ConnOpen(contents))
    {
      response := Opened(nextConnId);
      conns := conns[nextConnId := Session(false, contents, contents)];
      nextConnId := nextConnId + 1;
    }

    method CloseConn(conn: nat) returns (response: Response)
      modifies this
      ensures (Snapshot(), response) == Step(old(Snapshot()), ConnClose(conn))
    {
      if conn !in conns {
        return Error(UnknownConn);
      }
      conns := conns - {conn};
      imports := map i | i in imports && imports[i].conn != conn :: imports[i];
      if conn in activeTxByConn {
        txs := txs - {activeTxByConn[conn]};
        activeTxByConn := activeTxByConn - {conn};
      }
      assert activeTxByConn == old(activeTxByConn) - {conn};
      return Acknowledged;
    }

    /** None when the connection already has a transaction. */
    method BeginTx(conn: nat) returns (tx: Option<nat>)
      modifies this
      ensures conn in old(activeTxByConn) ==> tx == None && Snapshot() == old(Snapshot())
      ensures conn !in old(activeTxByConn) ==> tx == Some(old(nextTxId))
      ensures conn !in old(activeTxByConn) ==>
                Snapshot() == old(Snapshot()).(txs := old(txs)[old(nextTxId) := conn],
                                               activeTx := old(activeTxByConn)[conn := old(nextTxId)],
                                               nextTx := old(nextTxId) + 1)
    {
      if conn in activeTxByConn {
        return None;
      }
      tx := Some(nextTxId);
      txs := txs[nextTxId := conn];
      activeTxByConn := activeTxByConn[conn := nextTxId];
      nextTxId := nextTxId + 1;
    }

    method CloseTx(tx: nat) returns (conn: Option<nat>)
      modifies this
      ensures tx !in old(txs) ==> conn == None && Snapshot() == old(Snapshot())
      ensures tx in old(txs) ==> conn == Some(old(txs)[tx]) && Snapshot() == WithoutTx(old(Snapshot()), tx)
    {
      if tx !in txs {
        return None;
      }
      var owner := txs[tx];
      txs := txs - {tx};
      if owner in activeTxByConn && activeTxByConn[owner] == tx {
        activeTxByConn := activeTxByConn - {owner};
      }
      return Some(owner);
    }

    method HandleExecRun(conn: nat, tx: Option<nat>, outcome: StatementOutcome) returns (response: Response)
      modifies this
      ensures (Snapshot(), response) == Step(old(Snapshot()), ExecRun(conn, tx, outcome))
    {
      if tx.Some? && !(tx.value in txs && txs[tx.value] == conn) {
        return Error(UnknownTx);
      }
      if conn !in conns {
        return Error(UnknownConn);
      }
      conns := conns[conn := Execute(conns[conn], outcome)];
      return if outcome.Done? then Acknowledged else Error(SqlError);
    }

    method HandleExecBatch(conn: nat, statements: seq<StatementOutcome>, stopOnError: bool, inTransaction: bool,
                           commit: CommitOutcome)
      returns (response: Response)
      modifies this
      ensures (Snapshot(), response) == Step(old(Snapshot()),
        ExecBatch(conn, statements, stopOnError, inTransaction, commit))
    {
      if conn !in conns {
        return Error(UnknownConn);
      }
      var s := conns[conn];
      if inTransaction {
        var begun := Begin(s);
        if begun.None? {
          return Error(TxRollbackRequired);
        }
        s := begun.value;
      }
      var results, errors;
      s, results, errors := RunExecBatch(s, statements, stopOnError);
      response := BatchResult(results, errors);
      if inTransaction {
        if errors == [] {
          var (after, ok) := Commit(s, commit);
          s := after;
          if !ok {
            response := Error(TxRollbackRequired);
          }
        } else {
          var after := Rollback(s);
          if after.None? {
            response := Error(TxRollbackRequired);
          } else {
            s := after.value;
          }
        }
      }
      conns := conns[conn := s];
    }

    method RunExecBatch(start: Session, statements: seq<StatementOutcome>, stopOnError: bool)
      returns (s: Session, results: seq<bool>, errors: seq<nat>)
      ensures (s, results, errors) == RunBatch(start, statements, stopOnError)
    {
      s, results, errors := start, [], [];
      var i := 0;
      while i < |statements|
        invariant 0 <= i <= |statements|
        invariant (s, results, errors) == RunBatch(start, statements[..i], stopOnError)
        invariant stopOnError ==> errors == []
      {
        assert statements[..i + 1][..i] == statements[..i];
        match statements[i] {
          case Done(contents) =>
            s := s.(contents := contents);
            results := results + [true];
          case Failed =>
            results := results + [false];
            errors := errors + [i];
            if stopOnError {
              BatchStopped(start, statements, i + 1);
              return;
            }
        }
        i := i + 1;
      }
      assert statements[..i] == statements;
    }

    lemma {:induction false} BatchStopped(start: Session, statements: seq<StatementOutcome>, k: nat)
      requires k <= |statements| && RunBatch(start, statements[..k], true).2 != []
      ensures RunBatch(start, statements, true) == RunBatch(start, statements[..k], true)
      decreases |statements|
    {
      if k == |statements| {
        assert statements[..k] == statements;
      } else {
        var front := statements[..|statements| - 1];
        assert front[..k] == statements[..k];
        BatchStopped(start, front, k);
      }
    }

    method HandleTxBegin(conn: nat, optionsSupported: bool) returns (response: Response)
      modifies this
      ensures (Snapshot(), response) == Step(old(Snapshot()), TxBegin(conn, optionsSupported))
    {
      if !optionsSupported {
        return Error(TxOptionsNotSupported);
      }
      if conn in activeTxByConn {
        return Error(TxNestedNotSupported);
      }
      if conn !in conns {
        return Error(UnknownConn);
      }
      var begun := Begin(conns[conn]);
      if begun.None? {
        return Error(TxRollbackRequired);
      }
      conns := conns[conn := begun.value];
      var tx := BeginTx(conn);
      return Opened(tx.value);
    }

    method HandleTxCommit(tx: nat, commit: CommitOutcome) returns (response: Response)
      modifies this
      ensures (Snapshot(), response) == Step(old(Snapshot()), TxCommit(tx, commit))
    {
      if tx !in txs {
        return Error(UnknownTx);
      }
      var conn := txs[tx];
      if conn !in conns {
        return Error(UnknownConn);
      }
      var (after, ok) := Commit(conns[conn], commit);
      conns := conns[conn := after];
      if !ok {
        return Error(TxRollbackRequired);
      }
      var _ := CloseTx(tx);
      return Acknowledged;
    }

    method HandleTxRollback(tx: nat, toSavepoint: bool) returns (response: Response)
      modifies this
      ensures (Snapshot(), response) == Step(old(Snapshot()), TxRollback(tx, toSavepoint))
    {
      if tx !in txs {
        return Error(UnknownTx);
      }
      if toSavepoint {
        return Error(TxNestedNotSupported);
      }
      var conn := txs[tx];
      if conn !in conns {
        return Error(UnknownConn);
      }
      var after := Rollback(conns[conn]);
      if after.None? {
        return Error(TxRollbackRequired);
      }
      conns := conns[conn := after.value];
      var _ := CloseTx(tx);
      return Acknowledged;
    }

    method HandleImportBegin(conn: nat, paramsValid: bool, columnsNamed: bool, tableKnown: bool,
      abortOnFailures: Option<nat>)
      returns (response: Response)
      modifies this
      ensures (Snapshot(), response) ==
              Step(old(Snapshot()), ImportBegin(conn, paramsValid, columnsNamed, tableKnown, abortOnFailures))
    {
      if !paramsValid {
        return Error(InvalidParams);
      }
      if conn in activeTxByConn {
        return Error(TxNestedNotSupported);
      }
      if !columnsNamed {
        return Error(InvalidParams);
      }
      if conn !in conns {
        return Error(UnknownConn);
      }
      if !tableKnown {
        return Error(SqlError);
      }
      var begun := Begin(conns[conn]);
      if begun.None? {
        return Error(TxRollbackRequired);
      }
      conns := conns[conn := begun.value];
      response := Opened(nextImportId);
      imports := imports[nextImportId := Import(conn, abortOnFailures, 0, 0, 0)];
      nextImportId := nextImportId + 1;
    }

    /** The import is taken out of the table, run, and put back, also when it fails. */
    method HandleImportChunk(id: nat, prepares: bool, rows: seq<StatementOutcome>) returns (response: Response)
      modifies this
      ensures (Snapshot(), response) == Step(old(Snapshot()), ImportChunk(id, prepares, rows))
    {
      if id !in imports {
        return Error(UnknownImport);
      }
      var imp := imports[id];
      imports := imports - {id};
      imp, response := RunImportChunk(imp, prepares, rows);
      imports := imports[id := imp];
      assert id in old(imports);
      assert imports == old(imports)[id := imp];
      assert imp == old(imports)[id] ==> imports == old(imports);
    }

    method RunImportChunk(start: Import, prepares: bool, rows: seq<StatementOutcome>)
      returns (imp: Import, response: Response)
      modifies this`conns
      ensures rows == [] ==> imp == start && conns == old(conns) && response == ChunkResult(0)
      ensures rows != [] && start.conn !in old(conns) ==>
        imp == start && conns == old(conns) && response == Error(UnknownConn)
      ensures rows != [] && start.conn in old(conns) && !prepares ==>
                imp == start && conns == old(conns) && response == Error(SqlError)
      ensures rows != [] && start.conn in old(conns) && prepares ==>
                var (s, counted, within) := RunChunk(old(conns)[start.conn], start, rows);
                imp == counted && conns == old(conns)[start.conn := s]
                && response == if within then ChunkResult(counted.inserted - start.inserted)
                  else Error(FailureThresholdExceeded)
    {
      imp := start;
      if rows == [] {
        return imp, ChunkResult(0);
      }
      if start.conn !in conns {
        return imp, Error(UnknownConn);
      }
      if !prepares {
        return imp, Error(SqlError);
      }
      var s, inserted := conns[start.conn], 0;
      var i := 0;
      while i < |rows|
        invariant 0 <= i <= |rows| && conns == old(conns)
        invariant (s, imp, true) == RunChunk(conns[start.conn], start, rows[..i])
        invariant inserted == imp.inserted - start.inserted
      {
        assert rows[..i + 1][..i] == rows[..i];
        match rows[i] {
          case Done(contents) =>
            s := s.(contents := contents);
            imp := imp.(inserted := imp.inserted + 1, nextRow := imp.nextRow + 1);
            inserted := inserted + 1;
          case Failed =>
            imp := imp.(failedCount := imp.failedCount + 1, nextRow := imp.nextRow + 1);
        }
        if !WithinThreshold(imp) {
          ChunkStopped(conns[start.conn], start, rows, i + 1);
          conns := conns[start.conn := s];
          return imp, Error(FailureThresholdExceeded);
        }
        i := i + 1;
      }
      assert rows[..i] == rows;
      conns := conns[start.conn := s];
      return imp, ChunkResult(inserted);
    }

    lemma {:induction false} ChunkStopped(s: Session, imp: Import, rows: seq<StatementOutcome>, k: nat)
      requires k <= |rows| && !RunChunk(s, imp, rows[..k]).2
      ensures RunChunk(s, imp, rows) == RunChunk(s, imp, rows[..k])
      decreases |rows|
    {
      if k == |rows| {
        assert rows[..k] == rows;
      } else {
        var front := rows[..|rows| - 1];
        assert front[..k] == rows[..k];
        ChunkStopped(s, imp, front, k);
      }
    }

    method HandleImportCommit(id: nat, commit: CommitOutcome) returns (response: Response)
      modifies this
      ensures (Snapshot(), response) == Step(old(Snapshot()), ImportCommit(id, commit))
    {
      if id !in imports {
        return Error(UnknownImport);
      }
      var imp := imports[id];
      imports := imports - {id};
      if imp.conn !in conns {
        return Error(UnknownConn);
      }
      var (after, ok) := Commit(conns[imp.conn], commit);
      conns := conns[imp.conn := after];
      return if ok then ImportResult(imp.inserted) else Error(TxRollbackRequired);
    }

    method HandleImportAbort(id: nat) returns (response: Response)
      modifies this
      ensures (Snapshot(), response) == Step(old(Snapshot()), ImportAbort(id))
    {
      if id !in imports {
        return Error(UnknownImport);
      }
      var imp := imports[id];
      imports := imports - {id};
      if imp.conn !in conns {
        return Error(UnknownConn);
      }
      var after := Rollback(conns[imp.conn]);
      if after.None? {
        return Error(TxRollbackRequired);
      }
      conns := conns[imp.conn := after.value];
      return Acknowledged;
    }
  }
}
