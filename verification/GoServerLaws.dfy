/** Who owns what in the server's tables, for every request and over every run. */
module GoServerLaws {
  import opened Wrappers
  import opened GoServer

  // ---------- single changes to the tables ----------

  /** Entries that are still there hold what they held. */
  lemma HeldGrows(w: World, w': World, h: Handle)
    requires Held(w, h)
    requires forall c :: c in w.conns ==> c in w'.conns && w'.conns[c] == w.conns[c]
    requires forall c :: c in w.cursors ==> c in w'.cursors && w'.cursors[c].rows == w.cursors[c].rows
    requires forall t :: t in w.txs ==> t in w'.txs && w'.txs[t] == w.txs[t]
    ensures Held(w', h)
  {
    if c :| c in w.conns && w.conns[c] == h {
      assert w'.conns[c] == h;
    } else if c :| c in w.cursors && w.cursors[c].rows == Some(h) {
      assert w'.cursors[c].rows == Some(h);
    } else {
      var t :| t in w.txs && w.txs[t].handle == h;
      assert w'.txs[t].handle == h;
    }
  }

  function PassedBy(w: World, h: Handle, owner: Owner): World {
    Closing(Opening(w, h, owner), {h})
  }

  /** A handle opened and closed within one request. */
  lemma PassingHandle(w: World, h: Handle, owner: Owner)
    requires Owned(w) && h !in w.acquired && (owner.ForConn? ==> owner.conn in w.conns)
    ensures Owned(PassedBy(w, h, owner))
  {
    var w' := PassedBy(w, h, owner);
    PassingTables(w, h, owner);
    assert NothingLost(w') by {
      forall g | g in w'.acquired && g !in w'.attempted ensures Held(w', g) {
        HeldGrows(w, w', g);
      }
    }
    hide EntriesOwned, IdsIssued, NothingLost, CursorsReadable;
  }

  lemma PassingTables(w: World, h: Handle, owner: Owner)
    requires Owned(w) && h !in w.acquired && (owner.ForConn? ==> owner.conn in w.conns)
    ensures EntriesOwned(PassedBy(w, h, owner)) && IdsIssued(PassedBy(w, h, owner))
    ensures CursorsReadable(PassedBy(w, h, owner))
  {
    PassingEntries(w, h, owner);
    PassingReadable(w, h, owner);
    hide NothingLost, EntriesOwned, CursorsReadable;
  }

  lemma PassingEntries(w: World, h: Handle, owner: Owner)
    requires EntriesOwned(w) && h !in w.acquired
    ensures EntriesOwned(PassedBy(w, h, owner))
  {
  }

  lemma PassingReadable(w: World, h: Handle, owner: Owner)
    requires EntriesOwned(w) && CursorsReadable(w) && h !in w.acquired
    ensures CursorsReadable(PassedBy(w, h, owner))
  {
  }

  function WithConnection(w: World, h: Handle): World {
    Opening(w, h, ForConn(w.nextConn)).(conns := w.conns[w.nextConn := h], nextConn := w.nextConn + 1)
  }

  lemma NewConnection(w: World, h: Handle)
    requires Owned(w) && h !in w.acquired && h.Db?
    ensures Owned(WithConnection(w, h))
  {
    var w' := WithConnection(w, h);
    NewConnectionTables(w, h);
    assert NothingLost(w') by {
      assert w'.conns[w.nextConn] == h;
      forall g | g in w'.acquired && g !in w'.attempted ensures Held(w', g) {
        if g in w.acquired {
          HeldGrows(w, w', g);
        }
      }
    }
    hide EntriesOwned, IdsIssued, NothingLost, CursorsReadable;
  }

  lemma NewConnectionTables(w: World, h: Handle)
    requires Owned(w) && h !in w.acquired && h.Db?
    ensures EntriesOwned(WithConnection(w, h)) && IdsIssued(WithConnection(w, h))
    ensures CursorsReadable(WithConnection(w, h))
  {
    assert CursorsReadable(WithConnection(w, h)) by {
      hide EntriesOwned, IdsIssued, NothingLost;
    }
    assert IdsIssued(WithConnection(w, h)) by {
      hide EntriesOwned, CursorsReadable, NothingLost;
    }
    NewConnectionEntries(w, h);
    hide EntriesOwned, IdsIssued, NothingLost, CursorsReadable;
  }

  lemma NewConnectionEntries(w: World, h: Handle)
    requires EntriesOwned(w) && IdsIssued(w) && w.attempted <= w.acquired.Keys && h !in w.acquired && h.Db?
    ensures EntriesOwned(WithConnection(w, h))
  {
  }

  function WithCursor(w: World, conn: nat, h: Handle): World {
    Opening(w, h, ForConn(conn)).(
      cursors := w.cursors[w.nextCursor := Cursor(conn, Some(h), 0, false)], nextCursor := w.nextCursor + 1)
  }

  lemma NewCursorEntry(w: World, conn: nat, h: Handle)
    requires Owned(w) && h !in w.acquired && h.Rows? && conn in w.conns
    ensures Owned(WithCursor(w, conn, h))
  {
    var w' := WithCursor(w, conn, h);
    NewCursorTables(w, conn, h);
    CursorAddedReadable(w, conn, h);
    assert NothingLost(w') by {
      FreshFacts(w, h);
      assert w'.cursors[w.nextCursor].rows == Some(h);
      forall g | g in w'.acquired && g !in w'.attempted ensures Held(w', g) {
        if g in w.acquired {
          HeldGrows(w, w', g);
        }
      }
    }
    hide EntriesOwned, IdsIssued, NothingLost, CursorsReadable;
  }

  lemma NewCursorTables(w: World, conn: nat, h: Handle)
    requires EntriesOwned(w) && IdsIssued(w) && h !in w.acquired && h.Rows? && conn in w.conns
    ensures EntriesOwned(WithCursor(w, conn, h)) && IdsIssued(WithCursor(w, conn, h))
  {
  }

  lemma CursorAddedReadable(w: World, conn: nat, h: Handle)
    requires Owned(w) && h !in w.acquired
    ensures CursorsReadable(WithCursor(w, conn, h))
  {
    hide NothingLost, IdsIssued;
    assert w.nextCursor !in w.cursors && h !in w.attempted by {
      assert IdsIssued(w) && NothingLost(w);
      FreshFacts(w, h);
    }
    forall c | c in w.cursors ensures w.cursors[c].rows != Some(h) {
    }
  }

  lemma FreshFacts(w: World, h: Handle)
    requires IdsIssued(w) && NothingLost(w) && h !in w.acquired
    ensures w.nextCursor !in w.cursors && h !in w.attempted
  {
  }

  function WithTx(w: World, conn: nat, h: Handle): World {
    Opening(w, h, ForConn(conn)).(txs := w.txs[w.nextTx := Tx(conn, h)], nextTx := w.nextTx + 1)
  }

  lemma NewTransaction(w: World, conn: nat, h: Handle)
    requires Owned(w) && h !in w.acquired && h.TxHandle? && conn in w.conns
    ensures Owned(WithTx(w, conn, h))
  {
    var w' := WithTx(w, conn, h);
    NewTransactionTables(w, conn, h);
    assert NothingLost(w') by {
      assert IdsIssued(w) && w.nextTx !in w.txs;
      assert w'.txs[w.nextTx].handle == h;
      forall g | g in w'.acquired && g !in w'.attempted ensures Held(w', g) {
        if g in w.acquired {
          HeldGrows(w, w', g);
        }
      }
    }
    hide EntriesOwned, IdsIssued, NothingLost, CursorsReadable;
  }

  lemma NewTransactionTables(w: World, conn: nat, h: Handle)
    requires Owned(w) && h !in w.acquired && h.TxHandle? && conn in w.conns
    ensures EntriesOwned(WithTx(w, conn, h)) && IdsIssued(WithTx(w, conn, h)) && CursorsReadable(WithTx(w, conn, h))
  {
    hide Held;
  }

  /** The cursor moves on or is closed; `kept` is false when it leaves the table. */
  function WithCursorChanged(w: World, id: nat, cursor: Cursor, kept: bool, closed: set<Handle>): World {
    Closing(w, closed).(cursors := if kept then w.cursors[id := cursor] else w.cursors - {id})
  }

  lemma CursorChange(w: World, id: nat, cursor: Cursor, kept: bool, closed: set<Handle>)
    requires Owned(w) && id in w.cursors && cursor.conn == w.cursors[id].conn
    requires closed <= (if w.cursors[id].rows.Some? then {w.cursors[id].rows.value} else {})
    requires (kept && cursor.rows == w.cursors[id].rows)
      || ((!kept || cursor.rows == None) && (w.cursors[id].rows.Some? ==> w.cursors[id].rows.value in closed))
    requires kept && !cursor.done ==> !w.cursors[id].done && cursor.rows == w.cursors[id].rows && closed == {}
    ensures Owned(WithCursorChanged(w, id, cursor, kept, closed))
  {
    var w' := WithCursorChanged(w, id, cursor, kept, closed);
    CursorChangeTables(w, id, cursor, kept, closed);
    CursorChangeReadable(w, id, cursor, kept, closed);
    CursorChangeLoses(w, id, cursor, kept, closed);
    hide EntriesOwned, IdsIssued, NothingLost, CursorsReadable;
  }

  lemma CursorChangeLoses(w: World, id: nat, cursor: Cursor, kept: bool, closed: set<Handle>)
    requires EntriesOwned(w) && NothingLost(w) && id in w.cursors
    requires closed <= (if w.cursors[id].rows.Some? then {w.cursors[id].rows.value} else {})
    requires (kept && cursor.rows == w.cursors[id].rows)
      || (w.cursors[id].rows.Some? ==> w.cursors[id].rows.value in closed)
    ensures NothingLost(WithCursorChanged(w, id, cursor, kept, closed))
  {
    var w' := WithCursorChanged(w, id, cursor, kept, closed);
    assert w'.attempted <= w'.acquired.Keys;
    hide EntriesOwned;
    forall h | h in w'.acquired && h !in w'.attempted ensures Held(w', h) {
      CursorChangeLosesNothing(w, id, cursor, kept, closed, h);
    }
  }

  lemma CursorChangeTables(w: World, id: nat, cursor: Cursor, kept: bool, closed: set<Handle>)
    requires EntriesOwned(w) && IdsIssued(w) && id in w.cursors && cursor.conn == w.cursors[id].conn
    requires closed <= (if w.cursors[id].rows.Some? then {w.cursors[id].rows.value} else {})
    requires cursor.rows == w.cursors[id].rows || !kept || cursor.rows == None
    ensures EntriesOwned(WithCursorChanged(w, id, cursor, kept, closed))
    ensures IdsIssued(WithCursorChanged(w, id, cursor, kept, closed))
  {
  }

  lemma CursorChangeReadable(w: World, id: nat, cursor: Cursor, kept: bool, closed: set<Handle>)
    requires CursorsReadable(w) && id in w.cursors
    requires closed <= (if w.cursors[id].rows.Some? then {w.cursors[id].rows.value} else {})
    requires cursor.rows == w.cursors[id].rows || !kept || cursor.rows == None
    requires kept && !cursor.done ==> !w.cursors[id].done && cursor.rows == w.cursors[id].rows && closed == {}
    ensures CursorsReadable(WithCursorChanged(w, id, cursor, kept, closed))
  {
  }

  lemma CursorChangeLosesNothing(w: World, id: nat, cursor: Cursor, kept: bool, closed: set<Handle>, h: Handle)
    requires Held(w, h) && id in w.cursors && h !in closed
    requires (kept && cursor.rows == w.cursors[id].rows)
      || (w.cursors[id].rows.Some? ==> w.cursors[id].rows.value in closed)
    ensures Held(WithCursorChanged(w, id, cursor, kept, closed), h)
  {
    var w' := WithCursorChanged(w, id, cursor, kept, closed);
    if c :| c in w.conns && w.conns[c] == h {
      assert w'.conns[c] == h;
    } else if c :| c in w.cursors && w.cursors[c].rows == Some(h) {
      assert w'.cursors[c].rows == Some(h);
    } else {
      var t :| t in w.txs && w.txs[t].handle == h;
      assert w'.txs[t].handle == h;
    }
  }

  /** Nothing about ownership depends on which of the ended transactions were committed. */
  lemma CommittedIsApart(w: World, committed: set<Handle>)
    ensures Owned(w.(committed := committed)) <==> Owned(w)
  {
    EntriesAreApart(w, committed);
    LossIsApart(w, committed);
    hide EntriesOwned, IdsIssued, NothingLost, CursorsReadable;
  }

  lemma EntriesAreApart(w: World, committed: set<Handle>)
    ensures EntriesOwned(w.(committed := committed)) <==> EntriesOwned(w)
    ensures IdsIssued(w.(committed := committed)) <==> IdsIssued(w)
    ensures CursorsReadable(w.(committed := committed)) <==> CursorsReadable(w)
  {
  }

  lemma LossIsApart(w: World, committed: set<Handle>)
    ensures NothingLost(w.(committed := committed)) <==> NothingLost(w)
  {
    var w' := w.(committed := committed);
    forall h ensures Held(w', h) <==> Held(w, h) {
    }
    hide Held;
  }

  function WithTxEnded(w: World, tx: nat, kept: bool): World
    requires tx in w.txs
  {
    Closing(w, {w.txs[tx].handle}).(txs := if kept then w.txs else w.txs - {tx})
  }

  lemma TxEnds(w: World, tx: nat, kept: bool)
    requires Owned(w) && tx in w.txs
    ensures Owned(WithTxEnded(w, tx, kept))
  {
    TxEndsTables(w, tx, kept);
    assert NothingLost(WithTxEnded(w, tx, kept)) by {
      TxEndsLosesNothing(w, tx, kept);
    }
    hide EntriesOwned, IdsIssued, NothingLost, CursorsReadable;
  }

  lemma TxEndsTables(w: World, tx: nat, kept: bool)
    requires Owned(w) && tx in w.txs
    ensures EntriesOwned(WithTxEnded(w, tx, kept)) && IdsIssued(WithTxEnded(w, tx, kept))
    ensures CursorsReadable(WithTxEnded(w, tx, kept))
  {
    hide NothingLost, Held;
  }

  lemma TxEndsLosesNothing(w: World, tx: nat, kept: bool)
    requires NothingLost(w) && EntriesOwned(w) && tx in w.txs
    ensures NothingLost(WithTxEnded(w, tx, kept))
  {
    var w' := WithTxEnded(w, tx, kept);
    assert w'.attempted <= w'.acquired.Keys;
    assert w.txs[tx].handle in w'.attempted;
    hide EntriesOwned;
    forall h | h in w'.acquired && h !in w'.attempted ensures Held(w', h) {
      assert Held(w, h);
      if c :| c in w.conns && w.conns[c] == h {
        assert w'.conns[c] == h;
      } else if c :| c in w.cursors && w.cursors[c].rows == Some(h) {
        assert w'.cursors[c].rows == Some(h);
      } else {
        var t :| t in w.txs && w.txs[t].handle == h;
        assert w'.txs[t].handle == h;
      }
    }
  }

  /** Changing streams or imports moves no handle. */
  lemma TablesKeepOwned(w: World, w': World)
    requires Owned(w) && ImportsFit(w, w')
    ensures Owned(w')
  {
    TablesLoseNothing(w, w');
    TablesKeepEntries(w, w');
    hide NothingLost, EntriesOwned, CursorsReadable;
  }

  lemma TablesKeepEntries(w: World, w': World)
    requires EntriesOwned(w) && CursorsReadable(w) && ImportsFit(w, w')
    ensures EntriesOwned(w') && CursorsReadable(w')
  {
    assert w'.conns == w.conns && w'.cursors == w.cursors && w'.txs == w.txs && w'.acquired == w.acquired;
    assert CursorsReadable(w') by {
      hide EntriesOwned;
    }
    hide CursorsReadable;
  }

  lemma TablesLoseNothing(w: World, w': World)
    requires NothingLost(w) && ImportsFit(w, w')
    ensures NothingLost(w')
  {
    forall h | h in w'.acquired && h !in w'.attempted ensures Held(w', h) {
      assert Held(w, h);
    }
  }

  // ---------- every request keeps ownership ----------

  lemma OpenKeepsOwned(w: World, open: OpenOutcome, failing: set<Handle>)
    requires Owned(w) && Fresh(w, ConnOpen(open)) && Fresh(w, ConnTest(open))
    ensures Owned(AfterConnOpen(w, open).0) && Owned(AfterConnTest(w, open, failing).0)
  {
    hide Owned;
    if !open.OpenFailed? {
      PassingHandle(w, Db(open.db), Temporary);
      NewConnection(w, Db(open.db));
    }
  }

  lemma CloseKeepsOwned(w: World, conn: nat, failing: set<Handle>)
    requires Owned(w)
    ensures Owned(AfterConnClose(w, conn, failing).0)
  {
    var w' := AfterConnClose(w, conn, failing).0;
    if conn in w.conns {
      CloseTables(w, conn, failing);
      assert NothingLost(w') by {
        HandlesAreOwn(w, conn);
        forall h | h in w'.acquired && h !in w'.attempted ensures Held(w', h) {
          HeldElsewhere(w, conn, failing, h);
        }
      }
    }
    hide EntriesOwned, IdsIssued, NothingLost, CursorsReadable;
  }

  lemma CloseTables(w: World, conn: nat, failing: set<Handle>)
    requires Owned(w) && conn in w.conns
    ensures var w' := AfterConnClose(w, conn, failing).0;
      EntriesOwned(w') && IdsIssued(w') && CursorsReadable(w')
  {
    CloseEntries(w, conn, failing);
    CloseReadable(w, conn, failing);
    hide EntriesOwned, NothingLost, CursorsReadable, RowsOf, TxHandlesOf;
  }

  lemma CloseEntries(w: World, conn: nat, failing: set<Handle>)
    requires EntriesOwned(w) && conn in w.conns
    ensures EntriesOwned(AfterConnClose(w, conn, failing).0)
  {
    HandlesAreOwn(w, conn);
    hide RowsOf, TxHandlesOf;
  }

  lemma CloseReadable(w: World, conn: nat, failing: set<Handle>)
    requires EntriesOwned(w) && CursorsReadable(w) && conn in w.conns
    ensures CursorsReadable(AfterConnClose(w, conn, failing).0)
  {
    HandlesAreOwn(w, conn);
    hide RowsOf, TxHandlesOf;
  }

  lemma HeldElsewhere(w: World, conn: nat, failing: set<Handle>, h: Handle)
    requires Owned(w) && conn in w.conns && h in w.acquired
    requires h !in AfterConnClose(w, conn, failing).0.attempted
    ensures Held(AfterConnClose(w, conn, failing).0, h)
  {
    var w' := AfterConnClose(w, conn, failing).0;
    assert Held(w, h);
    if c :| c in w.conns && w.conns[c] == h {
      assert w'.conns[c] == h;
    } else if c :| c in w.cursors && w.cursors[c].rows == Some(h) {
      assert w.cursors[c].conn == conn ==> h in RowsOf(w.cursors, conn);
      assert w'.cursors[c].rows == Some(h);
    } else {
      var t :| t in w.txs && w.txs[t].handle == h;
      assert w.txs[t].conn == conn ==> h in TxHandlesOf(w.txs, conn);
      assert w'.txs[t].handle == h;
    }
  }

  lemma HandlesAreOwn(w: World, conn: nat)
    requires EntriesOwned(w) && conn in w.conns
    ensures forall h :: h in RowsOf(w.cursors, conn) + TxHandlesOf(w.txs, conn) + {w.conns[conn]} ==>
              h in w.acquired && w.acquired[h] == ForConn(conn)
  {
  }

  lemma QueryKeepsOwned(w: World, conn: nat, tx: Option<nat>, query: QueryOutcome)
    requires Owned(w) && Fresh(w, QueryStart(conn, tx, query))
    ensures Owned(AfterQueryStart(w, conn, tx, query).0)
  {
    hide Owned;
    if Executor(w, conn, tx).Some? && !query.QueryFailed? {
      PassingHandle(w, Rows(query.rows), ForConn(conn));
      NewCursorEntry(w, conn, Rows(query.rows));
    }
  }

  lemma FetchKeepsOwned(w: World, id: nat, fetch: FetchOutcome, failing: set<Handle>)
    requires Owned(w)
    ensures Owned(AfterCursorFetch(w, id, fetch, failing).0)
  {
    hide Owned;
    if id in w.cursors && !w.cursors[id].done && w.cursors[id].rows.Some? && fetch.Page? {
      var cursor := w.cursors[id];
      var moved := cursor.(fetched := cursor.fetched + fetch.count);
      var h := cursor.rows.value;
      assert w == Closing(w, {});
      if !fetch.last {
        CursorChange(w, id, moved, true, {});
      } else if h in failing {
        CursorChange(w, id, moved.(done := true), true, {h});
      } else {
        CursorChange(w, id, moved.(done := true, rows := None), true, {h});
      }
    }
  }

  lemma CursorCloseKeepsOwned(w: World, id: nat, failing: set<Handle>)
    requires Owned(w)
    ensures Owned(AfterCursorClose(w, id, failing).0) && Owned(AfterCursorCancel(w, id, failing).0)
  {
    hide Owned;
    if id in w.cursors {
      var cursor := w.cursors[id];
      var closed := if cursor.rows.Some? then {cursor.rows.value} else {};
      CursorChange(w, id, cursor.(rows := None, done := true), true, closed);
      CursorChange(w, id, cursor, false, closed);
    }
  }

  lemma TxKeepsOwned(w: World, conn: nat, tx: Option<nat>, id: nat, commit: bool, failing: set<Handle>)
    requires Owned(w) && Fresh(w, TxBegin(conn, tx))
    ensures Owned(AfterTxBegin(w, conn, tx).0) && Owned(AfterTxEnd(w, id, commit, failing).0)
  {
    hide Owned;
    if conn in w.conns && tx.Some? {
      NewTransaction(w, conn, TxHandle(tx.value));
    }
    if id in w.txs {
      var committed := if commit then w.committed + {w.txs[id].handle} else w.committed;
      var kept := w.txs[id].handle in failing;
      TxEnds(w, id, kept);
      CommittedIsApart(WithTxEnded(w, id, kept), committed);
      assert AfterTxEnd(w, id, commit, failing).0 == WithTxEnded(w, id, kept).(committed := committed);
    }
  }

  lemma BatchKeepsOwned(w: World, conn: nat, inTransaction: bool, tx: Option<nat>, failed: seq<nat>,
    failing: set<Handle>)
    requires Owned(w) && (inTransaction && tx.Some? ==> TxHandle(tx.value) !in w.acquired)
    ensures Owned(AfterExecBatch(w, conn, inTransaction, tx, failed, failing).0)
  {
    hide Owned;
    if conn in w.conns && inTransaction && tx.Some? {
      var h := TxHandle(tx.value);
      var passed := PassedBy(w, h, ForConn(conn));
      PassingHandle(w, h, ForConn(conn));
      CommittedIsApart(passed, w.committed + {h});
      assert AfterExecBatch(w, conn, inTransaction, tx, failed, failing).0 ==
        if failed == [] then passed.(committed := w.committed + {h}) else passed;
    }
  }

  lemma ShutdownKeepsOwned(w: World, failing: set<Handle>)
    requires Owned(w)
    ensures Owned(AfterShutdown(w, failing).0)
    ensures AfterShutdown(w, failing).0.attempted == w.acquired.Keys
    ensures forall h :: Held(w, h) <==> h in AllRows(w.cursors) + AllTxHandles(w.txs) + AllDbs(w.conns)
  {
    var w' := AfterShutdown(w, failing).0;
    HeldAreAll(w);
    AllAreAcquired(w);
    hide AllRows, AllTxHandles, AllDbs, Held;
    assert NothingLost(w) && w.attempted <= w.acquired.Keys;
    forall h | h in w.acquired ensures h in w'.attempted {
      if h !in w.attempted {
        assert Held(w, h);
      }
    }
    assert w'.attempted == w.acquired.Keys;
    EmptyIsOwned(w, w');
  }

  lemma HeldAreAll(w: World)
    ensures forall h :: Held(w, h) <==> h in AllRows(w.cursors) + AllTxHandles(w.txs) + AllDbs(w.conns)
  {
  }

  lemma AllAreAcquired(w: World)
    requires EntriesOwned(w)
    ensures AllRows(w.cursors) + AllTxHandles(w.txs) + AllDbs(w.conns) <= w.acquired.Keys
  {
  }

  lemma EmptyIsOwned(w: World, w': World)
    requires Owned(w) && w'.attempted == w.acquired.Keys
    requires w' == w.(conns := map[], cursors := map[], txs := map[], imports := map[], streams := map[],
                      attempted := w'.attempted)
    ensures Owned(w')
  {
    hide Held, EntriesOwned, NothingLost, CursorsReadable;
    assert EntriesOwned(w') && NothingLost(w') && CursorsReadable(w') by {
      NothingInTables(w');
    }
  }

  lemma NothingInTables(w: World)
    requires w.conns == map[] && w.cursors == map[] && w.txs == map[] && w.imports == map[]
    requires w.attempted == w.acquired.Keys
    ensures EntriesOwned(w) && NothingLost(w) && CursorsReadable(w)
  {
    hide Held;
  }

  /** Nothing but imports and streams moved, and every import names a live connection under an id that was issued. */
  ghost predicate ImportsFit(w: World, w': World) {
    && w' == w.(imports := w'.imports, streams := w'.streams, nextImport := w'.nextImport)
    && w.nextImport <= w'.nextImport
    && forall i :: i in w'.imports ==> w'.imports[i] in w.conns && i < w'.nextImport
  }

  lemma ImportsKeepOwned(w: World, request: Request, failing: set<Handle>)
    requires Owned(w)
    requires request.ImportBegin? || request.ImportChunk? || request.ImportCommit? || request.ImportAbort?
      || request.DataExport? || request.StreamRead? || request.StreamClose? || request.ExecRun?
      || request.TxSavepoint? || request.TxRelease?
    ensures Owned(Step(w, request, failing).0)
  {
    var w' := Step(w, request, failing).0;
    ImportsStay(w, request, failing);
    hide Owned, Step;
    TablesKeepOwned(w, w');
  }

  lemma FewerImports(w: World, w': World)
    requires EntriesOwned(w) && IdsIssued(w)
    requires w' == w.(imports := w'.imports, streams := w'.streams)
    requires forall i :: i in w'.imports ==> i in w.imports && w'.imports[i] == w.imports[i]
    ensures ImportsFit(w, w')
  {
  }

  lemma OneMoreImport(w: World, conn: nat, formatKnown: bool)
    requires EntriesOwned(w) && IdsIssued(w)
    ensures ImportsFit(w, AfterImportBegin(w, conn, formatKnown).0)
  {
  }

  lemma ImportsStay(w: World, request: Request, failing: set<Handle>)
    requires EntriesOwned(w) && IdsIssued(w)
    requires request.ImportBegin? || request.ImportChunk? || request.ImportCommit? || request.ImportAbort?
      || request.DataExport? || request.StreamRead? || request.StreamClose? || request.ExecRun?
      || request.TxSavepoint? || request.TxRelease?
    ensures ImportsFit(w, Step(w, request, failing).0)
  {
    hide EntriesOwned, IdsIssued, ImportsFit, Executor, AfterConnTest, AfterConnOpen, AfterConnClose, AfterQueryStart,
         AfterCursorFetch, AfterCursorClose, AfterCursorCancel, AfterExecBatch, AfterTxBegin, AfterTxEnd,
         AfterTxRollback, AfterShutdown, AfterImportBegin, AfterImportChunk, AfterExport, AfterStreamRead, AfterExecRun,
         AfterTxNamed;
    match request
    case ImportBegin(conn, formatKnown) => OneMoreImport(w, conn, formatKnown);
    case ImportChunk(id) => ChunkMovesNothing(w, id);
    case ImportCommit(id) => FewerImports(w, Step(w, request, failing).0);
    case ImportAbort(id) => FewerImports(w, Step(w, request, failing).0);
    case DataExport(conn, stream, bytes) => StreamsMoveNothing(w, conn, stream, bytes, 0);
    case StreamRead(stream, maxBytes) => StreamsMoveNothing(w, 0, stream, None, maxBytes);
    case StreamClose(stream) => FewerImports(w, Step(w, request, failing).0);
    case ExecRun(conn, tx, succeeds) => StatementsMoveNothing(w, conn, tx, 0, false, succeeds);
    case TxSavepoint(tx, named, succeeds) => StatementsMoveNothing(w, 0, None, tx, named, succeeds);
    case TxRelease(tx, named, succeeds) => StatementsMoveNothing(w, 0, None, tx, named, succeeds);
  }

  lemma ChunkMovesNothing(w: World, id: nat)
    requires EntriesOwned(w) && IdsIssued(w)
    ensures ImportsFit(w, AfterImportChunk(w, id).0)
  {
  }

  lemma StreamsMoveNothing(w: World, conn: nat, stream: nat, bytes: Option<nat>, maxBytes: nat)
    requires EntriesOwned(w) && IdsIssued(w)
    ensures ImportsFit(w, AfterExport(w, conn, stream, bytes).0)
    ensures ImportsFit(w, AfterStreamRead(w, stream, maxBytes).0)
  {
    FewerImports(w, AfterExport(w, conn, stream, bytes).0);
    FewerImports(w, AfterStreamRead(w, stream, maxBytes).0);
    hide ImportsFit;
  }

  lemma StatementsMoveNothing(w: World, conn: nat, tx: Option<nat>, id: nat, named: bool, succeeds: bool)
    requires EntriesOwned(w) && IdsIssued(w)
    ensures ImportsFit(w, AfterExecRun(w, conn, tx, succeeds).0)
    ensures ImportsFit(w, AfterTxNamed(w, id, named, succeeds).0)
  {
    FewerImports(w, w);
    hide ImportsFit, Executor;
  }

  lemma StepKeepsOwned(w: World, request: Request, failing: set<Handle>)
    requires Owned(w) && Fresh(w, request)
    ensures Owned(Step(w, request, failing).0)
  {
    hide Owned, AfterConnTest, AfterConnOpen, AfterConnClose, AfterQueryStart, AfterCursorFetch, AfterCursorClose,
         AfterCursorCancel, AfterExecBatch, AfterTxBegin, AfterTxEnd, AfterShutdown;
    match request
    case ConnTest(open) => OpenKeepsOwned(w, open, failing);
    case ConnOpen(open) => OpenKeepsOwned(w, open, failing);
    case ConnClose(conn) => CloseKeepsOwned(w, conn, failing);
    case QueryStart(conn, tx, query) => QueryKeepsOwned(w, conn, tx, query);
    case CursorFetch(cursor, fetch) => FetchKeepsOwned(w, cursor, fetch, failing);
    case CursorClose(cursor) => CursorCloseKeepsOwned(w, cursor, failing);
    case CursorCancel(cursor) => CursorCloseKeepsOwned(w, cursor, failing);
    case ExecBatch(conn, inTransaction, tx, stopOnError, outcomes) =>
      BatchKeepsOwned(w, conn, inTransaction, tx, Failures(outcomes, stopOnError), failing);
    case TxBegin(conn, tx) => TxKeepsOwned(w, conn, tx, 0, false, failing);
    case TxCommit(tx) => TxKeepsOwned(w, 0, None, tx, true, failing);
    case TxRollback(tx, _) => TxKeepsOwned(w, 0, None, tx, false, failing);
    case Shutdown => ShutdownKeepsOwned(w, failing);
    case _ => ImportsKeepOwned(w, request, failing);
  }

  // ---------- runs ----------

  /** A request as it arrives, with what the library will answer. */
  datatype Call = Call(request: Request, failing: set<Handle>)

  function After(calls: seq<Call>): World {
    if calls == [] then EMPTY
    else
      var last := calls[|calls| - 1];
      Step(After(calls[..|calls| - 1]), last.request, last.failing).0
  }

  /** The library hands out a new handle each time. */
  predicate Legal(calls: seq<Call>) {
    calls == [] ||
    (Legal(calls[..|calls| - 1]) && Fresh(After(calls[..|calls| - 1]), calls[|calls| - 1].request))
  }

  function ResponseTo(calls: seq<Call>, i: nat): Response
    requires i < |calls|
  {
    Step(After(calls[..i]), calls[i].request, calls[i].failing).1
  }

  /**
   * After every run: each cursor, transaction and import names a live connection, every handle ever opened is in a
   * table or was closed, and a cursor that is not done reads from rows nobody closed.
   */
  lemma {:induction false} OwnedAlways(calls: seq<Call>)
    requires Legal(calls)
    ensures Owned(After(calls))
    decreases |calls|
  {
    if calls != [] {
      var last := calls[|calls| - 1];
      OwnedAlways(calls[..|calls| - 1]);
      StepKeepsOwned(After(calls[..|calls| - 1]), last.request, last.failing);
    }
  }

  /** Once a connection is gone, everything that was ever opened for it has been closed. */
  lemma GoneMeansClosed(calls: seq<Call>, h: Handle)
    requires Legal(calls)
    requires var w := After(calls); h in w.acquired && (w.acquired[h].ForConn? ==> w.acquired[h].conn !in w.conns)
    ensures h in After(calls).attempted
  {
    OwnedAlways(calls);
  }

  lemma PrefixLegal(calls: seq<Call>, i: nat)
    requires Legal(calls) && i <= |calls|
    ensures Legal(calls[..i])
    decreases |calls|
  {
    if i == |calls| {
      assert calls[..i] == calls;
    } else {
      assert calls[..|calls| - 1][..i] == calls[..i];
      PrefixLegal(calls[..|calls| - 1], i);
    }
  }

  predicate Grown(w: World, w': World) {
    && w.nextConn <= w'.nextConn && w.nextCursor <= w'.nextCursor
    && w.nextTx <= w'.nextTx && w.nextImport <= w'.nextImport
  }

  lemma ConnectionsGrow(w: World, open: OpenOutcome, conn: nat, failing: set<Handle>)
    ensures Grown(w, AfterConnOpen(w, open).0) && Grown(w, AfterConnTest(w, open, failing).0)
    ensures Grown(w, AfterConnClose(w, conn, failing).0) && Grown(w, AfterShutdown(w, failing).0)
  {
  }

  lemma QueriesGrow(w: World, conn: nat, tx: Option<nat>, query: QueryOutcome)
    ensures Grown(w, AfterQueryStart(w, conn, tx, query).0)
  {
    hide Executor;
  }

  lemma FetchesGrow(w: World, id: nat, fetch: FetchOutcome, failing: set<Handle>)
    ensures Grown(w, AfterCursorFetch(w, id, fetch, failing).0)
  {
  }

  lemma CursorEndsGrow(w: World, id: nat, failing: set<Handle>)
    ensures Grown(w, AfterCursorClose(w, id, failing).0) && Grown(w, AfterCursorCancel(w, id, failing).0)
  {
  }

  lemma TxsGrow(w: World, conn: nat, tx: Option<nat>, id: nat, commit: bool, failing: set<Handle>)
    ensures Grown(w, AfterTxBegin(w, conn, tx).0) && Grown(w, AfterTxEnd(w, id, commit, failing).0)
  {
  }

  lemma BatchGrows(w: World, conn: nat, inTransaction: bool, tx: Option<nat>, failed: seq<nat>, failing: set<Handle>)
    ensures Grown(w, AfterExecBatch(w, conn, inTransaction, tx, failed, failing).0)
  {
  }

  lemma CountersGrow(w: World, request: Request, failing: set<Handle>)
    ensures Grown(w, Step(w, request, failing).0)
  {
    if request.TxBegin? || request.TxCommit? || request.TxRollback? || request.TxSavepoint? || request.TxRelease?
       || request.ExecRun? || request.ExecBatch? {
      TxCountersGrow(w, request, failing);
    } else if request.ImportBegin? || request.ImportChunk? || request.ImportCommit? || request.ImportAbort?
              || request.DataExport? || request.StreamRead? || request.StreamClose? {
      TableCountersGrow(w, request, failing);
    } else {
      HandleCountersGrow(w, request, failing);
    }
    hide *;
  }

  lemma TxCountersGrow(w: World, request: Request, failing: set<Handle>)
    requires request.TxBegin? || request.TxCommit? || request.TxRollback? || request.TxSavepoint? || request.TxRelease?
      || request.ExecRun? || request.ExecBatch?
    ensures Grown(w, Step(w, request, failing).0)
  {
    hide AfterConnTest, AfterConnOpen, AfterConnClose, AfterQueryStart, AfterCursorFetch, AfterCursorClose,
         AfterCursorCancel, AfterExecBatch, AfterTxBegin, AfterTxEnd, AfterTxRollback, AfterShutdown, AfterExecRun,
         AfterImportBegin, AfterImportChunk, AfterExport, AfterStreamRead, AfterTxNamed, Grown;
    match request
    case ExecBatch(conn, inTransaction, tx, stopOnError, outcomes) =>
      BatchGrows(w, conn, inTransaction, tx, Failures(outcomes, stopOnError), failing);
    case TxBegin(conn, tx) => TxsGrow(w, conn, tx, 0, false, failing);
    case TxCommit(id) => TxsGrow(w, 0, None, id, true, failing);
    case TxRollback(id, toSavepoint) => StatementsGrow(w, 0, None, id, toSavepoint, false, failing);
    case TxSavepoint(id, named, succeeds) => StatementsGrow(w, 0, None, id, named, succeeds, failing);
    case TxRelease(id, named, succeeds) => StatementsGrow(w, 0, None, id, named, succeeds, failing);
    case ExecRun(conn, tx, succeeds) => StatementsGrow(w, conn, tx, 0, false, succeeds, failing);
  }

  lemma TableCountersGrow(w: World, request: Request, failing: set<Handle>)
    requires request.ImportBegin? || request.ImportChunk? || request.ImportCommit? || request.ImportAbort?
      || request.DataExport? || request.StreamRead? || request.StreamClose?
    ensures Grown(w, Step(w, request, failing).0)
  {
    hide AfterConnTest, AfterConnOpen, AfterConnClose, AfterQueryStart, AfterCursorFetch, AfterCursorClose,
         AfterCursorCancel, AfterExecBatch, AfterTxBegin, AfterTxEnd, AfterTxRollback, AfterShutdown, AfterExecRun,
         AfterImportBegin, AfterImportChunk, AfterExport, AfterStreamRead, AfterTxNamed, Grown;
    match request
    case ImportBegin(conn, formatKnown) => ImportsGrow(w, conn, formatKnown, 0, None);
    case ImportChunk(id) => ImportsGrow(w, 0, false, id, None);
    case DataExport(conn, stream, bytes) => ImportsGrow(w, conn, false, stream, bytes);
    case StreamRead(stream, maxBytes) => StreamsGrow(w, stream, maxBytes);
    case _ => SameCounters(w, Step(w, request, failing).0);
  }

  lemma HandleCountersGrow(w: World, request: Request, failing: set<Handle>)
    requires request.ConnTest? || request.ConnOpen? || request.ConnClose? || request.Shutdown? || request.QueryStart?
      || request.CursorFetch? || request.CursorClose? || request.CursorCancel?
    ensures Grown(w, Step(w, request, failing).0)
  {
    hide AfterConnTest, AfterConnOpen, AfterConnClose, AfterQueryStart, AfterCursorFetch, AfterCursorClose,
         AfterCursorCancel, AfterExecBatch, AfterTxBegin, AfterTxEnd, AfterTxRollback, AfterShutdown, AfterExecRun,
         AfterImportBegin, AfterImportChunk, AfterExport, AfterStreamRead, AfterTxNamed, Grown;
    match request
    case ConnTest(open) => ConnectionsGrow(w, open, 0, failing);
    case ConnOpen(open) => ConnectionsGrow(w, open, 0, failing);
    case ConnClose(conn) => ConnectionsGrow(w, OpenFailed, conn, failing);
    case Shutdown => ConnectionsGrow(w, OpenFailed, 0, failing);
    case QueryStart(conn, tx, query) => QueriesGrow(w, conn, tx, query);
    case CursorFetch(id, fetch) => FetchesGrow(w, id, fetch, failing);
    case CursorClose(id) => CursorEndsGrow(w, id, failing);
    case CursorCancel(id) => CursorEndsGrow(w, id, failing);
  }

  lemma SameCounters(w: World, w': World)
    requires w' == w.(imports := w'.imports, streams := w'.streams)
    ensures Grown(w, w')
  {
  }

  lemma StatementsGrow(w: World, conn: nat, tx: Option<nat>, id: nat, flag: bool, succeeds: bool, failing: set<Handle>)
    ensures Grown(w, AfterTxRollback(w, id, flag, failing).0) && Grown(w, AfterTxNamed(w, id, flag, succeeds).0)
    ensures Grown(w, AfterExecRun(w, conn, tx, succeeds).0)
  {
    hide Executor;
  }

  lemma ImportsGrow(w: World, conn: nat, formatKnown: bool, id: nat, bytes: Option<nat>)
    ensures Grown(w, AfterImportBegin(w, conn, formatKnown).0) && Grown(w, AfterImportChunk(w, id).0)
    ensures Grown(w, AfterExport(w, conn, id, bytes).0)
  {
  }

  lemma StreamsGrow(w: World, stream: nat, maxBytes: nat)
    ensures Grown(w, AfterStreamRead(w, stream, maxBytes).0)
  {
  }

  predicate Below(w: World, issued: Issued) {
    match issued
    case NewConn(id) => id < w.nextConn
    case NewCursor(id) => id < w.nextCursor
    case NewTx(id) => id < w.nextTx
    case NewImport(id) => id < w.nextImport
  }

  lemma IssuedOnce(w: World, request: Request, failing: set<Handle>)
    ensures var (w', r) := Step(w, request, failing);
      r.issued.Some? ==> Below(w', r.issued.value) && !Below(w, r.issued.value)
  {
  }

  lemma {:induction false} StaysBelow(calls: seq<Call>, i: nat, issued: Issued)
    requires i <= |calls| && Below(After(calls[..i]), issued)
    ensures Below(After(calls), issued)
    decreases |calls|
  {
    if i == |calls| {
      assert calls[..i] == calls;
    } else {
      var front := calls[..|calls| - 1];
      assert front[..i] == calls[..i];
      StaysBelow(front, i, issued);
      CountersGrow(After(front), calls[|calls| - 1].request, calls[|calls| - 1].failing);
    }
  }

  /** No id is ever issued twice, not even after its holder is gone. */
  lemma IdsNeverReused(calls: seq<Call>, i: nat, j: nat)
    requires i < j < |calls| && ResponseTo(calls, i).issued.Some? && ResponseTo(calls, j).issued.Some?
    ensures ResponseTo(calls, i).issued != ResponseTo(calls, j).issued
  {
    IssuedOnce(After(calls[..i]), calls[i].request, calls[i].failing);
    IssuedOnce(After(calls[..j]), calls[j].request, calls[j].failing);
    assert calls[..i + 1][..i] == calls[..i];
    assert calls[..j][..i + 1] == calls[..i + 1];
    StaysBelow(calls[..j], i + 1, ResponseTo(calls, i).issued.value);
  }

  /** The connection a request that runs SQL speaks for. */
  function SpeaksFor(w: World, request: Request): Option<nat> {
    match request
    case QueryStart(conn, _, _) => Some(conn)
    case ExecRun(conn, _, _) => Some(conn)
    case ExecBatch(conn, _, _, _, _) => Some(conn)
    case ImportChunk(id) => if id in w.imports then Some(w.imports[id]) else None
    case DataExport(conn, _, _) => Some(conn)
    case TxRollback(tx, toSavepoint) => if toSavepoint then TxConn(w, tx) else None
    case TxSavepoint(tx, _, _) => TxConn(w, tx)
    case TxRelease(tx, _, _) => TxConn(w, tx)
    case _ => None
  }

  function TxConn(w: World, tx: nat): Option<nat> {
    if tx in w.txs then Some(w.txs[tx].conn) else None
  }

  /**
   * SQL never runs on another connection's behalf: what it ran on - the connection or one of its transactions - was
   * opened for the connection the request speaks for.
   */
  lemma SqlStaysHome(calls: seq<Call>, i: nat)
    requires Legal(calls) && i < |calls| && ResponseTo(calls, i).ranOn.Some?
    ensures var w := After(calls[..i + 1]);
      var h := ResponseTo(calls, i).ranOn.value;
      && SpeaksFor(After(calls[..i]), calls[i].request).Some?
      && h in w.acquired && w.acquired[h] == ForConn(SpeaksFor(After(calls[..i]), calls[i].request).value)
  {
    PrefixLegal(calls, i);
    OwnedAlways(calls[..i]);
    PrefixLegal(calls, i + 1);
    assert calls[..i + 1][..i] == calls[..i];
    RunsAtHome(After(calls[..i]), calls[i].request, calls[i].failing);
    hide Owned, EntriesOwned, Step, SpeaksFor, Fresh;
  }

  /** What the SQL ran on, if any ran, was opened for the connection. */
  predicate AtHome(outcome: (World, Response), conn: Option<nat>) {
    outcome.1.ranOn.Some? ==>
      && conn.Some? && outcome.1.ranOn.value in outcome.0.acquired
      && outcome.0.acquired[outcome.1.ranOn.value] == ForConn(conn.value)
  }

  lemma RunsAtHome(w: World, request: Request, failing: set<Handle>)
    requires EntriesOwned(w) && Fresh(w, request)
    ensures AtHome(Step(w, request, failing), SpeaksFor(w, request))
  {
    if request.QueryStart? || request.ExecRun? || request.ExecBatch? || request.ImportChunk? || request.DataExport? {
      WorkRunsAtHome(w, request, failing);
    } else if request.TxBegin? || request.TxCommit? || request.TxRollback? || request.TxSavepoint?
      || request.TxRelease? {
      TxsRunAtHome(w, request, failing);
    } else {
      OthersRunNothing(w, request, failing);
    }
    hide *;
  }

  lemma WorkRunsAtHome(w: World, request: Request, failing: set<Handle>)
    requires EntriesOwned(w) && Fresh(w, request)
    requires request.QueryStart? || request.ExecRun? || request.ExecBatch? || request.ImportChunk?
      || request.DataExport?
    ensures AtHome(Step(w, request, failing), SpeaksFor(w, request))
  {
    hide AfterConnTest, AfterConnOpen, AfterConnClose, AfterQueryStart, AfterCursorFetch, AfterCursorClose,
         AfterCursorCancel, AfterExecBatch, AfterTxBegin, AfterTxEnd, AfterTxRollback, AfterShutdown, AfterExecRun,
         AfterImportBegin, AfterImportChunk, AfterExport, AfterStreamRead, AfterTxNamed, Owned, EntriesOwned, AtHome;
    match request
    case QueryStart(conn, tx, query) => QueryAtHome(w, conn, tx, query);
    case ExecRun(conn, tx, succeeds) => ExecAtHome(w, conn, tx, succeeds);
    case ExecBatch(conn, inTransaction, tx, stopOnError, outcomes) =>
      BatchAtHome(w, conn, inTransaction, tx, Failures(outcomes, stopOnError), failing);
    case ImportChunk(id) => ChunkAtHome(w, id);
    case DataExport(conn, stream, bytes) => ExportAtHome(w, conn, stream, bytes);
  }

  lemma TxsRunAtHome(w: World, request: Request, failing: set<Handle>)
    requires EntriesOwned(w)
    requires request.TxBegin? || request.TxCommit? || request.TxRollback? || request.TxSavepoint? || request.TxRelease?
    ensures AtHome(Step(w, request, failing), SpeaksFor(w, request))
  {
    hide AfterConnTest, AfterConnOpen, AfterConnClose, AfterQueryStart, AfterCursorFetch, AfterCursorClose,
         AfterCursorCancel, AfterExecBatch, AfterTxBegin, AfterTxEnd, AfterTxRollback, AfterShutdown, AfterExecRun,
         AfterImportBegin, AfterImportChunk, AfterExport, AfterStreamRead, AfterTxNamed, Owned, EntriesOwned, AtHome;
    match request
    case TxBegin(conn, tx) => TxsRunNothing(w, conn, tx, 0, false, failing);
    case TxCommit(id) => TxsRunNothing(w, 0, None, id, true, failing);
    case TxRollback(id, toSavepoint) => SavepointAtHome(w, id, toSavepoint, false, failing);
    case TxSavepoint(id, named, succeeds) => SavepointAtHome(w, id, named, succeeds, failing);
    case TxRelease(id, named, succeeds) => SavepointAtHome(w, id, named, succeeds, failing);
  }

  lemma OthersRunNothing(w: World, request: Request, failing: set<Handle>)
    requires !(request.QueryStart? || request.ExecRun? || request.ExecBatch? || request.ImportChunk?)
    requires !(request.DataExport? || request.TxBegin? || request.TxCommit? || request.TxRollback?)
    requires !(request.TxSavepoint? || request.TxRelease?)
    ensures AtHome(Step(w, request, failing), SpeaksFor(w, request))
  {
    hide AfterConnTest, AfterConnOpen, AfterConnClose, AfterQueryStart, AfterCursorFetch, AfterCursorClose,
         AfterCursorCancel, AfterExecBatch, AfterTxBegin, AfterTxEnd, AfterTxRollback, AfterShutdown, AfterExecRun,
         AfterImportBegin, AfterImportChunk, AfterExport, AfterStreamRead, AfterTxNamed, Owned, EntriesOwned, AtHome;
    match request
    case ConnTest(open) => ConnectionsRunNothing(w, open, 0, failing);
    case ConnOpen(open) => ConnectionsRunNothing(w, open, 0, failing);
    case ConnClose(conn) => ConnectionsRunNothing(w, OpenFailed, conn, failing);
    case Shutdown => ConnectionsRunNothing(w, OpenFailed, 0, failing);
    case CursorFetch(id, fetch) => CursorsRunNothing(w, id, fetch, failing);
    case CursorClose(id) => CursorsRunNothing(w, id, FetchFailed, failing);
    case CursorCancel(id) => CursorsRunNothing(w, id, FetchFailed, failing);
    case ImportBegin(conn, formatKnown) => TablesRunNothing(w, conn, formatKnown, 0, 0);
    case StreamRead(stream, maxBytes) => TablesRunNothing(w, 0, false, stream, maxBytes);
    case _ => QuietAtHome(Step(w, request, failing));
  }

  lemma QuietAtHome(outcome: (World, Response))
    requires outcome.1.ranOn.None?
    ensures AtHome(outcome, None)
  {
  }

  lemma QueryAtHome(w: World, conn: nat, tx: Option<nat>, query: QueryOutcome)
    requires EntriesOwned(w) && Fresh(w, QueryStart(conn, tx, query))
    ensures AtHome(AfterQueryStart(w, conn, tx, query), Some(conn))
  {
    ExecutorIsOwn(w, conn, tx);
    hide Executor, EntriesOwned;
  }

  lemma ExecAtHome(w: World, conn: nat, tx: Option<nat>, succeeds: bool)
    requires EntriesOwned(w)
    ensures AtHome(AfterExecRun(w, conn, tx, succeeds), Some(conn))
  {
    ExecutorIsOwn(w, conn, tx);
    hide Executor, EntriesOwned;
  }

  lemma BatchAtHome(w: World, conn: nat, inTransaction: bool, tx: Option<nat>, failed: seq<nat>, failing: set<Handle>)
    requires EntriesOwned(w)
    ensures AtHome(AfterExecBatch(w, conn, inTransaction, tx, failed, failing), Some(conn))
  {
    ExecutorIsOwn(w, conn, None);
    hide EntriesOwned;
  }

  lemma ChunkAtHome(w: World, id: nat)
    requires EntriesOwned(w)
    ensures AtHome(AfterImportChunk(w, id), if id in w.imports then Some(w.imports[id]) else None)
  {
    if id in w.imports {
      ExecutorIsOwn(w, w.imports[id], None);
    }
    hide EntriesOwned;
  }

  lemma ExportAtHome(w: World, conn: nat, stream: nat, bytes: Option<nat>)
    requires EntriesOwned(w)
    ensures AtHome(AfterExport(w, conn, stream, bytes), Some(conn))
  {
    ExecutorIsOwn(w, conn, None);
    hide EntriesOwned;
  }

  lemma SavepointAtHome(w: World, id: nat, flag: bool, succeeds: bool, failing: set<Handle>)
    requires EntriesOwned(w)
    ensures AtHome(AfterTxNamed(w, id, flag, succeeds), TxConn(w, id))
    ensures AtHome(AfterTxRollback(w, id, flag, failing), if flag then TxConn(w, id) else None)
  {
  }

  lemma ConnectionsRunNothing(w: World, open: OpenOutcome, conn: nat, failing: set<Handle>)
    ensures AtHome(AfterConnOpen(w, open), None) && AtHome(AfterConnTest(w, open, failing), None)
    ensures AtHome(AfterConnClose(w, conn, failing), None) && AtHome(AfterShutdown(w, failing), None)
  {
  }

  lemma CursorsRunNothing(w: World, id: nat, fetch: FetchOutcome, failing: set<Handle>)
    ensures AtHome(AfterCursorFetch(w, id, fetch, failing), None)
    ensures AtHome(AfterCursorClose(w, id, failing), None) && AtHome(AfterCursorCancel(w, id, failing), None)
  {
  }

  lemma TxsRunNothing(w: World, conn: nat, tx: Option<nat>, id: nat, commit: bool, failing: set<Handle>)
    ensures AtHome(AfterTxBegin(w, conn, tx), None) && AtHome(AfterTxEnd(w, id, commit, failing), None)
  {
  }

  lemma TablesRunNothing(w: World, conn: nat, formatKnown: bool, stream: nat, maxBytes: nat)
    ensures AtHome(AfterImportBegin(w, conn, formatKnown), None) && AtHome(AfterStreamRead(w, stream, maxBytes), None)
  {
  }

  lemma ExecutorIsOwn(w: World, conn: nat, tx: Option<nat>)
    requires EntriesOwned(w)
    ensures Executor(w, conn, tx).Some? ==>
              var h := Executor(w, conn, tx).value; h in w.acquired && w.acquired[h] == ForConn(conn)
    ensures conn in w.conns ==> w.conns[conn] in w.acquired && w.acquired[w.conns[conn]] == ForConn(conn)
  {
  }

  // ---------- closing ----------

  /**
   * Closing a connection removes it with all its entries and leaves every other entry as it was, and it reports
   * success exactly when no close failed - but a failure keeps nothing in the tables.
   */
  lemma CloseIsComplete(calls: seq<Call>, conn: nat, failing: set<Handle>)
    requires Legal(calls) && conn in After(calls).conns
    ensures var w := After(calls);
      var (w', r) := Step(w, ConnClose(conn), failing);
      && conn !in w'.conns && w'.streams == w.streams
      && (forall c :: c in w'.cursors <==> c in w.cursors && w.cursors[c].conn != conn)
      && (forall t :: t in w'.txs <==> t in w.txs && w.txs[t].conn != conn)
      && (forall i :: i in w'.imports <==> i in w.imports && w.imports[i] != conn)
      && (forall c :: c in w'.cursors ==> w'.cursors[c] == w.cursors[c])
      && (forall h :: h in w.acquired && w.acquired[h] == ForConn(conn) ==> h in w'.attempted)
      && (forall h :: h in w'.attempted - w.attempted ==> h in w.acquired && w.acquired[h] == ForConn(conn))
      && (r.ok <==> forall h :: h in failing ==>
        h !in RowsOf(w.cursors, conn) + TxHandlesOf(w.txs, conn) + {w.conns[conn]})
  {
    OwnedAlways(calls);
    CloseOf(After(calls), conn, failing);
    hide *;
  }

  lemma CloseOf(w: World, conn: nat, failing: set<Handle>)
    requires Owned(w) && conn in w.conns
    ensures var (w', r) := Step(w, ConnClose(conn), failing);
      && conn !in w'.conns && w'.streams == w.streams
      && (forall c :: c in w'.cursors <==> c in w.cursors && w.cursors[c].conn != conn)
      && (forall t :: t in w'.txs <==> t in w.txs && w.txs[t].conn != conn)
      && (forall i :: i in w'.imports <==> i in w.imports && w.imports[i] != conn)
      && (forall c :: c in w'.cursors ==> w'.cursors[c] == w.cursors[c])
      && (forall h :: h in w.acquired && w.acquired[h] == ForConn(conn) ==> h in w'.attempted)
      && (forall h :: h in w'.attempted - w.attempted ==> h in w.acquired && w.acquired[h] == ForConn(conn))
      && (r.ok <==> forall h :: h in failing ==>
        h !in RowsOf(w.cursors, conn) + TxHandlesOf(w.txs, conn) + {w.conns[conn]})
  {
    var handles := RowsOf(w.cursors, conn) + TxHandlesOf(w.txs, conn) + {w.conns[conn]};
    HandlesAreOwn(w, conn);
    DisjointWhen(failing, handles);
    assert handles * failing == failing * handles;
    forall h | h in w.acquired && w.acquired[h] == ForConn(conn) ensures h in w.attempted + handles {
      AllAreClosed(w, conn, h);
    }
    hide Owned, EntriesOwned, RowsOf, TxHandlesOf;
  }

  lemma AllAreClosed(w: World, conn: nat, h: Handle)
    requires Owned(w) && conn in w.conns && h in w.acquired && w.acquired[h] == ForConn(conn)
    ensures h in w.attempted + (RowsOf(w.cursors, conn) + TxHandlesOf(w.txs, conn) + {w.conns[conn]})
  {
    if h !in w.attempted {
      assert Held(w, h);
      if c :| c in w.conns && w.conns[c] == h {
        assert c == conn;
      } else if c :| c in w.cursors && w.cursors[c].rows == Some(h) {
        assert w.cursors[c].conn == conn;
      } else {
        var t :| t in w.txs && w.txs[t].handle == h;
        assert w.txs[t].conn == conn;
      }
    }
  }

  /** Shutdown empties every table and closes every handle ever opened, whether or not the closes succeed. */
  lemma ShutdownEmptiesAll(calls: seq<Call>, failing: set<Handle>)
    requires Legal(calls)
    ensures var w := After(calls);
      var (w', r) := Step(w, Shutdown, failing);
      && w'.conns == map[] && w'.cursors == map[] && w'.txs == map[] && w'.imports == map[] && w'.streams == map[]
      && w'.attempted == w'.acquired.Keys
      && (r.ok <==> forall h :: Held(w, h) ==> h !in failing)
  {
    OwnedAlways(calls);
    ShutdownOf(After(calls), failing);
    hide *;
  }

  lemma ShutdownOf(w: World, failing: set<Handle>)
    requires Owned(w)
    ensures var (w', r) := Step(w, Shutdown, failing);
      && w'.conns == map[] && w'.cursors == map[] && w'.txs == map[] && w'.imports == map[] && w'.streams == map[]
      && w'.attempted == w'.acquired.Keys
      && (r.ok <==> forall h :: Held(w, h) ==> h !in failing)
  {
    ShutdownKeepsOwned(w, failing);
    hide Owned, Held, AllRows, AllTxHandles, AllDbs;
    DisjointWhen(AllRows(w.cursors) + AllTxHandles(w.txs) + AllDbs(w.conns), failing);
  }

  lemma DisjointWhen(a: set<Handle>, b: set<Handle>)
    ensures a * b == {} <==> forall h :: h in a ==> h !in b
  {
    if a * b == {} {
      forall h | h in a ensures h !in b {
        assert h in b ==> h in a * b;
      }
    }
  }
}
