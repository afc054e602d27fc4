/**
 * Paged results: the cursors of the generic database/sql server, of IoTDB, DuckDB and openGauss. They count, stop and
 * clamp differently; all four deliver the same rows.
 */
module Cursors {
  import opened Wrappers

  datatype Driver = GoSql | Iotdb | DuckDb | OpenGauss

  /** How many rows were delivered, and whether the cursor said it is done. */
  datatype Position = Position(next: nat, done: bool)

  const GO_DEFAULT := 500
  const RUST_DEFAULT := 1000
  const RUST_MAXIMUM := 10000

  /** What a request for n rows is taken to mean. DuckDB takes a request for no rows at its word. */
  function Limit(driver: Driver, fetchSize: Option<nat>, n: Option<nat>): nat {
    match driver
    case GoSql | Iotdb => if n == None || n == Some(0) then GO_DEFAULT else n.value
    case OpenGauss => if n == Some(0) then 1 else Min(if n.None? then RUST_DEFAULT else n.value, RUST_MAXIMUM)
    case DuckDb =>
      var wanted := if n.Some? then n.value else if fetchSize.Some? && fetchSize.value > 0 then fetchSize.value
                    else RUST_DEFAULT;
      Min(wanted, RUST_MAXIMUM)
  }

  predicate MaxReached(max: Option<nat>, next: nat) {
    max.Some? && next >= max.value
  }

  /** The rows a client is to see: all of them, or the first max. */
  function Wanted<T>(rows: seq<T>, max: Option<nat>): (r: seq<T>)
    ensures r <= rows
  {
    if max.Some? && max.value < |rows| then rows[..max.value] else rows
  }

  function Start(driver: Driver, max: Option<nat>): Position {
    Position(0, (driver.DuckDb? || driver.OpenGauss?) && max == Some(0))
  }

  // ---------- one fetch ----------

  /** Where each driver stops, and whether it notices that nothing is left. */
  function FetchTo<T>(driver: Driver, rows: seq<T>, max: Option<nat>, p: Position, limit: nat): Position {
    var room := if max.Some? && p.next + limit > max.value then (if p.next < max.value then max.value - p.next else 0)
                else limit;
    var end := if p.next > |rows| then p.next else Min(p.next + room, |rows|);
    match driver
    case GoSql => Position(end, end - p.next < limit || MaxReached(max, end))
    case Iotdb => Position(end, end - p.next < limit)
    case DuckDb => if room == 0 then p else Position(end, end - p.next < room || MaxReached(max, end))
    case OpenGauss => Position(end, end >= |rows| || MaxReached(max, end))
  }

  function Fetch<T>(driver: Driver, rows: seq<T>, max: Option<nat>, p: Position, limit: nat): (r: (seq<T>, Position))
    requires p.next <= |rows|
    ensures p.next <= r.1.next <= |rows| && r.0 == rows[p.next..r.1.next]
  {
    if p.done then ([], p)
    else
      var to := FetchTo(driver, rows, max, p, limit);
      (rows[p.next..to.next], to)
  }

  // ---------- the code ----------

  /** *sql.Rows and an IoTDB data set: a result read row by row. */
  class RowSource<T> {
    const all: seq<T>
    var read: nat

    constructor (all: seq<T>)
      ensures this.all == all && read == 0
    {
      this.all := all;
      read := 0;
    }

    method Next() returns (more: bool)
      modifies this
      ensures more == (old(read) < |all|)
      ensures read == old(read) + if more then 1 else 0
    {
      more := read < |all|;
      if more {
        read := read + 1;
      }
    }

    /** The row that Next moved to. */
    function Current(): T
      requires 0 < read <= |all|
      reads this
    {
      all[read - 1]
    }
  }

  class GoCursor<T> {
    const source: RowSource<T>
    const max: Option<nat>
    var fetched: nat
    var done: bool

    ghost predicate Valid()
      reads this, source
    {
      fetched == source.read <= |source.all|
    }

    constructor (source: RowSource<T>, max: Option<nat>)
      requires source.read == 0
      ensures Valid() && Position(fetched, done) == Start(GoSql, max)
      ensures this.source == source && this.max == max
    {
      this.source, this.max := source, max;
      fetched, done := 0, false;
    }

    method FetchRows(n: nat) returns (out: seq<T>, isLast: bool)
      requires Valid() && n > 0
      modifies source, this`fetched
      ensures Valid()
      ensures Position(fetched, isLast) == FetchTo(GoSql, source.all, max, Position(old(fetched), false), n)
      ensures out == source.all[old(fetched)..fetched]
    {
      out := [];
      while |out| < n
        invariant Valid() && old(fetched) <= fetched && |out| <= n
        invariant out == source.all[old(fetched)..fetched]
        invariant max.Some? && fetched > max.value ==> fetched == old(fetched)
      {
        if max.Some? && fetched >= max.value {
          break;
        }
        var more := source.Next();
        if !more {
          return out, true;
        }
        out := out + [source.Current()];
        fetched := fetched + 1;
      }
      isLast := max.Some? && fetched >= max.value;
    }

    method HandleCursorFetch(n: Option<nat>) returns (out: seq<T>, isDone: bool)
      requires Valid()
      modifies source, this
      ensures Valid() && isDone == done
      ensures (out, Position(fetched, done)) ==
        Fetch(GoSql, source.all, max, Position(old(fetched), old(done)), Limit(GoSql, None, n))
    {
      var size := 500;
      if n.Some? && n.value > 0 {
        size := n.value;
      }
      if done {
        return [], true;
      }
      out, isDone := FetchRows(size);
      if isDone {
        done := true;
      }
    }
  }

  class IotdbCursor<T> {
    const dataSet: RowSource<T>
    const max: Option<nat>
    var fetched: nat
    var done: bool

    ghost predicate Valid()
      reads this, dataSet
    {
      fetched == dataSet.read <= |dataSet.all|
    }

    constructor (dataSet: RowSource<T>, max: Option<nat>)
      requires dataSet.read == 0
      ensures Valid() && Position(fetched, done) == Start(Iotdb, max)
      ensures this.dataSet == dataSet && this.max == max
    {
      this.dataSet, this.max := dataSet, max;
      fetched, done := 0, false;
    }

    method HandleCursorFetch(n: Option<nat>) returns (rows: seq<T>, isDone: bool)
      requires Valid()
      modifies dataSet, this
      ensures Valid() && isDone == done
      ensures (rows, Position(fetched, done)) ==
        Fetch(Iotdb, dataSet.all, max, Position(old(fetched), old(done)), Limit(Iotdb, None, n))
    {
      if done {
        return [], true;
      }
      var size := 500;
      if n.Some? && n.value > 0 {
        size := n.value;
      }
      rows := [];
      while |rows| < size
        invariant Valid() && old(fetched) <= fetched && |rows| <= size && !done
        invariant rows == dataSet.all[old(fetched)..fetched]
        invariant max.Some? && fetched > max.value ==> fetched == old(fetched)
      {
        if max.Some? && fetched >= max.value {
          done := true;
          break;
        }
        var next := dataSet.Next();
        if !next {
          done := true;
          break;
        }
        rows := rows + [dataSet.Current()];
        fetched := fetched + 1;
      }
      isDone := done;
    }
  }

  /** Rows limited and offset by the database: SELECT .. LIMIT limit OFFSET offset. */
  function PageQuery<T>(rows: seq<T>, limit: nat, offset: nat): seq<T> {
    if offset >= |rows| then [] else rows[offset..Min(offset + limit, |rows|)]
  }

  class DuckDbCursor<T> {
    const result: seq<T>
    const fetchSize: Option<nat>
    const max: Option<nat>
    var nextRow: nat
    var done: bool

    constructor (result: seq<T>, fetchSize: Option<nat>, max: Option<nat>)
      ensures Position(nextRow, done) == Start(DuckDb, max)
      ensures this.result == result && this.fetchSize == fetchSize && this.max == max
    {
      this.result, this.fetchSize, this.max := result, fetchSize, max;
      nextRow, done := 0, max == Some(0);
    }

    function RemainingMaxRows(): Option<nat>
      reads this
    {
      if max.None? then None else Some(if max.value > nextRow then max.value - nextRow else 0)
    }

    function FetchLimit(requested: Option<nat>): nat
      reads this
    {
      if RemainingMaxRows() == Some(0) then 0
      else
        var limit := Limit(DuckDb, fetchSize, requested);
        if RemainingMaxRows().Some? then Min(limit, RemainingMaxRows().value) else limit
    }

    method Advance(fetched: nat, requested: nat)
      modifies this
      ensures nextRow == old(nextRow) + fetched
      ensures done == (old(done) || fetched < requested || MaxReached(max, nextRow))
    {
      nextRow := nextRow + fetched;
      if fetched < requested {
        done := true;
      }
      if RemainingMaxRows() == Some(0) {
        done := true;
      }
    }

    method FetchPage(requested: Option<nat>) returns (rows: seq<T>, isDone: bool)
      requires nextRow <= |result|
      modifies this
      ensures nextRow <= |result| && isDone == done
      ensures (rows, Position(nextRow, done)) ==
        Fetch(DuckDb, result, max, Position(old(nextRow), old(done)), Limit(DuckDb, fetchSize, requested))
    {
      if done {
        return [], true;
      }
      var limit := FetchLimit(requested);
      if limit == 0 {
        return [], done;
      }
      rows := PageQuery(result, limit, nextRow);
      Advance(|rows|, limit);
      isDone := done;
    }
  }

  class OpenGaussCursor<T> {
    const rows: seq<T>
    const max: Option<nat>
    var nextRow: nat
    var done: bool

    constructor (rows: seq<T>, max: Option<nat>)
      ensures Position(nextRow, done) == Start(OpenGauss, max)
      ensures this.rows == rows && this.max == max
    {
      this.rows, this.max := rows, max;
      nextRow, done := 0, max == Some(0);
    }

    method FetchPage(n: Option<nat>) returns (page: seq<T>, isDone: bool)
      requires nextRow <= |rows|
      modifies this
      ensures nextRow <= |rows| && isDone == done
      ensures (page, Position(nextRow, done)) ==
        Fetch(OpenGauss, rows, max, Position(old(nextRow), old(done)), Limit(OpenGauss, None, n))
    {
      if done {
        return [], true;
      }
      var wanted := if n.None? then RUST_DEFAULT else n.value;
      var requested := if wanted < 1 then 1 else if wanted > RUST_MAXIMUM then RUST_MAXIMUM else wanted;
      var take := requested;
      if max.Some? {
        var remaining := if max.value > nextRow then max.value - nextRow else 0;
        take := Min(requested, remaining);
      }
      var end := Min(nextRow + take, |rows|);
      page := rows[nextRow..end];
      nextRow := end;
      if nextRow >= |rows| || (max.Some? && nextRow >= max.value) {
        done := true;
      }
      isDone := done;
    }
  }

  // ---------- any sequence of fetches ----------

  /** The cursor after fetching with each of the limits in turn, and the pages it returned, joined. */
  function FetchAll<T>(driver: Driver, rows: seq<T>, max: Option<nat>, limits: seq<nat>): (r: (seq<T>, Position))
    ensures r.1.next <= |rows|
    decreases |limits|
  {
    if limits == [] then ([], Start(driver, max))
    else
      var (before, p) := FetchAll(driver, rows, max, limits[..|limits| - 1]);
      var (page, p') := Fetch(driver, rows, max, p, limits[|limits| - 1]);
      (before + page, p')
  }

  /**
   * What every driver keeps: never past the wanted rows, and done only when all of them were delivered. DuckDB, which
   * would otherwise ask for no rows ever after, also knows at once that the maximum is reached.
   */
  ghost predicate Sound<T>(driver: Driver, rows: seq<T>, max: Option<nat>, p: Position) {
    && p.next <= |Wanted(rows, max)|
    && (p.done ==> p.next == |Wanted(rows, max)|)
    && (driver.DuckDb? && MaxReached(max, p.next) ==> p.done)
  }

  /** One fetch delivers the next rows in order; a driver that is not done then has used up its whole limit. */
  lemma FetchRefines<T>(driver: Driver, rows: seq<T>, max: Option<nat>, p: Position, limit: nat)
    requires Sound(driver, rows, max, p)
    ensures var (page, p') := Fetch(driver, rows, max, p, limit);
      && Sound(driver, rows, max, p')
      && page == Wanted(rows, max)[p.next..p'.next]
      && (p.done ==> p' == p)
      && (!p'.done ==> p'.next == p.next + limit)
  {
  }

  /** Whatever the page sizes, the pages of all four drivers join to the first rows of the result, in order. */
  lemma {:induction false} PagesArePrefix<T>(driver: Driver, rows: seq<T>, max: Option<nat>, limits: seq<nat>)
    ensures var (pages, p) := FetchAll(driver, rows, max, limits);
      && Sound(driver, rows, max, p)
      && pages == Wanted(rows, max)[..p.next]
      && (p.done ==> pages == Wanted(rows, max))
    decreases |limits|
  {
    if limits != [] {
      var (before, p) := FetchAll(driver, rows, max, limits[..|limits| - 1]);
      PagesArePrefix(driver, rows, max, limits[..|limits| - 1]);
      FetchRefines(driver, rows, max, p, limits[|limits| - 1]);
    }
  }

  function Sum(limits: seq<nat>): nat {
    if limits == [] then 0 else Sum(limits[..|limits| - 1]) + limits[|limits| - 1]
  }

  /** A cursor that is still not done has delivered every row it was asked for. */
  lemma {:induction false} NotDoneMeansFull<T>(driver: Driver, rows: seq<T>, max: Option<nat>, limits: seq<nat>)
    ensures var (pages, p) := FetchAll(driver, rows, max, limits);
      !p.done ==> p.next == Sum(limits) <= |Wanted(rows, max)|
    decreases |limits|
  {
    if limits != [] {
      var (before, p) := FetchAll(driver, rows, max, limits[..|limits| - 1]);
      NotDoneMeansFull(driver, rows, max, limits[..|limits| - 1]);
      PagesArePrefix(driver, rows, max, limits[..|limits| - 1]);
      FetchRefines(driver, rows, max, p, limits[|limits| - 1]);
    }
  }

  lemma {:induction false} SumCounts(limits: seq<nat>)
    requires forall i :: 0 <= i < |limits| ==> limits[i] > 0
    ensures Sum(limits) >= |limits|
    decreases |limits|
  {
    if limits != [] {
      SumCounts(limits[..|limits| - 1]);
    }
  }

  /** One fetch of at least one row more than there are rows is enough: the cursor is done and everything was seen. */
  lemma FetchesReachDone<T>(driver: Driver, rows: seq<T>, max: Option<nat>, limits: seq<nat>)
    requires |limits| > |Wanted(rows, max)| && forall i :: 0 <= i < |limits| ==> limits[i] > 0
    ensures FetchAll(driver, rows, max, limits).1.done
    ensures FetchAll(driver, rows, max, limits).0 == Wanted(rows, max)
  {
    NotDoneMeansFull(driver, rows, max, limits);
    SumCounts(limits);
    PagesArePrefix(driver, rows, max, limits);
  }

  /** Every request makes progress except DuckDB's request for no rows, which can be repeated forever. */
  lemma StallsIff<T>(driver: Driver, rows: seq<T>, max: Option<nat>, p: Position, fetchSize: Option<nat>,
    n: Option<nat>)
    requires Sound(driver, rows, max, p) && !p.done
    ensures Fetch(driver, rows, max, p, Limit(driver, fetchSize, n)) == ([], p) <==> driver.DuckDb? && n == Some(0)
  {
    FetchRefines(driver, rows, max, p, Limit(driver, fetchSize, n));
  }

  /** How many rows a request asks each driver for. */
  predicate Asks(driver: Driver, fetchSize: Option<nat>, n: Option<nat>, asked: nat) {
    match n
    case Some(k) =>
      if k == 0 then asked == match driver { case GoSql | Iotdb => 500 case DuckDb => 0 case OpenGauss => 1 }
      else if k > 10000 && (driver.DuckDb? || driver.OpenGauss?) then asked == 10000
      else asked == k
    case None =>
      match driver
      case GoSql | Iotdb => asked == 500
      case OpenGauss => asked == 1000
      case DuckDb =>
        if fetchSize.None? || fetchSize.value == 0 then asked == 1000
        else if fetchSize.value > 10000 then asked == 10000
        else asked == fetchSize.value
  }

  /**
   * A page holds exactly the rows asked for, or all that are left. openGauss is done with the last row, IoTDB with a
   * short page, the others with a short page or the maximum; a DuckDB request for no rows changes nothing.
   */
  lemma PageIsAsAsked<T>(driver: Driver, rows: seq<T>, max: Option<nat>, p: Position, fetchSize: Option<nat>,
    n: Option<nat>, asked: nat)
    requires Sound(driver, rows, max, p) && !p.done && Asks(driver, fetchSize, n, asked)
    ensures var (page, p') := Fetch(driver, rows, max, p, Limit(driver, fetchSize, n));
      var left := |Wanted(rows, max)| - p.next;
      && |page| == Min(asked, left)
      && (driver.OpenGauss? ==> (p'.done <==> p'.next == |Wanted(rows, max)|))
      && (driver.Iotdb? ==> (p'.done <==> |page| < asked))
      && ((driver.GoSql? || driver.DuckDb?) ==>
            (p'.done <==> |page| < asked || (asked > 0 && MaxReached(max, p'.next))))
  {
  }
}
