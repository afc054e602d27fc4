/**
 * A DuckDB CSV export read in chunks: pages of rows are rendered into a pending buffer, and each read drains at most
 * as many characters as the caller asked for.
 */
module ExportStream {
  import opened Wrappers
  import opened Text
  import opened Csv

  const EXPORT_FETCH_ROWS := 1_000
  const DEFAULT_STREAM_READ := 64 * 1024
  const MAX_STREAM_READ := 1024 * 1024

  /** What is exported: the rows the query yields, the column names, the options and the row limit. */
  datatype Export = Export(columns: seq<string>, rows: seq<seq<Cell>>, options: CsvOptions, maxRows: Option<nat>)

  datatype StreamState = StreamState(nextRow: nat, done: bool, pending: string, headerWritten: bool)

  function Opened(e: Export): StreamState {
    StreamState(0, e.maxRows == Some(0), "", false)
  }

  function RemainingMaxRows(e: Export, nextRow: nat): Option<nat> {
    match e.maxRows
    case None => None
    case Some(limit) => Some(if nextRow < limit then limit - nextRow else 0)
  }

  function FetchLimit(e: Export, nextRow: nat): nat {
    match RemainingMaxRows(e, nextRow)
    case None => EXPORT_FETCH_ROWS
    case Some(remaining) => Min(EXPORT_FETCH_ROWS, remaining)
  }

  /** LIMIT and OFFSET on a fixed result. */
  function Page(e: Export, limit: nat, offset: nat): seq<seq<Cell>> {
    if offset >= |e.rows| then [] else e.rows[offset..Min(offset + limit, |e.rows|)]
  }

  function ReadLimit(maxBytes: Option<nat>): (n: nat)
    ensures n >= 1
  {
    Min(match maxBytes { case None => DEFAULT_STREAM_READ case Some(n) => if n < 1 then 1 else n }, MAX_STREAM_READ)
  }

  function Filled(e: Export, st: StreamState): StreamState {
    var limit := FetchLimit(e, st.nextRow);
    var page := Page(e, limit, st.nextRow);
    var next := st.nextRow + |page|;
    st.(pending := st.pending + (HeaderLeft(e, st) + RowsText(page, e.options)),
        headerWritten := st.headerWritten || e.options.header,
        nextRow := next,
        done := st.done || |page| < limit || RemainingMaxRows(e, next) == Some(0))
  }

  predicate MustFill(st: StreamState) {
    st.pending == "" && !st.done
  }

  datatype ReadResult = Chunk(data: string, done: bool) | QueryFailed

  /** One `stream/read`. The page query may fail when it is needed; then nothing changes. */
  function Read(e: Export, st: StreamState, maxBytes: Option<nat>, queryWorks: bool): (StreamState, ReadResult) {
    if MustFill(st) && !queryWorks then (st, QueryFailed)
    else
      var ready := if MustFill(st) then Filled(e, st) else st;
      var take := Min(ReadLimit(maxBytes), |ready.pending|);
      var left := ready.(pending := ready.pending[take..]);
      (left, Chunk(ready.pending[..take], left.done && left.pending == ""))
  }

  method RenderRows(rows: seq<seq<Cell>>, o: CsvOptions) returns (out: string)
    ensures out == RowsText(rows, o)
  {
    out := "";
    var i := 0;
    while i < |rows|
      invariant 0 <= i <= |rows|
      invariant out == RowsText(rows[..i], o)
    {
      assert rows[..i + 1][..i] == rows[..i];
      out := out + RecordText(RowFields(rows[i], o), o);
      i := i + 1;
    }
    assert rows[..i] == rows;
  }

  class Stream {
    const source: Export
    var nextRow: nat
    var done: bool
    var pending: string
    var headerWritten: bool

    function Snapshot(): StreamState
      reads this
    {
      StreamState(nextRow, done, pending, headerWritten)
    }

    constructor (source: Export)
      ensures this.source == source && Snapshot() == Opened(source)
    {
      this.source := source;
      nextRow, done, pending, headerWritten := 0, source.maxRows == Some(0), "", false;
    }

    method Fill()
      modifies this
      ensures Snapshot() == Filled(source, old(Snapshot()))
    {
      var limit := FetchLimit(source, nextRow);
      var page := Page(source, limit, nextRow);
      var bytes := "";
      if source.options.header && !headerWritten {
        bytes := HeaderText(source.columns, source.options);
        headerWritten := true;
      }
      var body := RenderRows(page, source.options);
      pending := pending + (bytes + body);
      nextRow := nextRow + |page|;
      if |page| < limit {
        done := true;
      }
      if RemainingMaxRows(source, nextRow) == Some(0) {
        done := true;
      }
    }

    method ReadChunk(maxBytes: Option<nat>, queryWorks: bool) returns (r: ReadResult)
      modifies this
      ensures (Snapshot(), r) == Read(source, old(Snapshot()), maxBytes, queryWorks)
    {
      if pending == "" && !done {
        if !queryWorks {
          return QueryFailed;
        }
        Fill();
      }
      var take := Min(ReadLimit(maxBytes), |pending|);
      var data := pending[..take];
      pending := pending[take..];
      return Chunk(data, done && pending == "");
    }
  }

  // ---------- what an export is worth ----------

  function RowTarget(e: Export): nat {
    match e.maxRows
    case None => |e.rows|
    case Some(limit) => Min(limit, |e.rows|)
  }

  /** One whole rendering: the header once, then the first rows up to the limit; nothing at all for a limit of zero. */
  function Whole(e: Export): string {
    if e.maxRows == Some(0) then ""
    else HeaderText(e.columns, e.options) + RowsText(e.rows[..RowTarget(e)], e.options)
  }

  /** The text a stream still has to give. */
  function Remaining(e: Export, st: StreamState): string {
    st.pending + if st.done then "" else Unrendered(e, st)
  }

  function HeaderLeft(e: Export, st: StreamState): string {
    if st.headerWritten then "" else HeaderText(e.columns, e.options)
  }

  function Unrendered(e: Export, st: StreamState): string {
    HeaderLeft(e, st) + if st.nextRow > RowTarget(e) then "" else RowsText(e.rows[st.nextRow..RowTarget(e)], e.options)
  }

  predicate Sound(e: Export, st: StreamState) {
    && st.nextRow <= RowTarget(e)
    && (st.done ==> st.nextRow == RowTarget(e))
    && (st.headerWritten ==> e.options.header)
    && (!st.done ==> RemainingMaxRows(e, st.nextRow) != Some(0))
  }

  lemma {:induction false} RowsTextAppend(a: seq<seq<Cell>>, b: seq<seq<Cell>>, o: CsvOptions)
    ensures RowsText(a + b, o) == RowsText(a, o) + RowsText(b, o)
    decreases |b|
  {
    hide RecordText, RowFields;
    if b == [] {
      assert a + b == a;
    } else {
      RowsTextAppend(a, b[..|b| - 1], o);
      assert (a + b)[..|a + b| - 1] == a + b[..|b| - 1];
    }
  }

  lemma RowsTextNonEmpty(rows: seq<seq<Cell>>, o: CsvOptions)
    requires rows != []
    ensures RowsText(rows, o) != ""
  {
    assert RecordText(RowFields(rows[|rows| - 1], o), o) != "";
  }

  lemma PageFacts(e: Export, st: StreamState)
    requires Sound(e, st) && MustFill(st)
    ensures var page := Page(e, FetchLimit(e, st.nextRow), st.nextRow);
            var next := st.nextRow + |page|;
            && next <= RowTarget(e) && page == e.rows[st.nextRow..next]
            && e.rows[st.nextRow..RowTarget(e)] == page + e.rows[next..RowTarget(e)]
            && (Filled(e, st).done ==> next == RowTarget(e))
            && (!Filled(e, st).done ==> page != [])
  {
  }

  /**
   * A fill moves text from what remains to be rendered into the buffer, and leaves something there unless it ends the
   * stream.
   */
  lemma FillConserves(e: Export, st: StreamState)
    requires Sound(e, st) && MustFill(st)
    ensures Sound(e, Filled(e, st)) && Remaining(e, Filled(e, st)) == Remaining(e, st)
    ensures Filled(e, st).pending == "" ==> Filled(e, st).done
  {
    FillIsSound(e, st);
    FillTexts(e, st);
    HeaderIsWritten(e, st);
    hide RowsText, HeaderText, RowTarget, FetchLimit, Page, RemainingMaxRows, Sound, HeaderLeft, Filled;
    var page, st' := Page(e, FetchLimit(e, st.nextRow), st.nextRow), Filled(e, st);
    var later := RowsText(e.rows[st'.nextRow..RowTarget(e)], e.options);
    FillText(HeaderLeft(e, st), RowsText(page, e.options), later);
    FilledPending(e, st);
  }

  lemma FilledPending(e: Export, st: StreamState)
    ensures Filled(e, st).pending ==
      st.pending + (HeaderLeft(e, st) + RowsText(Page(e, FetchLimit(e, st.nextRow), st.nextRow), e.options))
  {
    hide RowsText, HeaderLeft, Page, FetchLimit;
  }

  /** The texts of the page and of what is left after it. */
  lemma FillTexts(e: Export, st: StreamState)
    requires Sound(e, st) && MustFill(st)
    ensures st.nextRow <= Filled(e, st).nextRow <= RowTarget(e) <= |e.rows|
    ensures var page := Page(e, FetchLimit(e, st.nextRow), st.nextRow);
            var later := e.rows[Filled(e, st).nextRow..RowTarget(e)];
            && RowsText(e.rows[st.nextRow..RowTarget(e)], e.options)
              == RowsText(page, e.options) + RowsText(later, e.options)
            && (Filled(e, st).done ==> RowsText(later, e.options) == "")
            && (!Filled(e, st).done ==> RowsText(page, e.options) != "")
  {
    PageFacts(e, st);
    FillIsSound(e, st);
    hide RowsText, HeaderText, RowTarget, FetchLimit, Page, RemainingMaxRows, Sound, HeaderLeft;
    var page := Page(e, FetchLimit(e, st.nextRow), st.nextRow);
    var later := e.rows[Filled(e, st).nextRow..RowTarget(e)];
    RowsTextAppend(page, later, e.options);
    if Filled(e, st).done {
      NothingLater(e, later);
    } else {
      RowsTextNonEmpty(page, e.options);
    }
  }

  lemma FillIsSound(e: Export, st: StreamState)
    requires Sound(e, st) && MustFill(st)
    ensures Sound(e, Filled(e, st)) && Filled(e, st).nextRow <= RowTarget(e) <= |e.rows| && st.nextRow <= RowTarget(e)
  {
    hide RowsText, HeaderText, HeaderLeft;
  }

  lemma NothingLater(e: Export, later: seq<seq<Cell>>)
    requires later == []
    ensures RowsText(later, e.options) == ""
  {
  }

  lemma HeaderIsWritten(e: Export, st: StreamState)
    ensures HeaderLeft(e, Filled(e, st)) == ""
  {
    hide RowsText, Page, FetchLimit, RemainingMaxRows;
  }

  lemma FillText(header: string, page: string, later: string)
    ensures "" + (header + (page + later)) == ("" + (header + page)) + ("" + later)
    ensures "" + (header + (page + "")) == ("" + (header + page)) + ""
  {
  }

  /**
   * Conservation: whatever a read returns is taken off the front of what remains, and a read that is not done returns
   * something.
   */
  lemma ReadConserves(e: Export, st: StreamState, maxBytes: Option<nat>, queryWorks: bool)
    requires Sound(e, st)
    ensures var (st', r) := Read(e, st, maxBytes, queryWorks);
            Sound(e, st')
            && match r {
                 case QueryFailed => st' == st
                 case Chunk(data, done) =>
                   && Remaining(e, st) == data + Remaining(e, st')
                   && (done ==> Remaining(e, st') == "")
                   && (!done ==> data != "")
                   && |data| <= ReadLimit(maxBytes)
               }
  {
    if MustFill(st) && queryWorks {
      FillConserves(e, st);
      DrainConserves(e, Filled(e, st), ReadLimit(maxBytes));
    } else if !MustFill(st) {
      DrainConserves(e, st, ReadLimit(maxBytes));
    }
  }

  lemma DrainConserves(e: Export, st: StreamState, limit: nat)
    requires Sound(e, st) && limit >= 1
    ensures var take := Min(limit, |st.pending|);
            var left := st.(pending := st.pending[take..]);
            Sound(e, left) && Remaining(e, st) == st.pending[..take] + Remaining(e, left)
            && (left.done && left.pending == "" ==> Remaining(e, left) == "")
            && (st.pending != "" ==> st.pending[..take] != "")
  {
    hide RowTarget, RemainingMaxRows, RowsText, HeaderText;
    var take := Min(limit, |st.pending|);
    var left := st.(pending := st.pending[take..]);
    var later := if st.done then "" else Unrendered(e, st);
    assert Remaining(e, left) == st.pending[take..] + later;
    hide Unrendered;
    assert st.pending == st.pending[..take] + st.pending[take..];
    Regroup(st.pending[..take], st.pending[take..], later);
  }

  // ---------- a whole run of reads ----------

  /** One read request: the size asked for, and whether the page query works if it is needed. */
  datatype Request = Request(maxBytes: Option<nat>, queryWorks: bool)

  /** The state after a run, everything it returned, and whether its last read said it was done. */
  function Run(e: Export, requests: seq<Request>): (StreamState, string, bool)
    decreases |requests|
  {
    if requests == [] then (Opened(e), "", false)
    else
      var (st, out, _) := Run(e, requests[..|requests| - 1]);
      var last := requests[|requests| - 1];
      match Read(e, st, last.maxBytes, last.queryWorks)
      case (st', QueryFailed) => (st', out, false)
      case (st', Chunk(data, done)) => (st', out + data, done)
  }

  lemma OpenedRemains(e: Export)
    ensures Sound(e, Opened(e)) && Remaining(e, Opened(e)) == Whole(e)
  {
    if e.maxRows != Some(0) {
      assert e.rows[0..RowTarget(e)] == e.rows[..RowTarget(e)];
    }
  }

  lemma NothingMore(s: string)
    ensures s + "" == s
  {
  }

  /** At every point of every run, what was returned and what remains make up exactly one whole rendering. */
  lemma {:induction false} ChunksConserve(e: Export, requests: seq<Request>)
    ensures var (st, out, done) := Run(e, requests);
            Sound(e, st) && out + Remaining(e, st) == Whole(e) && (done ==> out == Whole(e))
    decreases |requests|
  {
    if requests == [] {
      OpenedRemains(e);
    } else {
      var front, last := requests[..|requests| - 1], requests[|requests| - 1];
      ChunksConserve(e, front);
      var (st, out, _) := Run(e, front);
      ReadConserves(e, st, last.maxBytes, last.queryWorks);
      match Read(e, st, last.maxBytes, last.queryWorks) {
        case (st', QueryFailed) =>
        case (st', Chunk(data, done)) =>
          Regroup(out, data, Remaining(e, st'));
          NothingMore(out + data);
      }
    }
  }

  /** A run of working reads none of which was done has returned at least as many characters as it made reads. */
  lemma {:induction false} ReadsProgress(e: Export, requests: seq<Request>)
    requires forall i :: 0 <= i < |requests| ==> requests[i].queryWorks
    requires forall i :: 0 <= i <= |requests| ==> !Run(e, requests[..i]).2
    ensures |Run(e, requests).1| >= |requests|
    decreases |requests|
  {
    if requests != [] {
      var front, last := requests[..|requests| - 1], requests[|requests| - 1];
      assert requests[..|requests|] == requests;
      assert last == requests[|requests| - 1];
      forall i | 0 <= i <= |front|
        ensures !Run(e, front[..i]).2
      {
        assert front[..i] == requests[..i];
      }
      ReadsProgress(e, front);
      ChunksConserve(e, front);
      ReadConserves(e, Run(e, front).0, last.maxBytes, last.queryWorks);
      assert !Run(e, requests[..|requests|]).2;
    }
  }

  /**
   * So reading ends: any sequence of more working reads than the rendering has characters contains one that is done.
   */
  lemma ReadsEnd(e: Export, requests: seq<Request>)
    requires forall i :: 0 <= i < |requests| ==> requests[i].queryWorks
    requires |requests| > |Whole(e)|
    ensures exists i :: 0 <= i <= |requests| && Run(e, requests[..i]).2
  {
    if forall i :: 0 <= i <= |requests| ==> !Run(e, requests[..i]).2 {
      ReadsProgress(e, requests);
      ChunksConserve(e, requests);
      assert false;
    }
  }

  /**
   * End to end: when the last read was done, the text read so far decodes by RFC 4180 to the column names and exactly
   * the rows up to the limit, with NULL, empty text and text equal to the null marker told apart.
   */
  lemma ExportReadsBack(e: Export, requests: seq<Request>)
    requires Readable(e.options) && e.columns != [] && AllNonEmpty(e.rows) && e.maxRows != Some(0)
    requires Run(e, requests).2
    ensures DecodeFile(Run(e, requests).1, e.options)
            == Some((if e.options.header then e.columns else [], e.rows[..RowTarget(e)]))
  {
    ChunksConserve(e, requests);
    FileReadsBack(e.columns, e.rows[..RowTarget(e)], e.options);
  }

  // ---------- how much a read takes ----------

  /** A read asks for 64 KiB when it does not say, for at least one byte and for no more than a mebibyte. */
  predicate Asks(maxBytes: Option<nat>, asked: nat) {
    match maxBytes
    case None => asked == 65_536
    case Some(n) => if n == 0 then asked == 1 else if n <= 1_048_576 then asked == n else asked == 1_048_576
  }

  /**
   * A read that has to fetch fetches at most a thousand rows, fewer only where the limit or the end comes first, and
   * fails exactly when the query does; it hands out what it was asked for or all that is buffered, and is done with the
   * last of it.
   */
  lemma ReadIsAsAsked(e: Export, st: StreamState, maxBytes: Option<nat>, queryWorks: bool, asked: nat)
    requires Sound(e, st) && Asks(maxBytes, asked)
    ensures var (st', r) := Read(e, st, maxBytes, queryWorks);
      var fetches := st.pending == "" && !st.done;
      && (r.QueryFailed? <==> fetches && !queryWorks)
      && (r.Chunk? ==>
            && st'.nextRow == (if fetches then Min(st.nextRow + 1000, RowTarget(e)) else st.nextRow)
            && |r.data| <= asked && (|r.data| == asked || st'.pending == "")
            && (r.done <==> st'.done && st'.pending == "")
            && (fetches ==>
                  (st'.done <==> st.nextRow + 1000 > RowTarget(e) || RowLimitReached(e, st'.nextRow))))
  {
    hide RowsText, HeaderText;
    if MustFill(st) {
      PageFacts(e, st);
    }
  }

  predicate RowLimitReached(e: Export, rows: nat) {
    e.maxRows.Some? && rows >= e.maxRows.value
  }
}
