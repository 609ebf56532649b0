/** The synchronous cursor: it runs a query on its connection, keeps the
    reported column names in its own column index, and either drains all rows
    into records (`Execute`) or hands them one by one to an event callback
    (`Stream`). The connection's `Run` and `Pull` are oracles. */
module Cursors {
  import opened JsValues
  import opened Columns
  import opened Records
  import opened Pulls

  /** What `Connection::Run` does: leave an exception pending, or report the
      column names of the query. */
  datatype RunOutcome = RunThrew | RunColumns(names: seq<string>)

  /** What a call to `Execute` gives its caller. `RunException` and
      `PullException` are the exception `Run` or a pull left pending: the
      value the method then returns is discarded and the caller receives that
      exception. `Resolved` is the returned promise, resolved with the
      records. */
  datatype ExecuteOutcome = RunException | PullException | Resolved(records: seq<Record>)

  /** What a call to `Stream` gives its caller: the exception a pull left
      pending, or the string it returns. */
  datatype StreamEnd = StreamException | Returned(text: string)

  /** An event handed to the `Stream` callback. */
  datatype Event = StartEvent | RecordEvent(record: Record) | EndEvent

  const StreamDone := "OK"

  /** The third `Execute` argument, when present, asks for a lazy run. */
  predicate Lazy(args: seq<JsValue>)
    requires |args| == 3 ==> args[2].Bool?
  {
    |args| == 3 && args[2].b
  }

  class Cursor {
    const columns: ColumnIndex

    constructor ()
      ensures fresh(columns)
      ensures columns.positions == map[]
    {
      columns := new ColumnIndex();
    }

    /** `SetColumns`: the previous columns are forgotten and every name is
        stored at its index. */
    method SetColumns(names: seq<string>)
      modifies columns
      ensures columns.positions == PositionsOf(names)
    {
      columns.Assign(names);
    }

    /** `Columns`: every stored name at its position. */
    method Columns() returns (out: seq<JsValue>)
      ensures IsListing(columns.positions, out)
    {
      out := columns.Listing();
    }

    /** `Execute`: a `Run` that throws returns `null` before the columns are
        touched, and the caller receives the run's exception. Otherwise the
        columns are replaced; a lazy run resolves an empty array at once, and
        an eager one pulls until a pull reports 0, making one record per row
        in order. After a pull that throws, the rejection and the later
        resolution both run while that exception is pending, so N-API refuses
        them and re-raises it: the caller receives the pull's exception and
        the promise is never settled. */
    method Execute(args: seq<JsValue>, run: RunOutcome, pulls: seq<CursorPull>) returns (r: ExecuteOutcome)
      requires |args| == 3 ==> args[2].Bool?
      modifies columns
      ensures run.RunThrew? ==> r == RunException && columns.positions == old(columns.positions)
      ensures run.RunColumns? ==> columns.positions == PositionsOf(run.names)
      ensures run.RunColumns? && Lazy(args) ==> r == Resolved([])
      ensures run.RunColumns? && !Lazy(args) && CursorRows(pulls).threw ==> r == PullException
      ensures run.RunColumns? && !Lazy(args) && !CursorRows(pulls).threw ==>
        r.Resolved? && RecordsOver(r.records, CursorRows(pulls).rows, columns) &&
        forall k :: 0 <= k < |r.records| ==> fresh(r.records[k])
    {
      var lazy := Lazy(args);
      if run.RunThrew? {
        return RunException;
      }
      SetColumns(run.names);
      if lazy {
        return Resolved([]);
      }
      var data, threw := PullAll(pulls);
      if threw {
        r := PullException;
      } else {
        r := Resolved(data);
      }
    }

    /** The eager loop of `Execute`: one fresh record per row until a pull
        reports 0 or throws; `threw` tells which. */
    method PullAll(pulls: seq<CursorPull>) returns (data: seq<Record>, threw: bool)
      ensures threw == CursorRows(pulls).threw
      ensures RecordsOver(data, CursorRows(pulls).rows, columns)
      ensures forall k :: 0 <= k < |data| ==> fresh(data[k])
    {
      data := [];
      threw := false;
      var index := 0;
      ghost var rows: seq<seq<JsValue>> := [];
      while index < |pulls|
        invariant index <= |pulls|
        invariant CursorRows(pulls).rows == rows + CursorRows(pulls[index..]).rows
        invariant CursorRows(pulls).threw == CursorRows(pulls[index..]).threw
        invariant RecordsOver(data, rows, columns)
        invariant forall k :: 0 <= k < |data| ==> fresh(data[k])
      {
        assert pulls[index..][1..] == pulls[index + 1..];
        match pulls[index]
        case PullThrew =>
          assert CursorRows(pulls).rows == rows + [];
          return data, true;
        case Pulled(row, status) =>
          if status == 0 {
            break;
          }
          var record := new Record(columns, row);
          data := data + [record];
          rows := rows + [row];
          index := index + 1;
      }
      assert CursorRows(pulls).rows == rows + [];
    }

    /** `Stream`: "start", then one "record" per row in pull order, then
        "end" and "OK". A pull that throws ends the stream at once, with no
        "end": the failure text it returns is discarded and the caller
        receives the pull's exception. */
    method Stream(pulls: seq<CursorPull>) returns (events: seq<Event>, r: StreamEnd)
      ensures var d := CursorRows(pulls);
        && |events| == 1 + |d.rows| + (if d.threw then 0 else 1)
        && Streamed(events, d.rows, columns)
        && (d.threw ==> r == StreamException)
        && (!d.threw ==> r == Returned(StreamDone) && events[|events| - 1] == EndEvent)
    {
      events := [StartEvent];
      var index := 0;
      ghost var rows: seq<seq<JsValue>> := [];
      while index < |pulls|
        invariant index <= |pulls|
        invariant CursorRows(pulls).rows == rows + CursorRows(pulls[index..]).rows
        invariant CursorRows(pulls).threw == CursorRows(pulls[index..]).threw
        invariant |events| == 1 + |rows|
        invariant Streamed(events, rows, columns)
      {
        assert pulls[index..][1..] == pulls[index + 1..];
        match pulls[index]
        case PullThrew =>
          assert CursorRows(pulls).rows == rows + [];
          return events, StreamException;
        case Pulled(row, status) =>
          if status == 0 {
            break;
          }
          var record := new Record(columns, row);
          events := events + [RecordEvent(record)];
          rows := rows + [row];
          index := index + 1;
      }
      assert CursorRows(pulls).rows == rows + [];
      events := events + [EndEvent];
      r := Returned(StreamDone);
    }
  }

  /** The events open with "start" and the i-th "record" event carries a
      record over the i-th row and the given column index. */
  predicate Streamed(events: seq<Event>, rows: seq<seq<JsValue>>, columns: ColumnIndex) {
    && |rows| < |events|
    && events[0] == StartEvent
    && forall j :: 1 <= j <= |rows| ==>
         events[j].RecordEvent? && events[j].record.Values() == rows[j - 1] &&
         events[j].record.columns == columns
  }
}
