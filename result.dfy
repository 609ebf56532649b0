/** The result of a query run on a session: it keeps the column names in its
    own column index and drains the session's rows into records that share
    that index. The session's pulls are an oracle. */
module Results {
  import W = Wrappers
  import opened JsValues
  import opened Columns
  import opened Records
  import opened Pulls
  import opened GlueLoops
  import Glue

  class Result {
    const columns: ColumnIndex

    /** The constructor stores every column name at its index. */
    constructor (names: seq<string>)
      ensures fresh(columns)
      ensures columns.positions == PositionsOf(names)
    {
      columns := new ColumnIndex();
      new;
      columns.Assign(names);
    }

    /** `Columns`: every stored name at its position. */
    method Columns() returns (out: seq<JsValue>)
      ensures IsListing(columns.positions, out)
    {
      out := columns.Listing();
    }

    /** `Records`: pull while the status is 1, decoding each row and storing
        it as the next record over this result's own column index. A row that
        does not decode returns at once with the codec's exception pending:
        the `null` returned is discarded and the caller receives that
        exception (`Failure`), and the promise is never settled. */
    method Records(pulls: seq<SessionPull>) returns (r: W.Result<seq<Record>, Glue.DecodeError>)
      ensures r.Failure? <==> DecodedRows(pulls).Failure?
      ensures r.Failure? ==> r.error == DecodedRows(pulls).error
      ensures r.Success? ==> RecordsOver(r.value, DecodedRows(pulls).value, columns)
      ensures r.Success? ==> forall k :: 0 <= k < |r.value| ==> fresh(r.value[k])
    {
      var data: seq<Record> := [];
      var index := 0;
      ghost var rows: seq<seq<JsValue>> := [];
      assert pulls[index..] == pulls;
      assert DecodedRows(pulls).Success? ==> [] + DecodedRows(pulls).value == DecodedRows(pulls).value;
      while index < |pulls| && pulls[index].status == 1
        invariant index <= |pulls|
        invariant DecodedRows(pulls) == Prefixed(rows, DecodedRows(pulls[index..]))
        invariant RecordsOver(data, rows, columns)
        invariant forall k :: 0 <= k < |data| ==> fresh(data[k])
      {
        assert pulls[index..][1..] == pulls[index + 1..];
        var row := ListToArray(pulls[index].row);
        if row.Failure? {
          return W.Failure(row.error);
        }
        ghost var rest := DecodedRows(pulls[index + 1..]);
        assert DecodedRows(pulls[index..]) == Prefixed([row.value], rest);
        assert rest.Success? ==> rows + ([row.value] + rest.value) == rows + [row.value] + rest.value;
        var record := new Record(columns, row.value);
        data := data + [record];
        rows := rows + [row.value];
        index := index + 1;
      }
      assert DecodedRows(pulls) == W.Success(rows + []);
      r := W.Success(data);
    }
  }
}
