/** The server side of a result stream, as an oracle. The binding drains rows
    with repeated pulls; each pull is taken here from a finite script of
    outcomes. A script that runs out behaves as a pull reporting "no more rows",
    so every drain loop terminates. */
module Pulls {
  import opened Wrappers
  import opened JsValues
  import opened MgValues
  import opened Glue

  /** One `mg_session_pull`: status 1 carries a wire row, anything else ends
      the stream (0 for done, a negative code for an error). */
  datatype SessionPull = SessionPull(status: int, row: seq<MgValue>)

  /** One `Connection::Pull` as the cursor sees it: either a row that is
      already a JavaScript array with its status, or a pending exception. */
  datatype CursorPull = Pulled(row: seq<JsValue>, status: int) | PullThrew

  /** How many pulls report status 1 before the first one that does not. */
  function RowCount(pulls: seq<SessionPull>): (n: nat)
    ensures n <= |pulls|
    ensures forall k :: 0 <= k < n ==> pulls[k].status == 1
    ensures n < |pulls| ==> pulls[n].status != 1
  {
    if pulls == [] || pulls[0].status != 1 then 0 else 1 + RowCount(pulls[1..])
  }

  /** The rows a session drain produces: each status-1 pull's row decoded in
      turn; a row that fails to decode ends the drain with the codec's error,
      the exception it leaves pending. */
  function DecodedRows(pulls: seq<SessionPull>): Result<seq<seq<JsValue>>, DecodeError> {
    if pulls == [] || pulls[0].status != 1 then Success([])
    else match DecodeList(pulls[0].row)
      case Failure(e) => Failure(e)
      case Success(row) =>
        match DecodedRows(pulls[1..])
        case Failure(e) => Failure(e)
        case Success(rest) => Success([row] + rest)
  }

  /** The rows already produced in front of the rows still to come. */
  function Prefixed(front: seq<seq<JsValue>>, rest: Result<seq<seq<JsValue>>, DecodeError>): Result<seq<seq<JsValue>>, DecodeError> {
    match rest
    case Failure(e) => Failure(e)
    case Success(rows) => Success(front + rows)
  }

  /** A session drain succeeds exactly when every row before the first
      non-row status decodes; it then holds one decoded row per such pull, in
      pull order. */
  lemma {:induction false} DecodedRowsSpec(pulls: seq<SessionPull>)
    ensures DecodedRows(pulls).Success? <==>
      forall k :: 0 <= k < RowCount(pulls) ==> DecodeList(pulls[k].row).Success?
    ensures DecodedRows(pulls).Success? ==> |DecodedRows(pulls).value| == RowCount(pulls)
    ensures DecodedRows(pulls).Success? ==>
      forall k :: 0 <= k < RowCount(pulls) ==>
        DecodedRows(pulls).value[k] == DecodeList(pulls[k].row).value
  {
    if pulls != [] && pulls[0].status == 1 {
      var tail := pulls[1..];
      DecodedRowsSpec(tail);
      assert forall k :: 0 <= k < RowCount(tail) ==> tail[k] == pulls[k + 1];
      if DecodeList(pulls[0].row).Success? && DecodedRows(tail).Success? {
        var rows := DecodedRows(pulls).value;
        forall k | 0 <= k < RowCount(pulls)
          ensures rows[k] == DecodeList(pulls[k].row).value
        {
          if k > 0 { assert rows[k] == DecodedRows(tail).value[k - 1]; }
        }
      }
      if DecodedRows(tail).Failure? {
        var k :| 0 <= k < RowCount(tail) && DecodeList(tail[k].row).Failure?;
        assert DecodeList(pulls[k + 1].row).Failure?;
      }
    }
  }

  /** A failing session drain fails with the error of the first row that does
      not decode: the exception that row leaves pending. */
  lemma {:induction false} DecodedRowsFailure(pulls: seq<SessionPull>)
    requires DecodedRows(pulls).Failure?
    ensures exists k ::
      && 0 <= k < RowCount(pulls)
      && DecodeList(pulls[k].row) == Failure(DecodedRows(pulls).error)
      && forall j :: 0 <= j < k ==> DecodeList(pulls[j].row).Success?
  {
    var tail := pulls[1..];
    if DecodeList(pulls[0].row).Success? {
      DecodedRowsFailure(tail);
      var k :| 0 <= k < RowCount(tail) && DecodeList(tail[k].row) == Failure(DecodedRows(tail).error) &&
        forall j :: 0 <= j < k ==> DecodeList(tail[j].row).Success?;
      assert pulls[k + 1] == tail[k];
      forall j | 0 <= j < k + 1 ensures DecodeList(pulls[j].row).Success? {
        if j > 0 { assert pulls[j] == tail[j - 1]; }
      }
    } else {
      assert DecodeList(pulls[0].row) == Failure(DecodedRows(pulls).error);
    }
  }

  /** What a cursor drain collects: the rows before the first stop, and whether
      that stop was a pending exception rather than status 0. */
  datatype Drain = Drain(rows: seq<seq<JsValue>>, threw: bool)

  function CursorRows(pulls: seq<CursorPull>): Drain {
    if pulls == [] then Drain([], false)
    else match pulls[0]
      case PullThrew => Drain([], true)
      case Pulled(row, status) =>
        if status == 0 then Drain([], false)
        else var rest := CursorRows(pulls[1..]); Drain([row] + rest.rows, rest.threw)
  }

  /** The cursor drain keeps exactly the rows of the leading pulls whose status
      is non-zero, in order; it threw exactly when the pull that stopped it was
      an exception, and otherwise the script ran out or reported status 0. */
  lemma {:induction false} CursorRowsSpec(pulls: seq<CursorPull>)
    ensures |CursorRows(pulls).rows| <= |pulls|
    ensures forall k :: 0 <= k < |CursorRows(pulls).rows| ==>
      pulls[k].Pulled? && pulls[k].row == CursorRows(pulls).rows[k] && pulls[k].status != 0
    ensures CursorRows(pulls).threw <==>
      |CursorRows(pulls).rows| < |pulls| && pulls[|CursorRows(pulls).rows|].PullThrew?
    ensures !CursorRows(pulls).threw && |CursorRows(pulls).rows| < |pulls| ==>
      pulls[|CursorRows(pulls).rows|].status == 0
  {
    if pulls != [] && pulls[0].Pulled? && pulls[0].status != 0 {
      var tail := pulls[1..];
      CursorRowsSpec(tail);
      var rows := CursorRows(pulls).rows;
      assert rows[1..] == CursorRows(tail).rows;
      forall k | 0 <= k < |rows|
        ensures pulls[k].Pulled? && pulls[k].row == rows[k] && pulls[k].status != 0
      {
        if k > 0 { assert pulls[k] == tail[k - 1]; }
      }
      assert |rows| < |pulls| ==> pulls[|rows|] == tail[|rows| - 1];
    }
  }
}
