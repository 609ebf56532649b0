/** A row of a query result as JavaScript sees it: the row's values plus the
    column index of the cursor or result that produced it, which the record
    shares rather than copies. */
module Records {
  import opened Wrappers
  import opened JsValues
  import opened Columns

  /** The single error `Record.Get` raises, for a wrong argument count and for
      a name that is not a string alike. */
  datatype RecordError = WrongGetArgument

  const GetArgumentMessage := "Record.Get accepts exectly one string argument"

  /** Reading a JavaScript array at an index: past the end reads `undefined`. */
  function ValueAt(values: seq<JsValue>, i: nat): JsValue {
    if i < |values| then values[i] else Undefined
  }

  class Record {
    const columns: ColumnIndex
    const values: seq<JsValue>

    /** The record points at the given column index and keeps the row. */
    constructor (columns: ColumnIndex, values: seq<JsValue>)
      ensures this.columns == columns
      ensures this.values == values
    {
      this.columns := columns;
      this.values := values;
    }

    /** `Values`: the stored row. */
    function Values(): seq<JsValue> {
      values
    }

    /** `Get(name)`: exactly one string argument is required. A known column
        reads the value at its position; an unknown name is first entered into
        the shared index at position 0 and then reads the first value. */
    method Get(args: seq<JsValue>) returns (r: Result<JsValue, RecordError>)
      modifies columns
      ensures |args| != 1 || !args[0].Str? ==>
        r == Failure(WrongGetArgument) && columns.positions == old(columns.positions)
      ensures |args| == 1 && args[0].Str? && args[0].s in old(columns.positions) ==>
        r == Success(ValueAt(values, old(columns.positions)[args[0].s])) &&
        columns.positions == old(columns.positions)
      ensures |args| == 1 && args[0].Str? && args[0].s !in old(columns.positions) ==>
        r == Success(ValueAt(values, 0)) &&
        columns.positions == old(columns.positions)[args[0].s := 0]
    {
      if |args| != 1 {
        return Failure(WrongGetArgument);
      }
      if !args[0].Str? {
        return Failure(WrongGetArgument);
      }
      var index := columns.LookupOrInsert(args[0].s);
      r := Success(ValueAt(values, index));
    }
  }

  /** Records built one per row, in order, all over the same column index. */
  predicate RecordsOver(records: seq<Record>, rows: seq<seq<JsValue>>, columns: ColumnIndex) {
    && |records| == |rows|
    && forall k :: 0 <= k < |records| ==> records[k].Values() == rows[k] && records[k].columns == columns
  }
}
