/** The column index that cursors, results and records share: a map from
    column name to position (`std::map<std::string, uint32_t>`), filled from
    the column list a query reports and listed back by placing each name at
    its position. */
module Columns {
  import opened JsValues
  import opened Glue

  /** The positions a column list assigns when names are stored in order:
      every name maps to the last index it occurs at. */
  function PositionsOf(names: seq<string>): (m: map<string, nat>)
    ensures forall name :: name in m <==> name in names
    ensures forall name :: name in m ==> m[name] < |names| && names[m[name]] == name
    ensures forall name, j :: name in m && m[name] < j < |names| ==> names[j] != name
  {
    if names == [] then map[]
    else PositionsOf(names[..|names| - 1])[names[|names| - 1] := |names| - 1]
  }

  predicate DistinctNames(names: seq<string>) {
    forall i, j :: 0 <= i < j < |names| ==> names[i] != names[j]
  }

  /** With distinct names, each name sits at its own index. */
  lemma PositionsOfDistinct(names: seq<string>, i: nat)
    requires DistinctNames(names)
    requires i < |names|
    ensures PositionsOf(names)[names[i]] == i
  {
    assert names[i] in names;
    var j := PositionsOf(names)[names[i]];
    assert names[j] == names[i];
  }

  /** What listing the columns yields: an array at least as long as the map,
      long enough to hold every position and no longer than the map or the
      largest position requires, with every mapped name (cut at its first NUL,
      as `String::New` on a C string does) at its position and nothing
      elsewhere. When two names share a position one of them is shown. */
  predicate IsListing(m: map<string, nat>, out: seq<JsValue>) {
    && |m| <= |out|
    && (forall name :: name in m ==> m[name] < |out| && out[m[name]].Str?)
    && (|out| == |m| || exists name :: name in m && m[name] == |out| - 1)
    && (forall i :: 0 <= i < |out| ==>
         out[i] == Undefined ||
         exists name :: name in m && m[name] == i && out[i] == Str(CString(name)))
  }

  /** The JavaScript array of column names a list of distinct columns lists
      back as. */
  function ColumnArray(names: seq<string>): (r: seq<JsValue>)
    ensures |r| == |names|
  {
    seq(|names|, i requires 0 <= i < |names| => Str(CString(names[i])))
  }

  /** Distinct names come back as the original column list. */
  lemma {:induction false} ListingOfDistinct(names: seq<string>, out: seq<JsValue>)
    requires DistinctNames(names)
    requires IsListing(PositionsOf(names), out)
    ensures out == ColumnArray(names)
  {
    var m := PositionsOf(names);
    assert m.Keys == set name | name in names;
    DistinctCount(names);
    assert |out| == |names|;
    forall i | 0 <= i < |out| ensures out[i] == Str(CString(names[i])) {
      PositionsOfDistinct(names, i);
      assert out[m[names[i]]].Str?;
      var name :| name in m && m[name] == i && out[i] == Str(CString(name));
    }
  }

  /** A list of distinct names has as many distinct elements as entries. */
  lemma {:induction false} DistinctCount(names: seq<string>)
    requires DistinctNames(names)
    ensures |set name | name in names| == |names|
  {
    if names != [] {
      var init := names[..|names| - 1];
      DistinctCount(init);
      assert (set name | name in names) == (set name | name in init) + {names[|names| - 1]};
      assert names[|names| - 1] !in init;
    }
  }

  class ColumnIndex {
    var positions: map<string, nat>

    constructor ()
      ensures positions == map[]
    {
      positions := map[];
    }

    /** `SetColumns` and the result constructor: clear the map, then store
        every column name at its index. */
    method Assign(names: seq<string>)
      modifies this
      ensures positions == PositionsOf(names)
    {
      positions := map[];
      var index := 0;
      while index < |names|
        invariant index <= |names|
        invariant positions == PositionsOf(names[..index])
      {
        assert names[..index + 1][..index] == names[..index];
        positions := positions[names[index] := index];
        index := index + 1;
      }
      assert names[..index] == names;
    }

    /** `operator[]`: the position of a name, inserting the name at
        position 0 when it is not there yet. */
    method LookupOrInsert(name: string) returns (index: nat)
      modifies this
      ensures name in old(positions) ==> index == old(positions)[name] && positions == old(positions)
      ensures name !in old(positions) ==> index == 0 && positions == old(positions)[name := 0]
    {
      if name in positions {
        index := positions[name];
      } else {
        positions := positions[name := 0];
        index := 0;
      }
    }

    /** `Columns`: an array sized to the map, every name written at its
        position; a position past the end grows the array. */
    method Listing() returns (out: seq<JsValue>)
      ensures IsListing(positions, out)
    {
      out := seq(|positions|, _ => Undefined);
      var remaining := positions.Keys;
      while remaining != {}
        invariant remaining <= positions.Keys
        invariant |positions| <= |out|
        invariant forall name :: name in positions && name !in remaining ==>
          positions[name] < |out| && out[positions[name]].Str?
        invariant |out| == |positions| ||
          exists name :: name in positions && name !in remaining && positions[name] == |out| - 1
        invariant forall i :: 0 <= i < |out| ==>
          out[i] == Undefined ||
          exists name :: name in positions && name !in remaining && positions[name] == i &&
            out[i] == Str(CString(name))
        decreases |remaining|
      {
        var name :| name in remaining;
        var index := positions[name];
        var before := out;
        if index >= |out| {
          out := out + seq(index + 1 - |out|, _ => Undefined);
        }
        out := out[index := Str(CString(name))];
        remaining := remaining - {name};
        forall i | 0 <= i < |out| && i != index && out[i] != Undefined
          ensures exists n :: (n in positions && n !in remaining && positions[n] == i &&
                                out[i] == Str(CString(n)))
        {
          assert i < |before| && out[i] == before[i];
        }
      }
    }
  }
}
