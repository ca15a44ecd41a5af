/**
 * `replicate_rows(df, from_col, to_col, new_col)`, defined identically in
 * scripts/transform_stats.py and scripts/risk_factors.py (lines 10-21 of
 * each): every row with an inclusive age band [from, to] becomes one row per
 * age, in source-row order and ascending age, each a copy of the source row
 * with the key "age" set to that age and "nrep" set to the band width.
 *
 * A row is the dictionary `to_dict(orient="index")` yields: a map from
 * column names to values.
 */
module Replicate {
  import opened Results

  datatype Value = Int(i: int) | Real(x: real) | Str(s: string)

  type Row = map<string, Value>

  /** `KeyError` for a missing band column, `TypeError` for a band bound
      that `range` cannot take. */
  datatype ReplicateError = MissingColumn(name: string) | NotAnInteger(name: string)

  /** The keys every output row gets; `new_col` is never read. */
  const AgeColumn: string := "age"
  const NrepColumn: string := "nrep"

  datatype Band = Band(lo: int, hi: int)
  {
    /** `to - from + 1`, the value stored under "nrep". */
    function Nrep(): int { hi - lo + 1 }

    /** The number of ages `range(from, to + 1)` yields. */
    function Width(): nat { if hi >= lo then hi - lo + 1 else 0 }
  }

  /** Reads the band of a row in the order Python does: `row[from_col]`,
      `row[to_col]`, `row[to_col] + 1` (a string cannot take `+ 1`), then
      `range`, which accepts integers only. */
  function BandOf(row: Row, fromCol: string, toCol: string): (b: Result<Band, ReplicateError>)
    ensures b.Ok? <==> fromCol in row && toCol in row && row[fromCol].Int? && row[toCol].Int?
    ensures b.Ok? ==> b.value.lo == row[fromCol].i && b.value.hi == row[toCol].i
    ensures fromCol !in row ==> b == Err(MissingColumn(fromCol))
  {
    if fromCol !in row then Err(MissingColumn(fromCol))
    else if toCol !in row then Err(MissingColumn(toCol))
    else if row[toCol].Str? then Err(NotAnInteger(toCol))
    else if !row[fromCol].Int? then Err(NotAnInteger(fromCol))
    else if !row[toCol].Int? then Err(NotAnInteger(toCol))
    else Ok(Band(row[fromCol].i, row[toCol].i))
  }

  /** One output row: a copy of `row` with "age" and "nrep" set. */
  function Replica(row: Row, age: int, b: Band): (o: Row)
    ensures o.Keys == row.Keys + {AgeColumn, NrepColumn}
    ensures o[AgeColumn] == Int(age) && o[NrepColumn] == Int(b.hi - b.lo + 1)
    ensures forall key :: key in row && key != AgeColumn && key != NrepColumn ==> o[key] == row[key]
  {
    row[AgeColumn := Int(age)][NrepColumn := Int(b.Nrep())]
  }

  /** The rows one source row expands to. */
  function Replicas(row: Row, b: Band): (out: seq<Row>)
    ensures |out| == b.Width()
    ensures forall k :: 0 <= k < |out| ==> out[k] == Replica(row, b.lo + k, b)
  {
    seq(b.Width(), k requires 0 <= k < b.Width() => Replica(row, b.lo + k, b))
  }

  /** The whole expansion, or the error of the first row whose band cannot
      be read (the exception ends the call and discards the partial list). */
  function Expand(rows: seq<Row>, fromCol: string, toCol: string): Result<seq<Row>, ReplicateError>
  {
    if |rows| == 0 then Ok([])
    else
      match Expand(rows[..|rows| - 1], fromCol, toCol)
      case Err(e) => Err(e)
      case Ok(init) =>
        match BandOf(rows[|rows| - 1], fromCol, toCol)
        case Err(e) => Err(e)
        case Ok(b) => Ok(init + Replicas(rows[|rows| - 1], b))
  }

  predicate AllBanded(rows: seq<Row>, fromCol: string, toCol: string)
  {
    forall k :: 0 <= k < |rows| ==> BandOf(rows[k], fromCol, toCol).Ok?
  }

  /** The sum over the rows of max(0, to - from + 1). */
  function TotalWidth(rows: seq<Row>, fromCol: string, toCol: string): nat
    requires AllBanded(rows, fromCol, toCol)
  {
    if |rows| == 0 then 0
    else TotalWidth(rows[..|rows| - 1], fromCol, toCol) + BandOf(rows[|rows| - 1], fromCol, toCol).value.Width()
  }

  /** The expansion succeeds exactly when every row has two integer bounds. */
  lemma {:induction false} ExpandOk(rows: seq<Row>, fromCol: string, toCol: string)
    ensures Expand(rows, fromCol, toCol).Ok? <==> AllBanded(rows, fromCol, toCol)
  {
    if |rows| > 0 {
      ExpandOk(rows[..|rows| - 1], fromCol, toCol);
      var init := rows[..|rows| - 1];
      if AllBanded(rows, fromCol, toCol) {
        assert AllBanded(init, fromCol, toCol);
      } else if AllBanded(init, fromCol, toCol) {
        assert !BandOf(rows[|rows| - 1], fromCol, toCol).Ok?;
      } else {
        var k :| 0 <= k < |init| && !BandOf(init[k], fromCol, toCol).Ok?;
        assert rows[k] == init[k];
      }
    }
  }

  /** A failed expansion reports the error of the first row that fails. */
  lemma {:induction false} ExpandFirstError(rows: seq<Row>, fromCol: string, toCol: string)
    requires Expand(rows, fromCol, toCol).Err?
    ensures exists k :: (0 <= k < |rows| && BandOf(rows[k], fromCol, toCol).Err?
      && Expand(rows, fromCol, toCol).error == BandOf(rows[k], fromCol, toCol).error
      && AllBanded(rows[..k], fromCol, toCol))
  {
    var init := rows[..|rows| - 1];
    var last := |rows| - 1;
    if Expand(init, fromCol, toCol).Err? {
      ExpandFirstError(init, fromCol, toCol);
      var k :| 0 <= k < |init| && BandOf(init[k], fromCol, toCol).Err?
        && Expand(init, fromCol, toCol).error == BandOf(init[k], fromCol, toCol).error
        && AllBanded(init[..k], fromCol, toCol);
      assert rows[k] == init[k] && rows[..k] == init[..k];
    } else {
      ExpandOk(init, fromCol, toCol);
      assert rows[..last] == init;
      assert BandOf(rows[last], fromCol, toCol).Err?;
    }
  }

  /** The output has one row per age of every band: its length is the sum of
      the band widths, and a band with to < from contributes nothing. */
  lemma {:induction false} ExpandLength(rows: seq<Row>, fromCol: string, toCol: string)
    requires AllBanded(rows, fromCol, toCol)
    ensures Expand(rows, fromCol, toCol).Ok?
    ensures |Expand(rows, fromCol, toCol).value| == TotalWidth(rows, fromCol, toCol)
  {
    ExpandOk(rows, fromCol, toCol);
    if |rows| > 0 {
      var init := rows[..|rows| - 1];
      assert AllBanded(init, fromCol, toCol);
      ExpandLength(init, fromCol, toCol);
    }
  }

  /** Layout: the rows of source row i start after the rows of the rows
      before it, and its k-th copy carries the age from + k. */
  lemma {:induction false} ExpandLayout(rows: seq<Row>, fromCol: string, toCol: string, i: nat, k: nat)
    requires AllBanded(rows, fromCol, toCol)
    requires i < |rows| && k < BandOf(rows[i], fromCol, toCol).value.Width()
    ensures AllBanded(rows[..i], fromCol, toCol)
    ensures Expand(rows, fromCol, toCol).Ok?
    ensures var b := BandOf(rows[i], fromCol, toCol).value;
      var at := TotalWidth(rows[..i], fromCol, toCol) + k;
      at < |Expand(rows, fromCol, toCol).value|
      && Expand(rows, fromCol, toCol).value[at] == Replica(rows[i], b.lo + k, b)
  {
    var init := rows[..|rows| - 1];
    assert AllBanded(init, fromCol, toCol);
    assert AllBanded(rows[..i], fromCol, toCol);
    ExpandLength(rows, fromCol, toCol);
    ExpandLength(init, fromCol, toCol);
    if i < |rows| - 1 {
      assert init[..i] == rows[..i];
      ExpandLayout(init, fromCol, toCol, i, k);
    } else {
      assert init == rows[..i];
    }
  }

  /** Every output row comes from some source row: its "age" lies in that
      row's band, its "nrep" is the band's `to - from + 1`, and every other
      key holds the source row's value. */
  lemma {:induction false} ExpandProvenance(rows: seq<Row>, fromCol: string, toCol: string)
    requires Expand(rows, fromCol, toCol).Ok?
    ensures forall o :: o in Expand(rows, fromCol, toCol).value ==>
      exists i, age :: (0 <= i < |rows| && BandOf(rows[i], fromCol, toCol).Ok?
        && BandOf(rows[i], fromCol, toCol).value.lo <= age <= BandOf(rows[i], fromCol, toCol).value.hi
        && o == Replica(rows[i], age, BandOf(rows[i], fromCol, toCol).value))
  {
    if |rows| > 0 {
      var init := rows[..|rows| - 1];
      var last := |rows| - 1;
      ExpandProvenance(init, fromCol, toCol);
      var b := BandOf(rows[last], fromCol, toCol).value;
      forall o | o in Expand(rows, fromCol, toCol).value
        ensures exists i, age :: (0 <= i < |rows| && BandOf(rows[i], fromCol, toCol).Ok?
          && BandOf(rows[i], fromCol, toCol).value.lo <= age <= BandOf(rows[i], fromCol, toCol).value.hi
          && o == Replica(rows[i], age, BandOf(rows[i], fromCol, toCol).value))
      {
        if o in Expand(init, fromCol, toCol).value {
          var i, age :| 0 <= i < |init| && BandOf(init[i], fromCol, toCol).Ok?
            && BandOf(init[i], fromCol, toCol).value.lo <= age <= BandOf(init[i], fromCol, toCol).value.hi
            && o == Replica(init[i], age, BandOf(init[i], fromCol, toCol).value);
          assert rows[i] == init[i];
        } else {
          var k :| 0 <= k < b.Width() && o == Replicas(rows[last], b)[k];
          assert o == Replica(rows[last], b.lo + k, b);
        }
      }
    }
  }

  /** The nested loops of lines 12-21. `newCol` is accepted and never used:
      the age is always written under the key "age". */
  method ReplicateRows(rows: seq<Row>, fromCol: string, toCol: string, newCol: string)
    returns (res: Result<seq<Row>, ReplicateError>)
    ensures res == Expand(rows, fromCol, toCol)
  {
    var newdict: seq<Row> := [];
    for i := 0 to |rows|
      invariant Expand(rows[..i], fromCol, toCol) == Ok(newdict)
    {
      var row := rows[i];
      assert rows[..i + 1][..i] == rows[..i];
      var band := BandOf(row, fromCol, toCol);
      if band.Err? {
        ExpandPropagates(rows, fromCol, toCol, i + 1);
        return Err(band.error);
      }
      var b := band.value;
      ghost var prefix := newdict;
      if b.lo <= b.hi {
        for age := b.lo to b.hi + 1
          invariant newdict == prefix + Replicas(row, b)[..age - b.lo]
        {
          var newrow := row;
          newrow := newrow[AgeColumn := Int(age)];
          newrow := newrow[NrepColumn := Int(b.hi - b.lo + 1)];
          assert Replicas(row, b)[..age + 1 - b.lo] == Replicas(row, b)[..age - b.lo] + [newrow];
          newdict := newdict + [newrow];
        }
      }
      assert Replicas(row, b)[..b.Width()] == Replicas(row, b);
      assert rows[..i + 1][i] == row;
      assert newdict == Expand(rows[..i], fromCol, toCol).value + Replicas(row, b);
      assert Expand(rows[..i + 1], fromCol, toCol) == Ok(Expand(rows[..i], fromCol, toCol).value + Replicas(row, b));
    }
    assert rows[..|rows|] == rows;
    return Ok(newdict);
  }

  /** Once a prefix fails, so does the whole expansion, with the same error. */
  lemma {:induction false} ExpandPropagates(rows: seq<Row>, fromCol: string, toCol: string, m: nat)
    requires m <= |rows| && Expand(rows[..m], fromCol, toCol).Err?
    ensures Expand(rows, fromCol, toCol) == Expand(rows[..m], fromCol, toCol)
    decreases |rows| - m
  {
    if m < |rows| {
      assert rows[..m + 1][..m] == rows[..m];
      ExpandPropagates(rows, fromCol, toCol, m + 1);
    } else {
      assert rows[..m] == rows;
    }
  }
}
